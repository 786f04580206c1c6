/** Core 1 comes back to its service loop, in every run and whatever anybody else does. */
module PipelineProgress {
  import opened Wire
  import opened Pipeline
  import opened PipelineInv
  import opened PipelineStreams
  import opened PipelineTheorems

  /** How many moves of its own core 1 is at most away from its service loop. */
  function Rank(c: Core): nat {
    (match c.pc
     case Top => 0
     case StoreDone => 1
     case StoreStatus => 2
     case AwaitClear => 3
     case Lower => 4
     case AwaitReply => 5
     case SendPayload => 6
     case SendHeader => 7
     case ArmReply => 8
     case AwaitReady => 9
     case Raise => 10
     case Decide => 11
     case LoadAddr => 12
     case LoadCount => 13
     case LoadLba => 14
     case LoadOp => 15
     case CheckSeq => 16) + if InTransaction(c.pc) && c.op == CON then 14 else 0
  }

  /** The most it ever is: a console transaction, and the disk transaction after it. */
  const FULL_ROUND := 24

  predicate IsCoreMove(a: Action) {
    a.CoreStep? || a.CoreExpire?
  }

  predicate IsCoreStart(a: Action) {
    a.CoreProbe? || a.CorePump? || a.CoreSkip?
  }

  lemma CoreDecidesOn(s: State, room: nat, spill: bool)
    requires MailboxInv(s) && s.core.pc.Decide?
    ensures Rank(StepCore(s, room, spill).core) < Rank(s.core)
  {
  }

  lemma CoreLoadsOn(s: State, room: nat, spill: bool)
    requires CoreReady(s) && !InTransaction(s.core.pc) && !s.core.pc.Decide?
    ensures Rank(StepCore(s, room, spill).core) < Rank(s.core)
  {
  }

  lemma CoreTransactsOn(s: State, room: nat, spill: bool)
    requires CoreReady(s) && InTransaction(s.core.pc) && !s.core.pc.AwaitClear? && !s.core.pc.AwaitReply?
    ensures Rank(StepCore(s, room, spill).core) < Rank(s.core)
  {
    hide EncodeHeader, Deliver, Payload, Sent;
  }

  lemma CoreIsAnswered(s: State, room: nat, spill: bool)
    requires CoreReady(s) && s.core.pc.AwaitReply?
    ensures Rank(StepCore(s, room, spill).core) < Rank(s.core)
  {
    ReplyKeepsChunks(s, room);
    hide TakeReply;
  }

  lemma CoreReturnsOn(s: State, room: nat, spill: bool)
    requires CoreReady(s) && s.core.pc.AwaitClear?
    ensures Rank(StepCore(s, room, spill).core) < Rank(s.core)
  {
  }

  lemma CoreStepsOn(s: State, room: nat, spill: bool)
    requires MailboxInv(s) && CoreReady(s)
    ensures Rank(StepCore(s, room, spill).core) < Rank(s.core)
  {
    if s.core.pc.Decide? {
      CoreDecidesOn(s, room, spill);
    } else if s.core.pc.AwaitClear? {
      CoreReturnsOn(s, room, spill);
    } else if s.core.pc.AwaitReply? {
      CoreIsAnswered(s, room, spill);
    } else if InTransaction(s.core.pc) {
      CoreTransactsOn(s, room, spill);
    } else {
      CoreLoadsOn(s, room, spill);
    }
  }

  lemma CoreGivesUp(s: State)
    requires CoreMayExpire(s.core.pc)
    ensures Rank(ExpireCore(s).core) < Rank(s.core)
  {
    match s.core.pc
    case AwaitReady =>
    case AwaitClear =>
    case AwaitReply =>
    case _ =>
  }

  /** Every move core 1 makes brings it nearer its service loop, and nobody else takes it further away. */
  lemma EveryMoveCounts(s: State, a: Action)
    requires Inv(s) && Enabled(s, a)
    ensures IsCoreMove(a) ==> Rank(Step(s, a).core) < Rank(s.core)
    ensures IsCoreStart(a) ==> s.core.pc.Top? && Rank(Step(s, a).core) <= FULL_ROUND
    ensures !IsCoreMove(a) && !IsCoreStart(a) ==> Rank(Step(s, a).core) == Rank(s.core)
  {
    match a
    case CoreStep(room, spill) => CoreStepsOn(s, room, spill);
    case CoreExpire => CoreGivesUp(s);
    case CoreProbe =>
    case CorePump(_) =>
    case CoreSkip =>
    case _ => OthersKeepCore(s, a);
  }

  /** And a move of its own is always open to it, if only to give up waiting. */
  lemma NeverStuck(s: State)
    requires !s.core.pc.Top?
    ensures Enabled(s, CoreStep(0, false)) || Enabled(s, CoreExpire)
  {
  }

  function Moves(run: seq<Action>): nat {
    if run == [] then 0 else (if IsCoreMove(run[0]) then 1 else 0) + Moves(run[1..])
  }

  function Starts(run: seq<Action>): nat {
    if run == [] then 0 else (if IsCoreStart(run[0]) then 1 else 0) + Starts(run[1..])
  }

  /**
   In every run, calm or not, core 1 makes at most 24 moves for each time round its loop: every
   transaction ends, answered or not, and the loop that serves USB and the console goes on.
   */
  lemma {:induction false} EveryRoundEnds(s: State, run: seq<Action>)
    requires Inv(s) && Legal(s, run)
    ensures Moves(run) + Rank(Run(s, run).core) <= Rank(s.core) + FULL_ROUND * Starts(run)
    decreases |run|
  {
    if run != [] {
      EveryMoveCounts(s, run[0]);
      StepKeepsInv(s, run[0]);
      EveryRoundEnds(Step(s, run[0]), run[1..]);
      hide Step, Rank, Inv;
    }
  }
}

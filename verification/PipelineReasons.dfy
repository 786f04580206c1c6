/** Why a disk request fails, and that for no other reason does it. */
module PipelineReasons {
  import opened Words
  import opened Wire
  import opened DiskSpec
  import opened Pipeline
  import opened PipelineInv
  import opened PipelineStreams
  import opened PipelineTheorems

  /** Core 1 sends no such request on. */
  predicate IsMalformed(r: Request) {
    r.count == 0 || r.count > 8
  }

  /** The medium ends before the request does. */
  predicate IsBeyond(r: Request, capacity: nat) {
    r.lba + r.count > capacity
  }

  /** At this step the card refuses the request in hand, or the wait for the data of a write runs out. */
  predicate IsMishap(s: State, a: Action) {
    || (a.MasterStep? && !a.ok && s.master.pc.MRead? && s.linux.request.op == READ)
    || (a.MasterStep? && !a.ok && s.master.pc.MAwaitPayload? && s.linux.request.op == WRITE)
    || (a.MasterExpire? && s.master.pc.MAwaitPayload? && s.linux.request.op == WRITE)
  }

  /** The step settles Linux's request. */
  ghost predicate SettlesNow(s: State, a: Action)
    requires Enabled(s, a)
  {
    Abstract(s).phase.Waiting? && Abstract(Step(s, a)).phase.Settled?
  }

  function ResultNow(t: State): Result
    requires Abstract(t).phase.Settled?
  {
    Abstract(t).phase.result
  }

  /**
   What is made of a request, and why: malformed, beyond the medium, a mishap at this very step, or else
   done; and done means that the sectors asked for have been handed over as they are, or been replaced.
   */
  predicate IsExplained(s: State, a: Action, result: Result, store: seq<byte>) {
    var r := result.request;
    var first, last := r.lba * 512, (r.lba + r.count) * 512;
    if IsMalformed(r) then result.status == -22 && result.data == [] && store == s.store
    else if IsBeyond(r, s.capacity) || IsMishap(s, a) then result.status == -5 && result.data == [] && store == s.store
    else
      && result.status == 0 && 0 <= first <= last <= |s.store|
      && (r.op == READ ==> result.data == s.store[first..last] && store == s.store)
      && (r.op == WRITE ==> result.data == [] && store == s.store[..first] + r.data + s.store[last..])
  }

  /** The step settles the request Linux is waiting on, and with good reason. */
  ghost predicate SettlesWell(s: State, a: Action)
    requires Enabled(s, a) && SettlesNow(s, a)
  {
    var t := Step(s, a);
    IsExplained(s, a, ResultNow(t), t.store) && ResultNow(t).request == s.linux.request
  }

  lemma CoreExplains(s: State, room: nat, spill: bool)
    requires LinkInv(s) && Calm(s) && CoreReady(s) && SettlesNow(s, CoreStep(room, spill))
    ensures SettlesWell(s, CoreStep(room, spill))
  {
    if !s.core.pc.Decide? {
      CoreRefines(s, room, spill);
    }
  }

  lemma DecideExplains(s: State, ok: bool, spill: bool, caught: nat)
    requires LinkInv(s) && Calm(s) && s.master.pc.MDecide? && SettlesNow(s, MasterStep(ok, spill, caught))
    ensures SettlesWell(s, MasterStep(ok, spill, caught))
  {
    assert s.master.req == HeaderOf(s.core);
  }

  lemma ReadExplains(s: State, ok: bool, spill: bool, caught: nat)
    requires LinkInv(s) && Calm(s) && s.master.pc.MRead? && SettlesNow(s, MasterStep(ok, spill, caught))
    ensures SettlesWell(s, MasterStep(ok, spill, caught))
  {
    assert s.master.req == HeaderOf(s.core);
  }

  lemma WriteExplains(s: State, ok: bool, spill: bool, caught: nat)
    requires LinkInv(s) && Calm(s) && s.master.pc.MAwaitPayload? && MasterReady(s)
    requires SettlesNow(s, MasterStep(ok, spill, caught))
    ensures SettlesWell(s, MasterStep(ok, spill, caught))
  {
    assert s.master.req == HeaderOf(s.core) && s.master.rx.data == Payload(s);
  }

  lemma OtherMasterStepsSettleNothing(s: State, ok: bool, spill: bool, caught: nat)
    requires LinkInv(s) && Calm(s) && MasterReady(s)
    requires !s.master.pc.MDecide? && !s.master.pc.MRead? && !s.master.pc.MAwaitPayload?
    ensures !SettlesNow(s, MasterStep(ok, spill, caught))
  {
    hide ReplyFrame, Deliver, EncodeHeader;
  }

  lemma MasterExplains(s: State, ok: bool, spill: bool, caught: nat)
    requires LinkInv(s) && Calm(s) && MasterReady(s) && SettlesNow(s, MasterStep(ok, spill, caught))
    ensures SettlesWell(s, MasterStep(ok, spill, caught))
  {
    match s.master.pc
    case MDecide => DecideExplains(s, ok, spill, caught);
    case MRead => ReadExplains(s, ok, spill, caught);
    case MAwaitPayload => WriteExplains(s, ok, spill, caught);
    case _ => OtherMasterStepsSettleNothing(s, ok, spill, caught);
  }

  lemma ExpiryExplains(s: State)
    requires LinkInv(s) && Calm(s) && MasterMayExpire(s.master.pc) && SettlesNow(s, MasterExpire)
    ensures SettlesWell(s, MasterExpire)
  {
    assert Serving(s.master.pc) ==> s.master.req == HeaderOf(s.core);
  }

  lemma LinuxSettlesNothing(s: State)
    requires !s.linux.pc.LIdle?
    ensures !SettlesNow(s, LinuxStep)
  {
  }

  lemma OthersSettleNothing(s: State, a: Action)
    requires Enabled(s, a) && (a.LinuxBegin? || a.CoreProbe? || a.CorePump? || a.CoreSkip? || a.KeyPress?)
    ensures !SettlesNow(s, a)
  {
  }

  /** The main result, at the one step that settles a request. */
  lemma StepExplains(s: State, a: Action)
    requires Inv(s) && Enabled(s, a) && Calm(Step(s, a)) && SettlesNow(s, a)
    ensures SettlesWell(s, a)
  {
    FaultsStay(s, a);
    match a
    case CoreStep(room, spill) => CoreExplains(s, room, spill);
    case MasterStep(ok, spill, caught) => MasterExplains(s, ok, spill, caught);
    case MasterExpire => ExpiryExplains(s);
    case LinuxStep => LinuxSettlesNothing(s);
    case CoreExpire =>
    case _ => OthersSettleNothing(s, a);
  }

  // ---- Over runs ----

  /** A step that settled a request, and the state it was taken in. */
  datatype Settling = Settling(before: State, action: Action)

  /** The settling steps of a run, in order. */
  ghost function Settlings(s: State, run: seq<Action>): (r: seq<Settling>)
    requires Legal(s, run)
    ensures forall i :: 0 <= i < |r| ==> Enabled(r[i].before, r[i].action) && SettlesNow(r[i].before, r[i].action)
    decreases |run|
  {
    if run == [] then []
    else (if SettlesNow(s, run[0]) then [Settling(s, run[0])] else []) + Settlings(Step(s, run[0]), run[1..])
  }

  ghost function ResultOf(x: Settling): Result
    requires Enabled(x.before, x.action) && SettlesNow(x.before, x.action)
  {
    ResultNow(Step(x.before, x.action))
  }

  /** Their results. */
  ghost function Results(xs: seq<Settling>): seq<Result>
    requires forall i :: 0 <= i < |xs| ==> Enabled(xs[i].before, xs[i].action) && SettlesNow(xs[i].before, xs[i].action)
  {
    seq(|xs|, i requires 0 <= i < |xs| => ResultOf(xs[i]))
  }

  /** All results so far: those Linux has been told, and the one it is about to be. */
  function Told(s: State): seq<Result> {
    var d := Abstract(s);
    if d.phase.Settled? then d.log + [d.phase.result] else d.log
  }

  lemma ToldGrows(s: State, a: Action)
    requires Inv(s) && Enabled(s, a) && Calm(Step(s, a))
    ensures Told(Step(s, a)) == Told(s) + if SettlesNow(s, a) then [ResultNow(Step(s, a))] else []
  {
    StepRefinesDisk(s, a);
    hide Step, Inv, Abstract;
  }

  lemma Associates(a: seq<Result>, b: seq<Result>, c: seq<Result>)
    ensures (a + b) + c == a + (b + c)
  {
  }

  lemma ResultsUnroll(s: State, run: seq<Action>)
    requires Legal(s, run) && run != []
    ensures var t := Step(s, run[0]);
      Results(Settlings(s, run)) ==
        (if SettlesNow(s, run[0]) then [ResultNow(t)] else []) + Results(Settlings(t, run[1..]))
  {
    hide Step, Enabled, Abstract;
    var rest := Settlings(Step(s, run[0]), run[1..]);
    if SettlesNow(s, run[0]) {
      assert Settlings(s, run) == [Settling(s, run[0])] + rest;
    } else {
      assert Settlings(s, run) == [] + rest == rest;
    }
  }

  /** What Linux is told, in order, is what the settling steps made of its requests. */
  lemma {:induction false} ToldIsSettled(s: State, run: seq<Action>)
    requires Inv(s) && Legal(s, run) && Calm(Run(s, run))
    ensures Told(Run(s, run)) == Told(s) + Results(Settlings(s, run))
    decreases |run|
  {
    if run == [] {
      assert Results(Settlings(s, run)) == [];
    } else {
      hide Inv, Step, Told, Settlings, Results, SettlesNow, ResultNow, Abstract, Enabled, Calm;
      var t := Step(s, run[0]);
      CalmToTheEnd(t, run[1..]);
      StepKeepsInv(s, run[0]);
      ToldGrows(s, run[0]);
      ToldIsSettled(t, run[1..]);
      ResultsUnroll(s, run);
      Associates(Told(s), if SettlesNow(s, run[0]) then [ResultNow(t)] else [], Results(Settlings(t, run[1..])));
      assert Run(s, run) == Run(t, run[1..]);
    }
  }

  lemma {:induction false} SettlingsAreWell(s: State, run: seq<Action>)
    requires Inv(s) && Legal(s, run) && Calm(Run(s, run))
    ensures forall x :: x in Settlings(s, run) ==> SettlesWell(x.before, x.action)
    decreases |run|
  {
    if run != [] {
      var t := Step(s, run[0]);
      CalmToTheEnd(t, run[1..]);
      StepKeepsInv(s, run[0]);
      if SettlesNow(s, run[0]) {
        StepExplains(s, run[0]);
      }
      SettlingsAreWell(t, run[1..]);
    }
  }

  lemma ToldBeginsWithLog(s: State)
    ensures s.linux.log <= Told(s) && (Init(s) ==> Told(s) == [])
  {
  }

  /**
   In every calm run each result Linux is told was made by one step of the run, and is explained by it: a
   request fails because it is malformed, beyond the medium, refused by the card then and there, or a
   write whose data did not come; otherwise it succeeds, and a read carries the sectors as they were.
   */
  lemma EveryResultIsExplained(s: State, run: seq<Action>, i: nat)
    requires Init(s) && Legal(s, run) && Calm(Run(s, run)) && i < |Run(s, run).linux.log|
    ensures i < |Settlings(s, run)|
    ensures var x := Settlings(s, run)[i];
      && Run(s, run).linux.log[i] == ResultOf(x)
      && IsExplained(x.before, x.action, Run(s, run).linux.log[i], Step(x.before, x.action).store)
  {
    hide Step, Init, Inv, IsExplained, Abstract, Enabled, Told, Settlings, Run, Legal;
    InitInv(s);
    ToldIsSettled(s, run);
    SettlingsAreWell(s, run);
    ToldBeginsWithLog(s);
    ToldBeginsWithLog(Run(s, run));
    var x := Settlings(s, run)[i];
    assert SettlesWell(x.before, x.action);
  }
}

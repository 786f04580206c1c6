# FRANK: console, disk and screen, proved

FRANK runs Linux on one RP2350 and gives it a disk, a keyboard and an HDMI terminal on a second one.
Between the two there are no locks and no atomics: two byte rings and one block descriptor in shared
SRAM, two doorbell wires, and frames that are lost unless the receiver was armed for them. On the far
side a terminal engine draws into a cell buffer, a renderer turns cells into pixels, and on the bench a
Python decoder turns a picture of the screen back into text. This project models that path from the
kernel's `write` to the decoded text, and proves what its comments argue.

## How it is laid out

- `Words` - machine words, sequence vocabulary, arithmetic.
- `Ring`, `RingMachine` - the ring as a class, and as two processes that step at single loads and stores.
- `Fan`, `InputMerge` - the console fan-out to two consumers that come and go, and what goes the other way.
- `Wire` - headers, replies, lengths. `DiskSpec` - what a disk is.
- `Pipeline`, `PipelineInv`, `PipelineLink`, `PipelineStreams`, `PipelineTheorems`, `PipelineReasons`, `PipelineKeys`,
  `PipelineProgress`, `PipelineWitness` - Linux, core 1 and the master as three processes; the invariants; the proof that every step keeps
  them; what follows, for the disk and why a request may fail, the terminal, the keyboard and core 1's service loop; and runs that reach the states
  in which a tempting claim fails.
- `TtyMachine`, `Tty`, `TtyProgress`, `TtyWitness` - ring, fan-out, link and input as one machine, its steps interleaved; what a user of
  the terminal is promised in every run of it; what brings the next byte; and a run that misses one. `Storage`, `KeyQueue` - the RAM disk and
  the key queue.
- `Framebuf`, `Vt`, `VtSafety`, `VtLaws`, `ControlSequences`, `Paper`, `Terminal` - the cell buffer in place, the terminal
  as a function of the bytes it is sent, what that function guarantees, where it departs from the standards, and the
  engine with its loops. `VtCommands`, `VtSettings`, `VtText`, `Vt52` - from its bytes, what every command, setting,
  character and escape does to the cells, the cursor and the settings, and what it leaves alone.
- `Font`, `Renderer`, `RenderLaws`, `Decoder`, `Nearness`, `Screenshot`, `Bench` - font sheet, scanlines and what
  attributes do to a pixel, decoder and what it makes of noise, the round trip, and the whole path end to end.
- `Psram` - sizing the PSRAM by where it aliases.

A wait may end because its event has happened or, at any moment, because its time is up; nothing else
is assumed about time. `Faults` records which kinds of wait have ever run out. A run is *calm* while
no wait of core 1 has, and while no payload has been taken for a header.

## What turned out not to hold

- **The lockstep of the doorbells is a matter of timing.** With no assumption on time, the master's doorbell
  can be high when core 1 raises its own, once a wait of the master for a cleared doorbell has run out
  (`DoorbellCanBeHigh`); and a header can be sent to nobody, once its wait for a header has
  (`HeaderCanMeetNobody`). `DoorbellLowBeforeRaise` and `HeaderMeetsArmedReceiver` show that those are the
  only ways. Pairing of replies with requests needs neither (`ReplyBelongsToItsRequest`).
- **A payload can be taken for a header.** A receiver counts words and knows no frame boundaries. After a wait of the
  master for a cleared doorbell has run out, the master can be armed for a header when core 1 sends a payload, and then
  takes the payload's first words for one: of a chunk of any length (`ChunkCanBeMistaken`), and of a write
  (`WriteCanBeMistaken`). Linux can then be told that a write succeeded that was never made (`WriteCanGoAstray`, a run
  from power-up in which no wait of core 1 runs out). It takes both such a wait and something sent: `CalmUnless`.
  And of the two, what is sent decides: the runs in which no wait of core 1 runs out are all calm, whatever the
  master's waits do, if and only if no console byte and no write is ever sent (`AlwaysCalm`).
- **The terminal can miss the start of the stream.** A fill for the USB console while the link is not up leaves the
  link's reader where the fill began: what left the ring before is missed, the bytes of that fill are not
  (`MissedIs`). Nothing is missed if and only if no such fill finds that bytes have left the ring before
  (`NothingMissed`); one byte written, moved by one fill and followed by another, empty one, is missed
  (`FirstByteCanBeMissed`, from power-up).
- **Inserting no cells at column 0 blanks the row**: the end column is a byte and wraps to 255
  (`InsertNothing`, both directions). No command of the terminal asks for it.
- **A scroll region may be set with its top below the screen** (`InvertedExactly`, both directions). Moves limited to
  the region then never happen (`InvertedFreezes`), so ten cursor commands do nothing (`LimitedCommandsFreeze`). CUP
  still moves the cursor, printing still advances it, whatever wraps - CR, LF, an overflowing line - sends it to the
  last row and scrolls nothing, and a DECSTBM that mends the region homes it (`OthersStillMove`). It stays on the screen throughout (`FeedSafe`).
- **The master adds `lba + count` in 32 bits** and accepts a transfer that wraps; what it accepts is on the
  medium exactly when the sum does not (`AcceptedIsInRange`).
- **SU and SD by `n` scroll by `n * (n - 1) / 2`** (`LoopIsOneScroll`), and heed the scroll region only in origin mode.
  They scroll the region by `n` if and only if it is heeded or is the whole screen, and `n` is 3 or both numbers are as
  much as the region (`ScrollCommand`, both directions, with the case of an inverted region).
- **IL and DL cut their count to an `int8_t` and heed the bottom margin only in origin mode.** They do what they should if
  and only if the cursor is in the region, the region ends with the screen or origin mode is on, and the count and the
  rows from the cursor to the margin are together no more than 256; or, where they should do nothing, if origin mode
  is on and the cursor below the region (`LineCommand`, both directions).
- **CHT and CBT stop at the first tab stop, and do nothing outside the scroll region.** That is right if and only if the
  cursor is at the edge already, or is in the region and one stop is asked for or the first is the edge (`TabCommand`
  and `BackTabCommand`, both directions).
- **ED 0 and ED 1 clear a rectangle**, which is right on every screen if and only if the cursor is in the first or last
  column or row that makes it so (`EraseCommand`, both directions).
- **In VT52 mode `ESC d` and `ESC l` take the cursor's column for its row.** The one leaves the cursor where it was if and
  only if its row and column are the same number, the other puts it at the start of its line if and only if that is the
  first (`ErasingMovesCursor`, both directions).
- **In VT52 mode `ESC b` and `ESC c` never end**: no bytes bring the terminal out of reading a colour (`ParameterEnds`,
  both directions).

## Model

| member | source | states |
|---|---|---|
| RingIndex.WordWrapIsMasked | firmware/common/frank_ring.h:147-150 | masking after 32-bit wrap-around of the index difference is masking the difference |
| RingIndex.UsedCases | firmware/common/frank_ring.h:147-157 | for indices in range, `used` is the distance from tail to head round the ring |
| RingIndex.StoreExtends | firmware/common/frank_ring.h:167-169 | a store at the head, if there is room, extends the window of unread bytes by that byte and disturbs none of it |
| RingIndex.WindowDrop | firmware/common/frank_ring.h:188-193 | moving the tail on splits the window into what was read and what is left |
| Ring.FrankRing.constructor | firmware/common/frank_ring.h:88-92 | a fresh ring is empty |
| Ring.FrankRing.Put | firmware/common/frank_ring.h:160-175 | appends the longest prefix that fits in 2047 bytes, says how long it is, and leaves the tail alone |
| Ring.FrankRing.Get | firmware/common/frank_ring.h:178-195 | takes from the front as much as is asked for and there, and leaves the head alone |
| RingMachine.StepKeepsInv | firmware/common/frank_ring.h:18-40 | one load, store or publication by either core, between any two of the other's, keeps the ring's invariant |
| RingMachine.RingIsFifo | firmware/common/frank_ring.h:147-195 | in every interleaving, what was read is a prefix of what was written, the ring holds the difference, and never over 2047 bytes |
| RingMachine.StepRefinesFifo | firmware/common/frank_ring.h:160-195 | every step is to an abstract queue nothing, one put of a prefix, or one get from the front; no published, unread slot changes |
| RingMachine.PutAccepts | firmware/common/core1_usb.c:190-199 | a put of no more than an earlier answer about the space is accepted whole |
| RingMachine.RoomStaysGood | firmware/common/core1_usb.c:191-197 | an answer about the space stays true while only the consumer moves |
| RingMachine.SoloPut | firmware/common/frank_ring.h:160-175 | a put that nobody interrupts, step by step, does what the class's `Put` promises |
| RingMachine.SpaceIsExact | firmware/common/frank_ring.h:152-157 | an answer about the space is 2047 less what the ring holds at that moment, neither more nor less |
| RingMachine.GetTakes | firmware/common/frank_ring.h:178-195 | a get takes as much as it is asked for, or all there was when it looked |
| FanSpec.AfterKeepsInv | firmware/common/core1_usb.c:91-149 | no fill or take lets a reader fall more than 4095 bytes behind or go back |
| FanSpec.TakeIsOutput | firmware/common/core1_usb.c:91-101 | what a take returns is exactly what is added to that reader's output; a fill adds nothing |
| FanSpec.OutputIsSubsequence | firmware/common/core1_usb.c:60-149 | under any pattern of presence, a reader's output is the ring's stream with bytes left out, in order, none twice, and no byte it has yet to read is overwritten |
| FanSpec.PresentMissesNothing | firmware/common/core1_usb.c:65-77 | a reader that is there whenever a fill moves anything is given every byte appended in that time; fills that find nobody, like those of a boot, do no harm |
| FanSpec.PresentOutputIsPrefix | firmware/common/core1_usb.c:60-77 | from power-up, a reader that no fill leaves out has been given a prefix of the stream |
| FanSpec.NobodyThereHolds | firmware/common/core1_usb.c:71-77 | while neither reader is there nothing leaves the ring and nothing moves |
| FanSpec.FillIsLargest | firmware/common/core1_usb.c:118-149 | with any reader there, a fill moves the front of the ring, and that is 64 bytes, or the whole ring, or until some reader who is there is exactly 4095 behind; never more than 64; no reader there moves and none is given anything |
| FanSpec.TakeIsLargest | firmware/common/core1_usb.c:91-101 | a take hands over as much as is asked for or all there is, from that reader's place on, and leaves the other reader alone |
| FanOut.StoreAllExtends | firmware/common/core1_usb.c:145-148 | bytes stored from the head on, where there is room, follow what is unread |
| FanOut.ConsoleFan.constructor | firmware/common/core1_usb.c:83-84 | at power-up the buffer is empty for both readers |
| FanOut.ConsoleFan.Take | firmware/common/core1_usb.c:91-101 | the array, the head and two tails: a take hands over the next unread bytes of that reader |
| FanOut.ConsoleFan.SnapAbsent | firmware/common/core1_usb.c:129-137 | absent readers are moved up to the head, and what is held is what the slower present one has yet to read |
| FanOut.ConsoleFan.Append | firmware/common/core1_usb.c:146-148 | the bytes become unread for both readers, and nothing unread is overwritten |
| FanOut.ConsoleFan.Fill | firmware/common/core1_usb.c:118-149 | a fill is the specified one, and no byte is lost between the ring and the buffer |
| InputMerge.HostLosesNothing | firmware/common/core1_usb.c:189-199 | whatever Linux takes in between, all that was read from the host goes in |
| InputMerge.HostReadIsLargest | firmware/common/core1_usb.c:189-199 | from the host is read, in order, as much as there is, cut only at 64 bytes or where Linux's ring is full |
| InputMerge.KeysWaitOnlyForRoom | firmware/common/core1_usb.c:113-116 | a keystroke is dropped only when the ring is full |
| InputMerge.InputIsAShuffle | firmware/common/core1_usb.c:113-199 | in every run Linux's input is a shuffle of every host byte read, in order, and of the keystrokes offered, in order, none twice |
| Wire.WordRoundTrip | firmware/common/link_blk.h:81-91 | a word laid out as four bytes is read back |
| Wire.HeaderRoundTrip | firmware/common/link_blk.h:81-86 | a request header survives the wire |
| Wire.ReplyRoundTrip | firmware/common/link_blk.h:88-91 | a reply header, negative status and all, survives the wire, and the data after it too |
| Wire.FramingAgrees | firmware/common/core1_blk.c:120-148 | the length core 1 arms is the length the master sends, for every operation and status, if and only if it is not a failed read; that reply is shorter |
| Wire.FramesAreWholeWords | firmware/common/core1_blk.c:106-121 | every frame of either side is a whole number of words, and padding adds less than one |
| Wire.AcceptedIsInRange | firmware/master-ioserver/src/main.c:108-121 | a transfer that `do_request` accepts is on the medium if and only if its end does not wrap |
| Wire.WrappedIsAccepted | firmware/master-ioserver/src/main.c:118-120 | and the wrap is accepted, on a medium of any size |
| DiskSpec.NextKeepsLog | firmware/common/frank_ring.h:94-110 | every step of an abstract disk keeps: the results given so far are ones a store could give, in that order |
| DiskSpec.ReplayIsLatest | firmware/master-ioserver/src/storage.c:65-85 | after any list of results each sector holds what the latest successful write that covers it put there |
| DiskSpec.ReadsSeeLatestWrites | firmware/master-ioserver/src/storage.c:65-85 | in every behaviour of the disk a successful read returns, sector by sector, the latest successful write before it |
| PipelineInv.InitInv | firmware/common/core1_blk.c:231-243 | power-up satisfies the invariants |
| PipelineLink.StepKeepsLink | firmware/common/core1_blk.c:167-217 | every step of any of the three processes keeps the invariants on wires, receivers, lengths, mailbox, phases, results and doorbells |
| PipelineStreams.StepKeepsStreams | firmware/common/core1_blk.c:296-314 | and those on the console stream and the keystrokes |
| PipelineTheorems.RunKeepsInv | firmware/master-ioserver/src/main.c:308-421 | all invariants, over every run |
| PipelineTheorems.StepRefinesDisk | firmware/common/core1_blk.c:321-369 | every step that leaves the run calm is a step of the abstract disk, or invisible to it |
| PipelineTheorems.TraceIsBehaviour | firmware/common/core1_blk.c:321-369 | a calm run, as Linux sees it, is a behaviour of the abstract disk |
| PipelineTheorems.LinuxSeesADisk | firmware/common/core1_blk.c:321-369 | from power-up, in every calm run, each request is executed once, in order, on one store, with its own status and data |
| PipelineTheorems.LinuxReadsWhatItWrote | firmware/master-ioserver/src/main.c:374-391 | in every calm run every successful read Linux was given holds the latest bytes written to each sector |
| PipelineReasons.StepExplains | firmware/master-ioserver/src/main.c:374-391 | the step that settles a request gives -22 if and only if its count is 0 or over 8; else -5 if and only if it goes past the medium, the card refuses it at that step, or the wait for a write's data runs out at that step; else 0, with the sectors read as they were, or replaced by the data and no other byte of the store changed |
| PipelineReasons.EveryResultIsExplained | firmware/master-ioserver/src/main.c:108-121 | in every calm run each result Linux has been told was made by one such step of that run, and nothing else makes a request fail |
| PipelineTheorems.LinuxLearnsTheCapacity | firmware/common/core1_blk.c:255-271 | once the probe has been answered, the capacity Linux is shown is the medium's, in sectors |
| PipelineTheorems.MailboxOnce | firmware/common/frank_ring.h:102-109 | in all runs, calm or not: status changes only while a request is outstanding, `done` catches up once per request, also across the wrap, and Linux is told each status once |
| PipelineTheorems.DescriptorIsTheRequest | firmware/common/core1_blk.c:348-362 | in all runs core 1 acts on the values Linux stored before it published the request |
| PipelineTheorems.DoneMeansDone | firmware/common/frank_ring.h:102-105 | in all runs, for words that wrap, `done == seq` if and only if nothing is outstanding |
| PipelineTheorems.LinuxSeesATerminal | firmware/common/core1_blk.c:296-314 | in calm runs the terminal is fed whole chunks, in order, each at most once, no pad byte; what left the key queue or waits there is what found room in it of what was typed; Linux is fed typed keys in order, none twice |
| PipelineTheorems.TerminalMissesNothing | firmware/master-ioserver/src/main.c:356-372 | if besides no wait of the master for a payload runs out, the terminal is fed the whole stream up to the chunk on its way, and between transactions all of it |
| PipelineTheorems.ReplyBelongsToItsRequest | firmware/master-ioserver/src/main.c:334-403 | whenever the master is serving, it serves what core 1 waits for, and core 1 is armed for that answer and has had none |
| PipelineTheorems.FailedReadIsNotDelivered | firmware/common/core1_blk.c:193-216 | the answer to a served request arrives whole if and only if it was sent and is not a failed read's |
| PipelineTheorems.BufferOnlyFromWholeReply | firmware/common/core1_blk.c:193-199 | in all runs the kernel's buffer is written only from a complete reply, of the armed length, that reports success |
| PipelineTheorems.SuccessOnlyFromWholeReply | firmware/common/core1_blk.c:172-216 | in all runs, for writes too, a transaction comes out as a success only if its reply arrived whole and said so, and that outcome stays until the next |
| PipelineProgress.EveryMoveCounts | firmware/common/core1_blk.c:167-217 | every move of core 1 brings it nearer its service loop and nobody else takes it further away |
| PipelineProgress.NeverStuck | firmware/common/core1_blk.c:167-217 | outside its loop core 1 always has a move of its own, if only to give up waiting |
| PipelineProgress.EveryRoundEnds | firmware/common/core1_blk.c:321-369 | in all runs core 1 makes at most 24 moves for each time round: every transaction ends, answered or not |
| PipelineTheorems.HeaderMeetsArmedReceiver | firmware/master-ioserver/src/main.c:330-339 | unless a wait for a header has run out, a header goes to an armed receiver |
| PipelineTheorems.DoorbellLowBeforeRaise | firmware/common/core1_blk.c:172-211 | unless a wait for a cleared doorbell has run out, the master's doorbell is low when core 1 raises its own |
| PipelineTheorems.MistakeNeedsAWait | firmware/common/link_bus.c:225-295 | in a calm run the next step takes a payload for a header only if a doorbell wait of the master has run out and console bytes or a write have been sent |
| PipelineTheorems.CalmUnless | firmware/common/core1_blk.c:187-211 | a run in which no wait of core 1 runs out is calm if no doorbell wait of the master does, or if neither console bytes nor a write were sent |
| PipelineKeys.KeyLostOnlyFor | firmware/common/core1_blk.c:193-204 | a key typed in a calm run is lost for four reasons only: the queue was full, the reply that carried it was not sent, that reply reported a failure, or the ring to Linux had no room |
| PipelineKeys.AnswerTakesKeys | firmware/master-ioserver/src/main.c:392-397 | answering a console request, the master takes from the front of the queue all the keys that wait or 32, whichever is less, just as `KeyQueue.Keys.TakeKeys` does |
| PipelineKeys.TransactionFeedsKeys | firmware/common/core1_blk.c:200-204 | from any answer to a console request, in any run from power-up: if the transaction is calm and there is room, Linux has been fed exactly those keys more when core 1 is back at its loop |
| PipelineKeys.EveryKeyArrives | firmware/common/core1_blk.c:193-204 | in calm runs with no wait of the master for a payload run out, and room in the ring for the keys of every reply taken, between transactions every key that left the queue has gone on to Linux, in order |
| PipelineWitness.HeaderCanMeetNobody | firmware/master-ioserver/src/main.c:330-339 | from power-up, with a header wait run out and nothing else wrong, a run reaches a header about to go to a receiver that is off |
| PipelineWitness.DoorbellCanBeHigh | firmware/master-ioserver/src/main.c:406-413 | from power-up, with a doorbell wait of the master run out and nothing else wrong, a run reaches core 1 about to raise its doorbell with the master's high |
| PipelineWitness.WriteCanGoAstray | firmware/master-ioserver/src/main.c:330-380 | from power-up, with no wait of core 1 run out, a run reaches a write reported successful whose sector was not written |
| PipelineWitness.ChunkCanBeMistaken | firmware/common/link_bus.c:225-295 | every chunk with a byte in it can be taken for a header, in a run from power-up with no wait of core 1 and no header wait run out |
| PipelineWitness.WriteCanBeMistaken | firmware/common/link_bus.c:225-295 | so can a write, in a run that sends no console byte |
| PipelineWitness.AlwaysCalm | firmware/common/core1_blk.c:187-211 | for any set of console chunks and with or without writes: all runs that send no others and in which no wait of core 1 runs out are calm, if and only if no non-empty chunk is in the set and there are no writes |
| Storage.RamDisk.Fill | firmware/master-ioserver/src/storage.c:36-46 | every word of every sector names its sector and offset |
| Storage.RamDisk.Read | firmware/master-ioserver/src/storage.c:65-74 | exactly the sectors asked for, if they are on the disk, else -5 and nothing; if the end wraps round 32 bits, what lies in front of the array and then its first sectors |
| Storage.RamDisk.Write | firmware/master-ioserver/src/storage.c:76-85 | exactly those sectors overwritten, if they are on the disk, else -5 and nothing changed; if the end wraps, the memory in front of the array and its first sectors |
| Storage.ReadAfterWrite | firmware/master-ioserver/src/storage.c:65-85 | what was written is read back, and sectors not overlapping are unchanged |
| KeyQueue.Keys.Send | firmware/master-ioserver/term/term_compat.c:110-121 | appended if fewer than 255 keys wait, otherwise dropped and nothing moves |
| KeyQueue.Keys.TakeKeys | firmware/master-ioserver/term/term_compat.c:133-142 | the oldest keys, as many as fit, and the rest stay in order |
| TtyMachine.StepKeepsInv | firmware/common/core1_usb.c:103-199 | every step of the ring, the fan-out, the link or the input keeps each of them well and all joined: what left the ring is what the fan-out logged, what its reader was given is what went on the link, and the keys fed are those in Linux's input |
| TtyMachine.LinkRunIsRun | firmware/common/core1_usb.c:370-374 | every run of the whole is, to the link, a run of its own |
| Tty.MissedIs | firmware/common/core1_usb.c:118-149 | what the terminal will have missed is, until the link is up, what had left the ring when the last fill for the USB console alone began, and stays from then on |
| Tty.NothingMissed | firmware/common/core1_usb.c:65-77 | nothing is missed if and only if no fill for the USB console alone ends with bytes before it that had left the ring |
| TtyWitness.FirstByteCanBeMissed | firmware/common/core1_usb.c:118-149 | from power-up, any byte: moved by one fill for the USB console it is still to come for the link, and after one more it is missed |
| Tty.TerminalShowsWhatLinuxWrote | firmware/common/core1_usb.c:60-110 | in every calm run of the whole machine with no wait for a payload run out, the terminal has been fed a prefix of what Linux wrote from what was missed on; nothing is missed if and only if no fill for the USB console alone leaves bytes behind; and between transactions it is behind by no more than ring and fan-out hold |
| TtyProgress.NextByteComes | firmware/common/core1_blk.c:296-314 | with the link up, from any state core 1 is in between two things to do, and unless a USB console that is there is 4095 bytes behind and the link has had all else, one fill and one pump put on the link the next bytes Linux wrote, 512 or all that is in the fan-out |
| Tty.TerminalShowsNothingElse | firmware/common/core1_usb.c:60-110 | in any calm run of it, whole chunks, in order, none twice, and the chunks in a row are Linux's stream from what was missed on |
| Tty.LinuxReadsWhatWasTyped | firmware/common/core1_usb.c:113-199 | in any calm run of it, Linux's input is a shuffle of every byte read from the USB host, in order, and of typed keys, in order, none twice |
| Tty.EveryKeyReachesLinux | firmware/common/core1_blk.c:200-204 | if no wait for a payload runs out and the ring has room for the keys of every reply taken, between transactions Linux's keys and the queue are together, in order, every key that found room in the queue |
| Tty.DiskMeanwhile | firmware/common/core1_blk.c:321-369 | in the same runs Linux sees a disk |
| Grid.BlockScrollIsScroll | firmware/master-ioserver/term/cellbuf.c:72-89 | the block move and the row-by-row scroll of the whole screen are the same, for every count |
| Grid.ScrollsAdd | firmware/master-ioserver/term/framebuf.c:100-118 | two scrolls the same way are one by the saturated sum |
| Grid.ScrollKeeps | firmware/master-ioserver/term/framebuf.c:98-118 | rows outside the region stay, rows that fit move by the count, vacated rows are blank |
| Grid.DeleteAfterInsert | firmware/master-ioserver/term/framebuf.c:120-138 | deleting what was just inserted leaves the row less its last cells, padded with blanks |
| Grid.InsertNothing | firmware/master-ioserver/term/framebuf.c:120-128 | inserting nothing changes nothing if and only if it is not at column 0, or the row is blank already |
| Framebuf.CellBuffer.SetCell | firmware/master-ioserver/term/framebuf.c:40-77 | one cell of the buffer changes, if it is on the screen |
| Framebuf.CellBuffer.FillRegion | firmware/master-ioserver/term/framebuf.c:79-90 | the nested loops fill exactly the rectangle, as far as it is on the screen |
| Framebuf.CellBuffer.ScrollRegion | firmware/master-ioserver/term/framebuf.c:100-118 | row by row in place, in either direction, for every `int8_t`, gives the specified scroll |
| Framebuf.CellBuffer.InsertCells | firmware/master-ioserver/term/framebuf.c:121-128 | cell by cell from the right gives the specified insertion |
| Framebuf.CellBuffer.DeleteCells | firmware/master-ioserver/term/framebuf.c:131-138 | cell by cell from the left gives the specified deletion |
| Framebuf.CellBuffer.ScrollBlock | firmware/master-ioserver/term/cellbuf.c:72-89 | the block move and fill give the specified block scroll |
| Framebuf.CellBuffer.FlipScreen | firmware/master-ioserver/term/framebuf.c:145-152 | the inverse bit of every cell is flipped, and nothing else |
| ControlSequences.LetterEnds | firmware/master-ioserver/term/terminal.c:716-883 | wherever a broken sequence has left the parser, one byte from `@` to `~` other than `[` brings it back to plain text |
| Vt.NextTab | firmware/master-ioserver/term/terminal.c:305-311 | the first tab stop from a column on, or the last column |
| Vt.PrevTab | firmware/master-ioserver/term/terminal.c:531-541 | the last tab stop up to a column, or the first column |
| VtSafety.MoveWrapSafe | firmware/master-ioserver/term/terminal.c:96-117 | from any region, inverted or not, a wrapping move ends on the screen |
| VtSafety.InvertedFreezes | firmware/master-ioserver/term/terminal.c:146-152 | with the region inverted a move limited to it never happens |
| VtSafety.InvertedExactly | firmware/master-ioserver/term/terminal.c:650-664 | after DECSTBM the region is inverted if and only if it has two parameters with 25 below the first and the first below the second, or it was inverted before and DECSTBM leaves it as it is |
| VtSafety.FeedSafe | firmware/master-ioserver/term/terminal.c:1316-1333 | any byte, in VT102 or VT52 mode, leaves the cursor on the 25x80 screen and the parser in step |
| VtSafety.FeedAll | firmware/master-ioserver/term/terminal.c:1337-1340 | any bytes do |
| VtSafety.RestoreReturns | firmware/master-ioserver/term/terminal.c:665-687 | restoring after saving, whatever came in between, brings back pen, sets, origin mode and pending wrap; and the cursor if and only if it is there already or both places are in the region |
| VtSafety.TextStaysInItsRegion | firmware/master-ioserver/term/terminal.c:265-339 | text without escapes, written from inside the scroll region, stays inside and touches no row outside |
| VtLaws.LoopIsOneScroll | firmware/master-ioserver/term/terminal.c:566-575 | the loop of SU and SD is one scroll by `n * (n - 1) / 2`, for every count a byte can hold |
| VtLaws.ScrollCommand | firmware/master-ioserver/term/terminal.c:566-575 | SU and SD scroll the scroll region by `n` on every screen if and only if the region is heeded (origin mode) or the whole screen and `n` is 3 or both `n` and `n * (n - 1) / 2` are as much as it; inverted regions included |
| VtLaws.LineCommand | firmware/master-ioserver/term/terminal.c:542-550 | IL and DL move the lines asked for, from the cursor to the bottom margin, and none from outside the region, if and only if margin, origin mode and count are as stated |
| VtLaws.TabCommand | firmware/master-ioserver/term/terminal.c:520-530 | for every cursor, CHT reaches the `n`th stop if and only if the cursor is in the last column, or in the region with `n` 1 or the first stop the last column |
| VtLaws.BackTabCommand | firmware/master-ioserver/term/terminal.c:531-541 | and CBT the `n`th stop back, with the first column |
| VtLaws.LimitedCommandsFreeze | firmware/master-ioserver/term/terminal.c:146-152 | with the region inverted ten cursor commands do nothing, and a restored cursor stays put |
| VtLaws.OthersStillMove | firmware/master-ioserver/term/terminal.c:96-143 | with the region inverted CUP still moves the cursor, printing advances it, any wrapping move sends it to the last row and scrolls nothing, and a DECSTBM that mends the region homes it |
| VtLaws.EraseCommand | firmware/master-ioserver/term/terminal.c:439-461 | ED 0 clears what follows the cursor on every screen if and only if the cursor is in the first column or the last row; ED 1 what precedes it, if and only if in the last column or the first row |
| VtLaws.ColourForEver | firmware/master-ioserver/term/terminal.c:1043-1053 | after VT52 `ESC b` or `ESC c` any bytes at all change nothing but the colours |
| VtLaws.ParameterEnds | firmware/master-ioserver/term/terminal.c:1027-1057 | a VT52 escape with a parameter can be ended by some bytes if and only if it is `ESC Y` |
| ControlSequences.ParseDecimal | firmware/master-ioserver/term/terminal.c:795-799 | the decimal digits of any byte, fed one by one, leave that byte as the parameter |
| ControlSequences.RoundTrip | firmware/master-ioserver/term/terminal.c:740-825 | any control sequence of 1 to 16 parameters, zeros written or left out, asks for its command once, at its last byte, with those parameters |
| ControlSequences.InnerControlsAreTransparent | firmware/master-ioserver/term/terminal.c:722-738 | BS, LF and CR anywhere in any byte stream are carried out in order, and all other requests are those made without them |
| ControlSequences.SequenceRunsOnce | firmware/master-ioserver/term/terminal.c:740-825 | sent to the terminal, a control sequence carries out its command once and does nothing else |
| ControlSequences.RegionSequence | firmware/master-ioserver/term/terminal.c:650-664 | the byte sequences after which the region is inverted, exactly, from any region |
| VtCommands.CursorSequence | firmware/master-ioserver/term/terminal.c:482-513 | each of the thirteen final bytes (A B C a D j E e F k d G and the grave accent) takes the cursor, from inside the region, by its count or to its place, or as near as region and columns allow, and changes nothing else; from outside it does nothing |
| VtCommands.PositionSequence | firmware/master-ioserver/term/terminal.c:514-519 | H and f go to a row and column counted from 1, within the screen or in origin mode the region (with that inverted, only the column is said), and change nothing else |
| VtCommands.EraseSequence | firmware/master-ioserver/term/terminal.c:439-481 | J and K blank exactly the cells stated, in the pen's colours, and move nothing |
| VtCommands.InsertSequence | firmware/master-ioserver/term/terminal.c:551-558 | @ moves the rest of the row right by its count, blanks come in at the cursor, no other cell changes |
| VtCommands.DeleteSequence | firmware/master-ioserver/term/terminal.c:559-565 | P moves it left, blanks come in at the edge, no other cell changes |
| VtCommands.InsertLinesSequence | firmware/master-ioserver/term/terminal.c:542-550 | L moves the rows from the cursor to the margin it heeds down by its count, cell by cell, as long as count and rows are no more than 256 |
| VtCommands.DeleteLinesSequence | firmware/master-ioserver/term/terminal.c:542-550 | M moves them up |
| VtCommands.ScrollUpSequence | firmware/master-ioserver/term/terminal.c:566-575 | S moves its rows up by half of `n * (n - 1)`, cell by cell |
| VtCommands.ScrollDownSequence | firmware/master-ioserver/term/terminal.c:566-575 | T moves them down by as much |
| VtSettings.RenditionSequence | firmware/master-ioserver/term/terminal.c:584-649 | m changes the pen alone, its codes one after another, each code the one colour or attribute bit stated, 256-colour forms included |
| VtSettings.ModeSequence | firmware/master-ioserver/term/terminal.c:345-437 | h and l switch exactly the mode stated; mode 5 exchanges every cell's colours if it changes, mode 6 homes the cursor, mode 3 clears, mode 2 off is VT52 mode with all else as new |
| VtSettings.TabSequence | firmware/master-ioserver/term/terminal.c:576-583 | g clears the stop at the cursor or all of the screen's, and nothing else |
| VtSettings.CursorSavedSequence | firmware/master-ioserver/term/terminal.c:665-676 | s saves place, pending wrap, origin mode, pen and character sets, and changes nothing else |
| VtSettings.CursorRestoredSequence | firmware/master-ioserver/term/terminal.c:677-687 | u brings all of that back, the place only from inside the region and no further than in it |
| VtSettings.RegionGivenSequence | firmware/master-ioserver/term/terminal.c:650-664 | r gives the region stated, or keeps it, and sends the cursor to its start |
| VtText.TextByte | firmware/master-ioserver/term/terminal.c:265-339 | in either mode, what each byte of text does: which cell it prints in and with which glyph, colours and attributes, which cells move in insert mode, where the cursor goes, how far the region scrolls, which stop a tab goes to |
| VtText.EscapeBytes | firmware/master-ioserver/term/terminal.c:754-790 | ESC 7 8 D E H I J K M c: saving, restoring, lines up and down, a tab stop, erasing, and a reset to the settings of power-up; any other letter does nothing |
| VtText.LongEscapeBytes | firmware/master-ioserver/term/terminal.c:826-879 | ESC ( and ESC ) choose a character set, ESC # 8 fills the rows it may with E, and none does more |
| VtText.TabForwardSequence | firmware/master-ioserver/term/terminal.c:520-530 | I goes to the next stop whatever its count |
| VtText.TabBackSequence | firmware/master-ioserver/term/terminal.c:531-541 | Z to the one before |
| VtText.PrintedAsRendered | firmware/master-ioserver/term/terminal.c:164-197 | after SGR the next character is in the colours and with the attributes that its codes make of the pen |
| VtText.ColouredLetter | firmware/master-ioserver/term/terminal.c:584-649 | codes 30 to 37 colour the next character, 40 to 47 what is behind it, and neither the other |
| Vt52.EscapeBytes52 | firmware/master-ioserver/term/terminal.c:900-1026 | every escape of two bytes of VT52 mode: where the cursor goes, which cells are blank, which rows move, what is switched, and nothing besides |
| Vt52.PositionBytes52 | firmware/master-ioserver/term/terminal.c:1029-1038 | ESC Y goes to a row and column given from 32 on, from inside the region and no further than in it |
| Vt52.ColourBytes52 | firmware/master-ioserver/term/terminal.c:1039-1053 | ESC b and ESC c set the colour of the characters and of what is behind them |
| Vt52.ErasingMovesCursor | firmware/master-ioserver/term/terminal.c:979-999 | ESC d leaves the cursor in place if and only if row and column are equal; ESC l puts it at the start of its line if and only if that is the first |
| Paper.TypeShows | firmware/master-ioserver/term/terminal.c:164-197 | one printable byte, CR or LF keeps screen, cursor and pending wrap a window on the page |
| Paper.ScreenIsAWindow | firmware/master-ioserver/term/terminal.c:96-197 | from `terminal_init`, for any text, the screen is the last 25 rows of an unbounded page, cursor and pending wrap included |
| Paper.ClearAndHome | firmware/master-ioserver/src/main.c:299-301 | clearing the screen and going home starts a fresh page, wherever the cursor was |
| Terminal.ScrollOneMore | firmware/master-ioserver/term/terminal.c:106-108 | the loops that scroll line by line add up to one scroll |
| Terminal.Engine.constructor | firmware/master-ioserver/term/terminal.c:1551-1555 | power-on statics, then `framebuf_init` and `terminal_init`, give the specified first state |
| Terminal.Engine.MoveCursorWrap | firmware/master-ioserver/term/terminal.c:96-117 | its four loops end, for any row and column, and come to the specified move |
| Terminal.Engine.MoveCursorWithin | firmware/master-ioserver/term/terminal.c:120-143 | the cursor is clamped, and the pending wrap dropped if it moved |
| Terminal.Engine.MoveCursorLimited | firmware/master-ioserver/term/terminal.c:146-152 | only from inside the region, and not out of it |
| Terminal.Engine.PrintCharVt | firmware/master-ioserver/term/terminal.c:164-197 | wrap, insert, translate, draw, advance, as specified |
| Terminal.Engine.ProcessTextByte | firmware/master-ioserver/term/terminal.c:265-339 | every text byte does what the specification says |
| Terminal.Engine.TerminalReset | firmware/master-ioserver/term/terminal.c:212-238 | the statics it resets, and those it leaves |
| Terminal.Engine.ClearWholeScreen | firmware/master-ioserver/term/terminal.c:241-248 | blank screen, home, whole-screen region, no origin mode |
| Terminal.Engine.ScrollByLoop | firmware/master-ioserver/term/terminal.c:566-575 | the loop of SU and SD, count by count |
| Terminal.Engine.TabForward | firmware/master-ioserver/term/terminal.c:520-530 | for any count the nested loops stop at the first tab stop |
| Terminal.Engine.TabBack | firmware/master-ioserver/term/terminal.c:531-541 | for any count the nested loops stop at the first tab stop to the left |
| Terminal.Engine.SelectGraphics | firmware/master-ioserver/term/terminal.c:584-649 | the loop over SGR parameters gives the specified pen, colour forms included |
| Terminal.Engine.SetScrollRegion | firmware/master-ioserver/term/terminal.c:650-664 | the region and the cursor as specified, inverted regions included |
| Terminal.Engine.ProcessCommand | firmware/master-ioserver/term/terminal.c:342-713 | every command does what the specification says |
| Terminal.Engine.ReceiveVt102 | firmware/master-ioserver/term/terminal.c:716-883 | parser and effects of one byte in VT102 mode |
| Terminal.Engine.ReceiveVt52 | firmware/master-ioserver/term/terminal.c:886-1057 | parser and effects of one byte in VT52 mode |
| Terminal.Engine.ReceiveChar | firmware/master-ioserver/term/terminal.c:1316-1333 | the engine in place does what the specification says, for any byte, and stays valid |
| Terminal.Engine.ReceiveAll | firmware/master-ioserver/src/main.c:363-364 | and so for a whole chunk |
| Font.SlotOnce | firmware/master-ioserver/term/font.c:26-39 | no slot of the scanline font is written twice |
| Font.SlotSomewhere | firmware/master-ioserver/term/font.c:26-39 | every slot is written |
| Font.FontInit | firmware/master-ioserver/term/font.c:22-41 | row `r` of glyph `c` ends up at `r * 256 + c`, for any sheet |
| Font.Unpack | tools/fontgen.py:91-109 | nothing if and only if the sheet is not 256 glyphs of that geometry; else every row of every glyph from its place |
| Font.UnpackersAgree | tools/fontgen.py:91-109 | the two unpackings of any sheet are the same font |
| Renderer.IndexBits | firmware/master-ioserver/term/textmode_render.c:90-100 | each pair of glyph bits picks its two colours |
| Renderer.RenderLine | firmware/master-ioserver/term/textmode_render.c:43-103 | for any cells, font, palette, cursor and phase, every one of the 640 pixels of any line is the one its cell calls for |
| RenderLaws.PixelOfCell | firmware/master-ioserver/term/textmode_render.c:43-103 | which of its cell's two colours a pixel has, from ink, underline, blink, inverse and cursor |
| RenderLaws.InverseExchanges | firmware/master-ioserver/term/textmode_render.c:43-103 | a cell in inverse video looks like one with its colours exchanged, under the cursor too |
| RenderLaws.BlinkHides | firmware/master-ioserver/term/textmode_render.c:43-103 | a blinking cell looks blank while the phase is off |
| RenderLaws.BorderIsBlack | firmware/master-ioserver/term/textmode_render.c:43-103 | above and below the text the picture is black |
| Decoder.SureOnlyIfExact | tools/screen.py:119-132 | full confidence if and only if the bitmap is a glyph of the font, and the code is then the least with that glyph |
| Decoder.Nearest | tools/screen.py:124-132 | otherwise the least of the codes with the most pixels in common |
| Nearness.ScoreCounts | tools/screen.py:124-132 | the score is the number of pixels, as a set's cardinality, in which the bitmaps agree |
| Nearness.MatchIsNearest | tools/screen.py:119-132 | the glyph picked differs in the fewest pixels of all, the least code of several, and the confidence is the share of pixels that are right |
| Nearness.NoisyGlyphIsRead | tools/screen.py:124-132 | a glyph with `d` pixels flipped, every other further off, is read as that glyph with confidence `(8 * height - d) / (8 * height)` |
| Decoder.ScreenDecoder.Build | tools/screen.py:85-104 | no decoder for a cell that is not a whole multiple of the font's; else a table of every glyph with its least code |
| Decoder.ScreenDecoder.CellBits | tools/screen.py:106-117 | each bit is set if and only if its pixel is over the threshold |
| Decoder.ScreenDecoder.Match | tools/screen.py:119-132 | table first, nearest glyph otherwise |
| Decoder.ScreenDecoder.Decode | tools/screen.py:134-166 | the text line by line, trailing blanks cut, and the mean confidence of the cells with ink |
| Screenshot.ThresholdSplits | tools/screen.py:136-141 | on a plain screen the threshold separates letters from everything else |
| Screenshot.KeyIsGlyph | tools/screen.py:106-117 | the bitmap cut out for a cell is the glyph that was rendered |
| Screenshot.RenderThenDecode | tools/screen.py:134-166 | for any font and any plain screen, every inked cell is read back as the least code with its glyph, all others as blanks, with confidence 1 |
| Screenshot.TextComesBack | tools/screen.py:150-162 | text in characters no lower code looks like comes back exactly, up to trailing blanks |
| Bench.TypedTextIsReadBack | tools/screen.py:134-166 | text typed on a terminal that shows a page, rendered and decoded, is the last rows of that page |
| Bench.LinuxTextIsReadBack | firmware/master-ioserver/src/main.c:356-372 | from ring to decoder, in every calm run of the console machine with no wait for a payload run out and no fill for the USB console alone that leaves bytes behind: what Linux wrote is what the picture of the screen is read as |
| Psram.ProbeFindsTheSize | firmware/afboot-rp2350/src/main.c:138-161 | on a chip of `2^k` bytes the doubling loop comes to its size, clamped to 1 KiB and 16 MiB |
| Psram.Memory.ProbeAt | firmware/afboot-rp2350/src/main.c:148-158 | one rung says whether that size comes round to word 0, and puts back what it overwrote |
| Psram.Memory.Probe | firmware/afboot-rp2350/src/main.c:138-161 | with any contents, the result of the doubling loop, every word but word 0 unchanged; with no chip, 0 unless the bus happens to float at the marker |

## Left out

- PipelineTheorems.LinuxSeesADisk: holds in calm runs only; replies carry no request number, so once a wait of core 1 has run out nothing ties them to requests. What still holds then is `MailboxOnce`, `DescriptorIsTheRequest`, `DoneMeansDone`, `BufferOnlyFromWholeReply`, `SuccessOnlyFromWholeReply` and `EveryRoundEnds`.
- PipelineTheorems.LinuxReadsWhatItWrote: in calm runs, for the same reason.
- PipelineTheorems.LinuxSeesATerminal: in calm runs, for the same reason.
- PipelineKeys.KeyLostOnlyFor: up to the first step that is not calm; once a wait of core 1 has run out, a late reply is not tied to the keys it carried.
- Storage.RamDisk.Read: at most 8 sectors, as `do_request` lets through; likewise `Storage.RamDisk.Write`.
- Framebuf.CellBuffer.SetCell: the three setters of character, colours and attribute are one, as the terminal always calls all three.
- Terminal.Engine.ReceiveChar: one byte stands for whatever is read through the null parameter list of `ESC J` and `ESC K`, or past the end of the parameters in a colour form; `localecho` is off, as configured, so keystrokes sent back do not come round.
- Paper.ScreenIsAWindow: printable bytes, CR and LF; other controls have no meaning on paper.
- Screenshot.RenderThenDecode: the captured brightness is any function of the pixel; noise is not modelled.
- Decoder.ScreenDecoder.Decode: asks that no cell starts outside the frame, which only a cell of no width or height could do.
- Core 1 and the master are processes with a program counter rather than classes with methods, because what is proved of them is about their interleaving; the loops inside single steps (ring, fan-out, storage, terminal) are methods.
- PIO, DMA and clock setup: only their contract. A receiver armed for a frame's length before it starts receives it; a frame of another length is lost, or its words are taken one by one until the receiver's count is reached, whichever each step chooses. A receiver of the master that is armed while a frame passes may catch the rest of it, as much as each step chooses; a reply passing while core 1 arms, which takes a wait of core 1 that has run out, counts as lost. Real time, poll periods, debouncing and enumeration.
- Faults on the wire: a frame may be lost, never altered, and a transmitter that gives up has sent nothing. Resets of either chip after power-up.
- The Linux driver's own time-out, after which it would submit again before `done == seq`; the model's Linux waits.
- A wrapping READ or WRITE (`lba + count` over 32 bits) is not submitted by the model's Linux.
- The card is a store that does all of a transfer or none of it; a write that fails half way is not modelled.
- `blk_report` (`firmware/common/core1_blk.c:72-87`) writes the `tx` ring from core 1 and so breaks the one-producer rule the ring's header states; the ring theorems are for that rule.
- TtyProgress.NextByteComes: not while a USB console that is enumerated is not read and 4095 bytes behind; it then holds up the link.
- PETSCII mode, the key encoder, answers to status requests, local echo, the visual bell, row attributes (double width and height are stored and never drawn), soft scrolling, the case for parameter 1049, which a byte cannot hold.
- The standard's meaning of a restored pending wrap, where the code does something else; of that only safety is proved.
- Guessing a font's geometry (`score` in `tools/fontgen.py`), fonts and palettes as data, capture, command line and file formats.

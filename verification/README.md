# wayvnc: a verified model of its state machines

wayvnc captures a Wayland output or desktop, hands the changed parts of each frame to VNC viewers, feeds their
input back, and is driven over a control socket. This project models the parts of it that keep state across many
steps, and proves what every run of them keeps.

| area | files | main results |
|---|---|---|
| Capture pipeline | `Regions`, `Pacing`, `Capture`, `CaptureInvariants`, `CaptureView`, `CaptureLife`, `CaptureDamage`, `CapturePool`, `CaptureSession`, `CaptureStart`, `CaptureWitness`, `BufferPool`, `CaptureProgram`, `Screencopy`, `ScreencopyProgram` | `EndToEnd`: over every run, a viewer that copies only reported damage shows the source picture of the last frame fed, exactly unless one described thing happened. `DamageIsExact`: no more and no less damage is passed on than was reported. `CaptureGoesOn`: exactly when a started capture has ended. `StartGuardIsExact`: when the assertion is out of reach. `DeliversExactly`, `RunsFromStart`: the wlr state machine |
| Control socket | `Framing`, `Control`, `ControlInvariants`, `ControlTraffic`, `ControlProgress`, `ControlErrors`, `ControlInstance`, `ControlProgram` | `ClientSees`: the composed channel never tears, reorders, loses or invents a reply. `MessagesAreExact`: which replies and events a client is sent, in which order, told from what arrived. `EverythingArrives`, `ChunkingIndependence`, `OverflowsExactly`, `ErrorIsReportedExactly` |
| Keyboard | `IntSet`, `KeyTable`, `Keyboard`, `KeyboardProgram` | `EveryRun`: keys alternate and go out under synchronised modifiers. `SymbolIsSent`: which key a symbol is sent as, and under which modifiers. `KeymapIsSearched`, `LevelsAreCorrectExactly`: lookup against the keymap and a linear scan |
| Text and arguments | `Reflow`, `OptionParser`, `CommandLine`, `OptionParserProgram` | `FewestLines`, `CorrectIsUnique`, `Idempotent`. `CommandLine`, `SubcommandLine`: the values a command line stands for, told from the options and the words. `SpellingIndependence` |
| Geometry | `Transform`, `TransformProgram`, `Reals`, `Desktop` | `ComposeRegions`, `RegionIsExact`, `TransformKeepsArea`: four encodings of one group agree. `NoOutputShrinks`, `SomeOutputMatches`, `DisplaysFitExactly` |

Most areas come in two layers. State is first a value, handlers are functions on it, and the invariants and theorems
over runs are about those functions. The `...Program` modules then hold the imperative form, and its handlers are
proved to do to the objects what the functions do to the value. In the capture pipeline the buffers are objects: the
pool's list, the capture object and the display hold references to them, a buffer can be released only by whoever
acquired it and only once, and no reference outlives its buffer.

## Assumptions

- The compositor keeps what ext-image-copy-capture-v1 promises (`Capture.Legal`): a capture updates at least the
  requested and the announced damage, the announced damage covers every change since the last ready event, and the
  first frame of a session is announced in full. A failed capture leaves its buffer as it was. A buffer whose frame is
  destroyed in flight may hold anything afterwards.
- One captured source with one display, whose size does not change during a run. Each handler reads the clock once.
- The JSON library is a function from bytes to a complete value with its length, "incomplete" or "malformed", which
  more input does not make it take back (`Framing.Lawful`). That holds for texts that delimit themselves, objects and
  arrays in sections 4 and 5 of RFC 8259. Messages decode to what was encoded. `LinksExist` gives a link that meets all
  of this.
- xkbcommon is a set of functions that give the state after a key, the level a state selects, and the modifiers of a
  level; each update may have a result of its own. qsort leaves some sorted permutation; bsearch finds some entry that
  compares equal, if there is one.
- Doubles are reals. Conversions to integers truncate or round as in C, without a bound on the result.

## Where the code does less than one would expect

Each of these keeps the code's behaviour, with the exact condition under which it does what is expected.

- `start` on an ext session with the capture timer armed leaves the timer running. Unless it takes the path that
  re-arms the timer, two later events reach the failing assertion in `schedule_capture` (`StartGuardIsExact`). This
  happens from the initial state (`AssertionIsReachable`). Such a timer can also request a capture earlier than the rate
  allows, and no other timer can (`CapturesArePaced`, `SafeStartsArePaced`, met in `StaleTimerIsEarly`).
- Stopping a capture while a frame waits for the rate limiter does not last: the limiter sends the frame and starts
  the next capture. A stop lasts until the next start exactly if no frame waits (`StopHoldsExactly`). This happens from
  the initial state (`StopCanBeUndone`).
- Blanking the screen while a frame waits for the rate limiter lets that frame be drawn onto the blank screen. The
  viewer shows something else than it should exactly from such a feed, if the frame does not cover the blank picture,
  to the next feed or blanking (`EndToEnd` with `Tarnished`). This happens from the initial state
  (`TarnishIsReachable`).
- A wlr frame object that cannot be created leaves the capture in progress with nothing to wait for, exactly until the
  next stop (`RunsFromStart` with `LeftStuck`). This happens at the first start (`StuckIsReachable`), and until the stop
  nothing changes it (`StuckStays`).
- After an internal error at most one more message is taken. If one was partly written it is none; otherwise it is the
  report of this error, or of the last error that came before the message was taken (`ErrorIsReportedExactly`).
- Some way of cutting the input reports an overflow exactly when a request is longer than the buffer
  (`OverflowsExactly`).
- A full set of held keys is grown by a byte count in place of an element count (`WriteStaysInsideExactly`). `Set` and
  the methods of `Device` say when a key finds no room.
- The walks over the key table stop at another symbol and not at another group (`FindInGroupIsExact`,
  `LevelsAreCorrectExactly`). A keymap with one key in two groups is enough (`SeamsOccur`).
- Reflow fails on a word longer than the width and on a first line whose only break is a space at its start
  (`ReflowText`).
- `--name=value` is cut to one buffer together with its name (`LongEqIsExact`), and `-n value` compares with the
  argument count as a `char` (`ShortNextIsExact`). A command line is read as meant exactly when each such value is below
  that count, which it always is with 127 arguments (`CommandLine`, `ShortLinesAreInReach`).
- A display ends beyond the desktop, by one pixel, exactly when its output reaches as far as any, its position and its
  size are both rounded up and its far edge is not (`DisplaysFitExactly`, met in `DisplayCanStickOut`).

## Model

| member | source | states |
|---|---|---|
| `CaptureView.EndToEnd` | src/main.c:1428-1525 | From the start, over every legal run that does not stop at the assertion: the viewer shows the source picture of the last frame fed, or the blank screen, if and only if the run is not tarnished; with nothing pending it shows the last picture captured; every buffer is current outside its damage; each framed buffer has exactly one holder and free ones no frame damage; frame and buffer come together; a pending frame has an armed timer; feeds keep their distance |
| `CaptureView.StepKeepsView` | src/main.c:1428-1525 | Every step keeps what is known about the viewer, through feeds, coalescing, restarts and blanking |
| `CaptureView.IdleBlanksAreClean` | src/main.c:891-926 | A run whose blankings find no frame pending is not tarnished |
| `CaptureDamage.DamageIsExact` | src/ext-image-copy-capture.c:528-592 | From the start, over every legal run that does not stop at the assertion: the frame in flight has exactly the rectangles reported since its request, the waiting frame exactly the damage of the frames delivered since the last one sent, and each buffer owes exactly the damage of the frames delivered since it was captured to, the whole screen included if it never was |
| `CaptureLife.CaptureGoesOn` | src/ext-image-copy-capture.c:561-702 | From the start, over every legal run that does not stop at the assertion: a frame is in flight, the timer is armed, a start waits for constraints or a frame is with the display, if and only if a capture was started and not ended since by a stop, a failure for another reason than constraints or an empty pool with nothing else left to keep it going |
| `CaptureLife.StepLives` | src/ext-image-copy-capture.c:561-712 | The same for one event: what starts, keeps and ends a capture |
| `CaptureLife.StopHoldsExactly` | src/main.c:1465-1477 | After a stop no run without a start captures anything, if and only if no frame was with the display |
| `CaptureLife.CapturesArePaced` | src/ext-image-copy-capture.c:199-257 | In every state that a legal run reaches, and for every event there: a capture is requested at the time of its event and keeps a period from the one before, to within a microsecond, unless it comes with new constraints or from a timer armed before another capture; the timer waits no longer than it has to |
| `CaptureLife.SafeStartsArePaced` | src/ext-image-copy-capture.c:668-702 | In a run that calls start only where it is safe, an armed timer was never armed before another capture |
| `CaptureSession.SessionIsTold` | src/ext-image-copy-capture.c:97-125 | Whether there is a session, whether its constraints are known, whether it has delivered and the frame count are what the events tell; a start waits only while the constraints are not known |
| `CaptureSession.ImmediateFrameIsWhole` | src/ext-image-copy-capture.c:675-680 | The first frame after an immediate start is damaged all over, whatever happens in between |
| `CaptureSession.LimiterIsTight` | src/main.c:1512-1524 | The rate limiter is armed for the first microsecond at which the next feed keeps its distance |
| `CapturePool.PoolIsExact` | src/buffer.c:633-691 | In every state that a legal run reaches: no buffer of an earlier configuration is kept that nobody holds, none of the present one is lost, the configuration changes exactly when a changed format is looked at, and neatvnc refers to exactly what it was sent and has not dropped |
| `CaptureInvariants.StepKeepsInv` | src/ext-image-copy-capture.c:199-712 | Every legal event that does not stop at the assertion keeps freshness, ownership, pairing, the waiting frame and the pacing |
| `CaptureInvariants.RunKeepsInv` | src/ext-image-copy-capture.c:199-712 | The same over every run |
| `CaptureInvariants.CaptureIsComplete` | src/ext-image-copy-capture.c:528-559 | A buffer that becomes ready equals the source in every pixel, although the compositor wrote only the damage |
| `CaptureInvariants.ReadyIsFresh` | src/buffer.c:693-700 | Spreading the frame damage over all buffers keeps each of them current outside its own damage with respect to the new picture |
| `CaptureInvariants.AcquireKeeps` | src/buffer.c:658-681 | A buffer handed out has no other holder, no frame damage, and is current outside its buffer damage; a new one is damaged in full |
| `CaptureInvariants.ProcessKeeps` | src/main.c:1479-1525 | A new frame takes over the damage of the frame it replaces, so that what the viewer lacks stays covered |
| `CaptureInvariants.SendShowsExactly` | src/main.c:1428-1463 | Sending leaves the viewer with the whole source picture if and only if it lacked nothing outside the frame's damage |
| `CaptureInvariants.ProcessIsPaced` | src/main.c:1512-1524 | A frame sent at once or left to the limiter keeps the distance of all feeds |
| `CaptureInvariants.VncFramesAreStable` | src/buffer.c:658-691 | No event changes the pixels of a frame that neatvnc still refers to |
| `Pacing.TimeLeftIsTight` | src/main.c:1513-1524 | Waiting for the truncated time meets the rate limit to within one microsecond, and not waiting means that it is met already |
| `CaptureStart.GuardedRunCompletes` | src/ext-image-copy-capture.c:199-257 | With the guard on start no run reaches the assertion |
| `CaptureStart.GuardedFromStart` | src/ext-image-copy-capture.c:199-257 | The same from the initial state, so that such runs are covered by the results over legal runs |
| `CaptureStart.ArmedStartFails` | src/ext-image-copy-capture.c:675-680 | With the timer armed and a start waiting for constraints, two named events reach the failing assertion |
| `CaptureStart.StartGuardIsExact` | src/ext-image-copy-capture.c:668-702 | In every state that guarded runs reach, an event leaves every later run that respects the guard clear of the assertion if and only if it respects the guard itself |
| `CaptureWitness.AssertionIsReachable` | src/ext-image-copy-capture.c:199-257 | A run from the initial state that ends at the assertion |
| `CaptureWitness.TarnishIsReachable` | src/main.c:1395-1399 | A run from the initial state after which the viewer shows neither the blank screen nor the source picture |
| `CaptureWitness.StopCanBeUndone` | src/main.c:1428-1477 | A run from the initial state in which a capture goes on after a stop without a start |
| `CaptureWitness.StaleTimerIsEarly` | src/ext-image-copy-capture.c:668-702 | A run from the initial state after which the timer requests a capture too early |
| `BufferPools.BufferPool.Acquire` | src/buffer.c:658-681 | The object handed out had no frame before, has one now and no frame damage, and every other buffer keeps its frame |
| `BufferPools.BufferPool.Release` | src/buffer.c:683-691 | Only an acquired buffer can be released; it loses frame and frame damage, and leaves the list if its pool is gone |
| `BufferPools.BufferPool.DamageAll` | src/buffer.c:693-700 | The pass over the list damages every buffer once and changes nothing else |
| `BufferPools.BufferPool.DropUnreferenced` | src/buffer.c:467-471 | Exactly the unreferenced buffers of dropped pools leave the list |
| `CaptureProgram.Pipeline.CloseSession` | src/ext-image-copy-capture.c:97-125 | The session's buffer object is released once; every other buffer keeps its frame |
| `CaptureProgram.Pipeline.StartCapture` | src/ext-image-copy-capture.c:668-702 | All four paths take the model's step; the buffer in the caller's hand stays apart from those of the pipeline |
| `CaptureProgram.Pipeline.SendFrame` | src/main.c:1428-1463 | Feed, restart and release of the same object, in the order of the source, take the model's step |
| `CaptureProgram.Pipeline.ReplaceNext` | src/main.c:1502-1510 | The waiting object gives its damage to the new one and is released once |
| `CaptureProgram.Pipeline.Handle` | src/ext-image-copy-capture.c:199-712 | On every legal event that does not stop at the assertion the objects take the model's step, no reference dangles or is shared, the invariant is kept, and the mark still tells what the viewer shows |
| `Screencopy.StepKeepsInv` | src/screencopy.c:77-315 | Every legal event keeps the invariant, and leaves the capture stuck if and only if a frame object was refused, now or before with no stop since |
| `Screencopy.RunKeepsInv` | src/screencopy.c:77-315 | Over every legal run the assertion in buffer_done holds and the invariant is kept |
| `Screencopy.RunsFromStart` | src/screencopy.c:117-160 | From the start: every buffer acquired is in front, delivered or released once, and in progress means an armed timer or one frame object out if and only if the capture was not left stuck |
| `Screencopy.DeliversExactly` | src/screencopy.c:117-257 | From the start, over every legal run: each ready event delivers the buffer offered last with exactly the rectangles reported since, and the whole screen exactly when the start that led to it was immediate; status and buffers taken are what the events tell |
| `Screencopy.RequestsArePaced` | src/screencopy.c:259-315 | Over every legal run frame objects are created a period apart, to within a microsecond, and the timer waits no longer than that takes |
| `Screencopy.StuckStays` | src/screencopy.c:294-315 | A stuck capture stays exactly as it is over every legal run without a stop |
| `Screencopy.StuckIsReachable` | src/screencopy.c:259-315 | A run from the initial state that leaves the capture stuck |
| `Screencopy.ImmediateIsWhole` | src/screencopy.c:195-227 | A frame copied on demand is delivered with the whole screen as damage |
| `ScreencopyProgram.WlrScreencopy.OnBufferDone` | src/screencopy.c:117-160 | The object offered comes from the pool with no frame damage, or the capture gives up; the invariant is kept |
| `ScreencopyProgram.WlrScreencopy.OnReady` | src/screencopy.c:195-227 | The object in front is delivered and no longer referred to, also when the callback starts the next capture |
| `ScreencopyProgram.WlrScreencopy.OnFailed` | src/screencopy.c:229-245 | The object in front is released once; the invariant is kept |
| `ScreencopyProgram.WlrScreencopy.OnStop` | src/screencopy.c:77-98 | The object in front is released once; the invariant is kept |
| `ScreencopyProgram.WlrScreencopy.OnStart` | src/screencopy.c:294-315 | Refused, at once or by the timer, whether or not a frame object can be created; the invariant is kept |
| `ScreencopyProgram.WlrScreencopy.OnPoll` | src/screencopy.c:287-292 | The expired timer asks for a frame object, created or not; the invariant is kept |
| `ScreencopyProgram.WlrScreencopy.OnDamage` | src/screencopy.c:247-257 | The rectangle joins the damage of the object in front, with which it is delivered; the invariant is kept |
| `Framing.ParseAppend` | src/ctl-server.c:340-357 | Decoding can be interrupted anywhere: resuming with the rest gives what decoding the whole stream gives |
| `Framing.BufferSufficesExactly` | src/ctl-server.c:314-338 | The buffer never fills up on a stream of complete values if and only if each of them fits with its leading white space |
| `ControlInvariants.StepKeepsInv` | src/ctl-server.c:314-762 | Every step of server, socket and client keeps the invariant of the channel |
| `ControlInvariants.RunKeepsInv` | src/ctl-server.c:314-762 | The same over every interleaving |
| `ControlInvariants.ClientSees` | src/ctl-server.c:536-605 | What the client decodes is a prefix of what the server took; the requests are those of the received bytes; each is answered once, in order, with its own id and with what its command said, or as invalid; no event comes before the answer to event-receive; write interest is on exactly while something is left to send |
| `ControlInvariants.ChunkingIndependence` | src/ctl-server.c:692-750 | Two runs that received the same bytes dispatched the same requests and hold the same rest |
| `ControlInvariants.NoOverflow` | src/ctl-server.c:314-357 | A stream of requests that fit is never reported as an overflow or as malformed, wherever it is cut |
| `ControlInvariants.ClientReads` | src/ctl-client.c:222-299 | The client never finds malformed bytes, and its buffer is too small exactly for a message longer than it |
| `ControlInvariants.NothingIsLost` | src/ctl-server.c:641-690 | When nothing is underway the client has decoded every message taken |
| `ControlTraffic.MessagesAreExact` | src/ctl-server.c:985-1018 | Over every run: the server has the bytes that arrived, and the messages taken and queued, apart from reports of errors, are in order exactly these: for each request the notices that it raises, if the client asked for events before, and then its reply; and every event raised by others after the first request for events |
| `ControlProgress.EverythingArrives` | src/ctl-server.c:641-690 | From every state of an open connection without an error, sends, receives and reads exist after which the client has decoded every message taken and queued, in order, if each fits its buffer |
| `ControlErrors.OverflowsExactly` | src/ctl-server.c:314-338 | Some run over a stream of complete requests enables an overflow if and only if one of them does not fit |
| `ControlErrors.ReportIsTaken` | src/ctl-server.c:631-690 | Over every run, the first message taken after an error is the report of the last error before that, and nothing is taken after it |
| `ControlErrors.OvertakenExactly` | src/ctl-server.c:631-639 | That report is the one asked about if no other error came before the take, and does not depend on it otherwise |
| `ControlErrors.ErrorIsReportedExactly` | src/ctl-server.c:631-690 | Over every run after an internal error: no report is taken if a message was partly written, else exactly the report above; once the bytes have arrived the client has decoded it |
| `ControlErrors.SecondErrorOvertakes` | src/ctl-server.c:631-639 | A failed read after bytes that do not parse takes the place of their report |
| `ControlErrors.ClosesExactly` | src/ctl-server.c:631-690 | Over every run the connection is open if and only if there was no hangup, no failed write and no message completed after an error |
| `ControlInstance.LinksExist` | src/ctl-server.c:340-357 | Whatever the commands do, there are decoders and an encoder that meet the assumptions |
| `ControlProgram.AdvanceReadBuffer` | src/util.c:45-53 | The bytes behind the consumed ones move to the front, in place |
| `ControlProgram.ServerConnection.NextObject` | src/ctl-server.c:340-357 | The first object leaves the buffer, or the buffer stays and says why |
| `ControlProgram.ServerConnection.DispatchObjects` | src/ctl-server.c:709-747 | The loop dispatches what parsing the whole buffer yields, and terminates |
| `ControlProgram.ServerConnection.OnReadable` | src/ctl-server.c:692-762 | Data, overflow, error and end of file take the model's step and keep the invariant |
| `ControlProgram.ServerConnection.OnWritable` | src/ctl-server.c:641-690 | A write of any size and a failed write take the model's step and keep the invariant |
| `ControlProgram.Client.ReadOne` | src/ctl-client.c:250-299 | However recv cuts the stream, the message is the first of the joined bytes and the rest stays buffered; a failed or interrupted poll, a timeout, a failed recv and the end of the stream are told apart, and lose nothing |
| `IntSets.WriteStaysInsideExactly` | src/intset.c:47-72 | Storing a new element stays inside the storage if and only if the array was not full |
| `IntSets.SwapRemove` | src/intset.c:83-90 | Moving the last element into the gap removes exactly one element and keeps the others distinct |
| `IntSets.IntSet.FindIndex` | src/intset.c:74-81 | An index of the element, or -1 exactly when there is none |
| `IntSets.IntSet.Set` | src/intset.c:61-72 | The set gains the element and nothing else, without duplicates; or the write would leave the storage, exactly when a new element comes to a full array |
| `IntSets.IntSet.Clear` | src/intset.c:83-90 | The set loses the element and nothing else |
| `KeyTable.FillTable` | src/keyboard.c:123-147 | The table holds exactly the symbols of the keymap |
| `KeyTable.KeymapIsSearched` | src/keyboard.c:123-147 | Whatever order qsort leaves, a symbol is found if and only if some key of the keymap has it, in the first group in cyclic order where one does |
| `KeyTable.Bsearch` | src/keyboard.c:288-289 | In a sorted table, an entry of the group with the symbol exactly when there is one |
| `KeyTable.FindSymbolInGroup` | src/keyboard.c:279-298 | The entry found by search and walk, for every sorted table |
| `KeyTable.FindInGroupIsExact` | src/keyboard.c:279-298 | It is the entry of a linear scan if and only if that entry is not at a seam of two groups |
| `KeyTable.FirstMatchHasLowestCode` | src/keyboard.c:98-110 | The scan starts at the lowest code of the symbol in the group |
| `KeyTable.MatchLevel` | src/keyboard.c:363-383 | The loop computes the first entry of the run with the current level |
| `KeyTable.LevelMatchFinds` | src/keyboard.c:363-383 | An entry is returned exactly when one of the run has the level |
| `KeyTable.LevelsAreCorrectExactly` | src/keyboard.c:279-383 | For all modifiers at once, lookup and level matching give an entry of the right group and level if and only if there is no seam at either end |
| `KeyTable.SeamsOccur` | src/keyboard.c:279-383 | The sorted table of a keymap with one key in two groups: a search in the second group returns an entry of the first, and under some modifiers no correct level comes out |
| `KeyTable.FindSymbol` | src/keyboard.c:300-326 | The loop over the groups finds what trying them in cyclic order finds |
| `KeyTable.FindsFirstGroup` | src/keyboard.c:300-326 | The group found is the first in cyclic order from the active one that has the symbol |
| `Keyboard.EveryRun` | src/keyboard.c:456-514 | Over every mix of symbols and codes, and whatever each update of the xkb state gives: each key goes out while the compositor has the local modifiers and group, the events of each code alternate beginning with a press, and the held set is the codes whose last event was a press |
| `Keyboard.SymbolIsSent` | src/keyboard.c:471-505 | A symbol is sent exactly when some group has it and its key changes: one key event, of an entry with that symbol in the first group in cyclic order. A modifier is taken as found; another symbol from the first entry whose level is selected, without a change of level, or as found under the modifiers of its level if there is none. Modifiers go out before it only if the compositor lacks them |
| `Keyboard.CodeIsSent` | src/keyboard.c:507-514 | A code is sent exactly when its key changes, after the modifiers if the compositor lacks them |
| `Keyboard.ApplyModsKeeps` | src/keyboard.c:342-361 | Afterwards the compositor has the local modifiers and group, whether or not they were sent |
| `Keyboard.SendKeyWithLevelKeeps` | src/keyboard.c:416-454 | The key goes out under the modifiers of its level, and both sides end with the saved ones |
| `KeyboardProgram.Device.UpdateKeyState` | src/keyboard.c:456-469 | Tells whether the key changed, and whether there was room for it; the array represents the new set |
| `KeyboardProgram.Device.FeedSymbol` | src/keyboard.c:471-505 | The imperative path takes the model's step, or says that there is no room for the key; the invariant is kept |
| `KeyboardProgram.Device.FeedKeyCode` | src/keyboard.c:507-514 | The imperative path takes the model's step, or says that there is no room for the key; the invariant is kept |
| `Reflow.ReflowText` | src/table-printer.c:48-87 | Terminates; succeeds if and only if the text fits the width and the buffer; then only spaces became newlines, no line is too long, and no line was broken before it was full |
| `Reflow.GreedyStaysAhead` | src/table-printer.c:48-87 | At every position the result has used no more newlines than any other reflow that fits |
| `Reflow.FewestLines` | src/table-printer.c:48-87 | No reflow that fits has fewer lines |
| `Reflow.CorrectIsUnique` | src/table-printer.c:48-87 | The promises determine the result |
| `Reflow.Idempotent` | src/table-printer.c:48-87 | Reflowing the result again changes nothing |
| `Reflow.FittingTextFits` | src/table-printer.c:60-63 | A text that has a reflow of the promised kind meets the condition for success |
| `OptionParser.OneSpelling` | src/option-parser.c:329-353 | One iteration of the loop over any spelling uses its arguments up and has the effect of its meaning, or fails exactly when it is a `-n v` out of reach |
| `CommandLines.CommandLine` | src/option-parser.c:324-359 | For lines of any length: the values are those that the meanings stand for, in order, and what remains is exactly what follows the `--`; an error exactly when there are too many values or a `-n v` is out of reach |
| `CommandLines.MeaningsAreStored` | src/option-parser.c:308-322 | Word j is stored for the positional option at place j, or at that of the first repeating one if that comes before; words beyond the list are ignored, a subcommand ends the parse, and too many values are an error |
| `CommandLines.SpellingIndependence` | src/option-parser.c:211-359 | Command lines with the same meaning give the same values in the same order and the same remaining arguments, or both an error, if and only if both or neither have a `-n v` out of reach or the values find no room anyway |
| `CommandLines.SubcommandLine` | src/option-parser.c:308-359 | A subcommand is the last value, stored for its own option, and what remains starts with it; an error exactly when there are too many values or a `-n v` before it is out of reach |
| `OptionParser.LongEqIsExact` | src/option-parser.c:226-262 | `--n=v` stores what `--n v` stores if and only if name, sign and value fit into one buffer |
| `OptionParser.ShortNextIsExact` | src/option-parser.c:264-306 | `-n v` is read if and only if the position of v is below the argument count taken as a char |
| `OptionParser.LongFailsExactly` | src/option-parser.c:226-262 | A long option is an error if and only if its name is that of no option, its value is missing or there is no room |
| `OptionParser.ShortFailsExactly` | src/option-parser.c:264-306 | Short options are an error if and only if the first letter that is no flag is no name, its value is missing or out of reach, or there is no room |
| `OptionParserProgram.ArgumentParser.FindPositionalOption` | src/option-parser.c:182-196 | The counting loop finds the positional option with the number |
| `OptionParserProgram.ArgumentParser.Append` | src/option-parser.c:211-224 | The value is stored behind the others, or the array is full and nothing changes |
| `OptionParserProgram.ArgumentParser.ParseShortArgs` | src/option-parser.c:264-306 | State and count of the parsing function, through the loop over the letters |
| `OptionParserProgram.ArgumentParser.Parse` | src/option-parser.c:324-359 | The loop succeeds exactly when the parse does, with its values and its remaining arguments; values stored before stay, also after an error; without arguments it succeeds and miscounts |
| `Transforms.ComposeMoves` | src/transform-util.c:221-236 | compose(a, b) moves every pixel where b and then a move it, for every size |
| `Transforms.ComposeBoxes` | src/transform-util.c:155-206 | The same for the table of boxes with its sixteen-bit coordinates, for every size |
| `Transforms.ComposeRegions` | src/transform-util.c:138-236 | The same for whole regions, with the sizes swapped after an odd transform |
| `Transforms.InvertComposes` | src/transform-util.c:213-219 | invert is a two-sided inverse under compose, and its own inverse |
| `Transforms.InvertUndoes` | src/transform-util.c:138-219 | Transforming a region and then by the inverse gives the region back, in both orders |
| `Transforms.RegionIsExact` | src/transform-util.c:138-211 | The transformed damage covers exactly the moved pixels, also where it reaches outside the picture; damage inside the picture stays inside the transformed one |
| `Transforms.GridBijection` | src/transform-util.c:138-211 | The transform maps the grid one-to-one onto the grid of the transformed picture |
| `Transforms.AreaCountsPixels` | src/pixels.c:85-100 | The area of boxes that do not overlap is the number of pixels they cover, wherever they lie |
| `Transforms.TransformKeepsArea` | src/transform-util.c:138-211 | Boxes that do not overlap do not overlap afterwards, and have the same area, also outside the picture |
| `Transforms.PointsFollowPixels` | src/transform-util.c:43-135 | A point lies in a pixel exactly when the moved point lies in the moved pixel |
| `Transforms.PointerReachesPixel` | src/main.c:662-665 | A pointer at the pixel where the viewer sees p is taken back to p |
| `TransformProgram.RegionTransform` | src/transform-util.c:138-211 | The loop transforms every box of the region into a new array |
| `TransformProgram.CalculateRegionArea` | src/pixels.c:85-100 | The loop computes the area modulo the width of its counter |
| `TransformProgram.PixmanTransform` | src/transform-util.c:43-135 | The matrix takes every point back to where the transform took it from, for every size |
| `TransformProgram.CanvasPoint.Transform` | src/transform-util.c:238-280 | The point is taken back to where the transform of the unit square took it from |
| `Reals.PartsExceed` | src/main.c:1139-1154 | The rounded parts of a sum exceed the rounded sum if and only if both are rounded up and the sum is not |
| `Desktop.MinScale` | src/desktop.c:48-66 | The result is the smallest scale of the outputs with known sizes, attained by one of them, or 1 without any |
| `Desktop.MinScaleIsPositive` | src/desktop.c:48-66 | The scale is positive if and only if the outputs with known sizes have positive logical sizes |
| `Desktop.LogicalSize` | src/desktop.c:68-97 | Each size is the largest rounded far edge, attained by an output, and at least 0; there is none exactly when the scale is zero |
| `Desktop.BufferStands` | src/output.c:434-465 | The buffer moved by the transform fills exactly a rectangle of the width and height that the scale is computed from |
| `Desktop.NoOutputShrinks` | src/image-source.c:130-154 | Every pixel of the buffer, moved by the transform of the output, has a place on its display, which is at least as large in both axes |
| `Desktop.SomeOutputMatches` | src/desktop.c:48-66 | Some output keeps the exact size of its transformed buffer in one axis |
| `Desktop.DisplaysFit` | src/desktop.c:68-97 | No display ends more than one pixel beyond the desktop |
| `Desktop.DisplaysFitExactly` | src/desktop.c:68-97 | In each axis a display ends beyond the desktop if and only if its output reaches as far as any, position and size are rounded up and the far edge is not, for positions and sizes of any sign |
| `Desktop.DisplayCanStickOut` | src/desktop.c:68-97 | A desktop that meets that condition |
| `Desktop.NeighboursMeet` | src/main.c:1139-1154 | Outputs that meet, side by side or one above the other, have displays that overlap or part by at most one pixel |
| `Desktop.Display.SetDesktopGeometry` | src/main.c:1139-1154 | With the desktop's scale, the display holds every pixel of the transformed buffer of its output and ends within a pixel of where the output ends, in both axes |

## Left out

- Cursor capture, several displays for one desktop capture, and clients coming and going: they repeat the pipeline for other sources.
- Format and modifier negotiation and the allocation of buffers; they appear as choices of the environment (`Env`), so the comparison of modifier lists is not modelled.
- Allocation failures, except where the code turns them into a visible result.
- CaptureProgram.Pipeline.Handle: asks that the event does not run into the assertion, where the program would stop.
- Pacing.TimeLeftIsTight: the result is not limited to 32 bits; beyond that range the conversion in C is undefined.
- ScreencopyProgram.WlrScreencopy.OnReady: what the display does with a delivered buffer is not part of this class; the pipeline shows it for the other capture object.
- The JSON text of the commands and the effect of a command on the rest of the program; a command is a function of its number and text.
- A reconnecting control client keeps leftover bytes; the properties of the channel hold for each connection.
- IntSets.IntSet.Set: where the write would leave the storage, the method says so and changes nothing; what the program does after such a write is not modelled.
- Keyboard.EveryRun: the held set has no bound there; FeedSymbol and FeedKeyCode of KeyboardProgram.Device say when the array has no room for the key, and then send nothing.
- LED state, keymap transfer, and the keyboard's initial modifiers.
- OptionParserProgram.ArgumentParser.Parse: after an error the values only grow; which of them were stored before the error is not stated.
- Looking up values and defaults after the parse, and printing usage: easy scans.
- TransformProgram.PixmanTransform: the fixed-point entries are not limited to 32 bits, which hold sizes up to 32767.
- Transforms.RegionIsExact: for boxes whose distances from the far edges fit into sixteen bits, the type of the coordinates.
- The rearrangement of boxes by pixman, which does not change the pixels they cover.
- Desktop.LogicalSize: gives no size when the scale is zero, where the result in C is undefined.
- VNC encoding, authentication, TLS, Wayland bindings and configuration files.

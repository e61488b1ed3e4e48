# Verified model of the native desktop core

This project models the parts of the repository that carry promises over whole
runs, and proves those promises.

| file | what it models |
|---|---|
| `InputPipeline.dfy` | The input scheduler of one viewer, the viewer's attachment and the native delivery beneath it: three objects that call back into each other in the middle of their work |
| `Contexts.dfy`, `Markers.dfy` | One confirmed-text operation at a time, handed over through a native marker or through a Wayland text resource; the table of marker codes |
| `Control.dfy` | Which of several authenticated viewers controls the application |
| `Capture.dfy` | One native capture at a time between two compositor barriers, and the byte stream of the capture child |
| `PeerStream.dfy` | A viewer's bounded output queue with partial writes, and its request reader |
| `Frames.dfy` | The browser's composition of complete and partial frames across asynchronous decodes |
| `Clipboard.dfy`, `Cursor.dfy` | Pulling the native selection and the cursor image in chunks while revisions change underneath |
| `PipeWire.dfy`, `Pixels.dfy` | Damage-driven comparison of captured pictures, and the row and pixel arithmetic under it |
| `Media.dfy` | The credit-limited picture scheduler of a physical desktop and the authority that binds input to painted frames |
| `Manager.dfy` | The preparation manager: one operation, one worker, callers under a lock, persistence that can fail at every step |
| `ExecLine.dfy`, `Pod.dfy` | Inserting quoted arguments into an Exec line (the section "The Exec key" of the Desktop Entry Specification); building and parsing SPA objects |

Each class of the source is a class here, with the fields its behaviour depends on and one
method for each of its methods; closures that mutate an object are methods of
that object. Randomness, clocks, the kernel, the compositor, toolkits, encoders
and consumers are parameters or fields that any caller may set; every theorem
holds whatever they answer. Ghost fields record histories: what was accepted,
admitted, sent, painted, replied, started and ended. A method that can end in an
exception returns `ok`, and `!ok` is the exception. `Run` in a module drives its
object through an arbitrary sequence of events.

## What the proofs found

* **Replies can be skipped.** `DesktopAttachment` promises one reply to every
  accepted request. The promise fails when a record does not fit the native
  control buffer and the exception of that record is swallowed on its way out:
  a `cancel-barrier` record takes with it the replies of everything in flight or
  queued, a `release` record the reply of the request whose failure is being
  told. `InputPipeline.DesktopAttachment.Apply` proves for every event which
  replies it skips: exactly those of `Doomed`, a function of the state before
  the event (the room in the buffer, an outstanding barrier, and what serving the
  queue comes to), and which events close the viewer instead (`Fatal`). An
  adapter that gives up by itself withdraws its own barrier first; it costs the
  reply when exactly that one record fits, and nothing when none does, because
  the end of native control then answers before the exception. Three runs of
  events reach an unanswered request: `InputPipeline.SkippedReply`,
  `InputPipeline.SkippedBehind` and `InputPipeline.SkippedWithdrawal`. A skipped
  reply means that native control has ended, and from then on nothing is skipped;
  room for a record per queued operation and two more always prevents it
  (`InputPipeline.RoomIsEnough`).
* **A viewer that its own attach closes takes control away from everyone.**
  `authenticate` still runs its takeover for it. `Control.DesktopControl.Authenticate`
  proves when an agreement of server and application survives (`Harmless`);
  `Control.ClosedByItsAttach` is a run that ends in disagreement.
* **A detach that raises leaves stale choices behind.** `Control.DesktopControl.Close`
  proves that an agreement survives if and only if detaching does not raise;
  `Control.StuckDetach` is a run in which both sides go on naming a viewer that is gone.
* **A frame can paint after `invalidate`** when the invalidation comes from that
  frame's own `onResize`: `Frames.FloeDesktopFrames.Settle` gives the epoch each
  paint ends in, which differs from the one it started in exactly when the frame
  resizes the canvas and playing the callback's reactions invalidates.
  `Frames.PaintedAfterInvalidate` is such a run.
* **A closing manager says "cancelled" or "interrupted"** depending on whether its
  worker reached the last section of `install`: `Manager.Manager.Move` against
  `Manager.Manager.Fail`.

## Model

| member | source | states |
|---|---|---|
| InputPipeline.OrderedInput.Enqueue | input_order.py:29-37 | an available operation joins the account of its viewer exactly once; a full queue closes the viewer; anything else changes nothing |
| InputPipeline.OrderedInput.Drain | input_order.py:39-80 | nothing is admitted while a delivery is pending or another drain is at work; otherwise the drain comes to exactly what the simulation `Serving` of the queue says: it empties, stops at a delivery, retires the rest, or runs out of room and skips one reply or none; every request stays accounted for |
| InputPipeline.OrderedInput.Next | input_order.py:44-78 | one turn of the loop removes an operation and leaves what `Turn` says, through every failure raised while it is admitted or committed |
| InputPipeline.OrderedInput.Finish | input_order.py:54-63 | an answer for anything but the delivery in flight changes nothing; a failure leaves the scheduler idle, and skips the reply exactly when the records it needs do not fit the control buffer; a success starts a drain that ends as simulated |
| InputPipeline.OrderedInput.Expired | input_order.py:64-69 | a timeout of a retired delivery changes nothing; a timeout of the one in flight fails it, and skips its reply exactly when the records do not fit |
| InputPipeline.OrderedInput.CancelPending | input_order.py:87-91 | the delivery in flight is withdrawn, with a record exactly when it waits at a barrier, and an exception exactly when that record does not fit |
| InputPipeline.OrderedInput.Invalidate | input_order.py:93-103 | everything of the viewer leaves the scheduler and is named for its reply, even when withdrawing the delivery raises |
| InputPipeline.OrderedInput.Close | input_order.py:105-108 | nothing is left queued or pending |
| InputPipeline.NativeDesktop.Send | desktop_native.py:29-37 | a record is sent exactly when there is room; a record that does not fit ends native control and retires all input without losing a reply |
| InputPipeline.NativeDesktop.Submit | desktop_native.py:579-582 | a command is sent only for the exact current target, and is recorded, with its step, as the controller's on a painted target |
| InputPipeline.NativeDesktop.CancelText | desktop_native.py:615-620 | only an outstanding barrier needs a record, and only that record can raise |
| InputPipeline.NativeDesktop.Lost | desktop_native.py:383-399 | the end of native control leaves nothing queued or pending and loses no reply; a delivery that waits for native control itself fails, and with it its viewer's input, any other is only cancelled |
| InputPipeline.DesktopAttachment.Answer | desktop_attachment.py:75-76 | one reply to an attached viewer; a full viewer is detached; a detached one is told nothing |
| InputPipeline.DesktopAttachment.Detach | desktop_attachment.py:60-72 | nothing of the viewer stays in the scheduler, whatever raises |
| InputPipeline.DesktopAttachment.Admit | desktop_attachment.py:191-215 | a stale target is refused without touching the native side; a valid command to the current painted target is sent once and answered "submitted"; any failure retires the viewer's input, and skips this request's reply exactly when there was no room before anything was sent for it; exactly one of reply and delivery per operation |
| InputPipeline.DesktopAttachment.Commit | input_order.py:70-78 | whether the adapter stays, answers at once, raises or overflows the channel, the request stays accounted for; what telling a raised failure raises leaves the drain, what an answer raises does not |
| InputPipeline.DesktopAttachment.Conclude | desktop_attachment.py:191-223 | the end of an admission: a reply, or a retirement whose own exception is the only thing that skips the reply |
| InputPipeline.DesktopAttachment.InputResult | desktop_attachment.py:217-223 | the last reply tells the result; a failure retires the input for good; it raises exactly when the records of the retirement do not fit |
| InputPipeline.DesktopAttachment.RetireInput | desktop_attachment.py:225-230 | paint authority, awaited frames and all work are gone, and the account is kept |
| InputPipeline.DesktopAttachment.CancelInput | desktop_attachment.py:232-239 | every cancelled request is refused, the one in flight first and then in queue order, unless withdrawing the barrier raises: then exactly those requests are lost |
| InputPipeline.DesktopAttachment.SceneChanged | desktop_attachment.py:241-250 | a scene change leaves the viewer idle with its account kept, tells it so, and raises exactly when retiring input does |
| InputPipeline.DesktopAttachment.Pace | desktop_attachment.py:118-133 | "described" is said of a valid request only, and exactly a new pace or a refresh asks for a picture, at the capacity that goes with it |
| InputPipeline.DesktopAttachment.Pump | desktop_attachment.py:287-303 | no exception leaves it; when a picture is due and the child or its record takes the request, exactly that is asked; an idle viewer stays idle, and replies are skipped exactly when the capture child is gone and the barrier's withdrawal does not fit |
| InputPipeline.DesktopAttachment.Captured | desktop_attachment.py:305-353 | a target counts as shown only when an image of the exact current target was sent; a late, repeated or new picture leaves exactly the state that `Pictured` computes, a missing one nothing queued, painted or awaited; what each of them skips |
| InputPipeline.DesktopAttachment.Acknowledge | desktop_attachment.py:105-117 | a target becomes painted exactly when the oldest awaited frame is named and its target is still current, and the state is then that of `Acknowledged`; the viewer is closed exactly when the clipboard record of a first frame does not fit |
| InputPipeline.DesktopAttachment.EnqueueInput | desktop_attachment.py:174-189 | the controller's valid operation on its painted target is queued, anything else answered; one or the other; exactly when it closes the viewer or skips a reply |
| InputPipeline.DesktopAttachment.OnWindow | desktop_attachment.py:144-163 | a window request that is not queued is told "requested" exactly when its window exists and its record, and those of the retirement before it, fit: that many records leave the buffer, and native control ends exactly when they do not fit; a queued close is answered later; exactly when the viewer is closed or a reply skipped |
| InputPipeline.DesktopAttachment.CloseNow | desktop_attachment.py:191-196 | a queued close whose record fits is told "requested", once its record was sent for that very request; any other fails the viewer |
| InputPipeline.DesktopAttachment.Discard | desktop_attachment.py:134-143 | pending input is gone before the one reply is given; the viewer is closed exactly when the records do not fit |
| InputPipeline.DesktopAttachment.Handle | desktop_attachment.py:78-165 | every method of a request adds exactly that request to the account, gives the reply of `ReplyTo` when it answers at once, skips exactly the replies of `Skips`, and closes a viewer that keeps up exactly when `Closes` holds |
| InputPipeline.DesktopAttachment.Receive | desktop_control.py:207-240 | a request is accepted exactly when its id exceeds all earlier ones; afterwards every accepted request is accounted for, and exactly the replies of `Doomed` are skipped |
| InputPipeline.DesktopAttachment.LoseControl | desktop_helper.py:32-37 | a viewer that loses control has nothing queued or pending; it keeps control exactly when the records of retiring its input do not fit |
| InputPipeline.DesktopAttachment.ObserveScene | desktop_native.py:340-353 | a new scene leaves the viewer idle and balanced; it skips what is owed exactly when a barrier's withdrawal does not fit |
| InputPipeline.DesktopAttachment.AdapterAnswers | input_order.py:54-63 | a late answer changes nothing at all; a failure skips the reply exactly when there is no room, a success exactly the reply the drain behind it skips |
| InputPipeline.DesktopAttachment.AdapterGivesUp | desktop_context.py:205-240 | an adapter that gives up withdraws its own barrier first: the reply is skipped exactly when only that record fits, or when none is needed and none fits |
| InputPipeline.DesktopAttachment.TextProceeds | desktop_context.py:275-303 | the next record of a Wayland delivery is sent exactly for the current target with room for it; otherwise the delivery ends |
| InputPipeline.DesktopAttachment.TimesOut | input_order.py:64-69 | a timeout skips the reply exactly when the release, and the withdrawal if there is a barrier, do not fit |
| InputPipeline.DesktopAttachment.Apply | desktop_attachment.py:78-377 | every event keeps the viewer balanced, skips exactly the replies of `Doomed` and closes a viewer that keeps up exactly when it is `Fatal`; both are said of the state before it; where `Smooth` foresees the new state, it is that one |
| InputPipeline.ExactlyOneReply | desktop_attachment.py:78-239 | replies, work owed and replies skipped add up to one for every accepted id and to none for any other; none is skipped while native control is open |
| InputPipeline.CommandsAuthorized | desktop_attachment.py:167-239 | every command that reached the compositor, the three records of a Wayland delivery included, was the controller's, on the then current target, after a frame of that target was painted; commands keep the order of their requests and steps and none is sent twice |
| InputPipeline.OnlyTheController | desktop_helper.py:22-44 | a viewer that is detached, failed or not the controller has an empty queue and nothing in flight |
| InputPipeline.OneDeliveryAtATime | input_order.py:39-103 | every admission but the one in flight has ended, and whatever is queued was requested later |
| InputPipeline.RepliesMean | desktop_attachment.py:191-223 | "submitted" is said only of a record that was sent, "completed" only of a delivery its adapter completed |
| InputPipeline.WindowsAsked | desktop_attachment.py:144-163 | the window requests that reached the compositor are exactly those that were told "requested", in that order, each once |
| InputPipeline.Run | desktop_attachment.py:78-377 | any sequence of requests, scenes, answers, withdrawals, timeouts, full buffers and takeovers keeps the viewer balanced |
| InputPipeline.ServingFits | input_order.py:39-80 | with a record's room for each operation, serving a queue neither skips a reply nor raises |
| InputPipeline.RoomIsEnough | desktop_attachment.py:78-239 | with two more, no event skips a reply, and none but leaving or an overfull queue closes a viewer that keeps up |
| InputPipeline.SkippedReply | desktop_attachment.py:217-239 | six events after which an attached viewer's text was accepted, is owed nothing and was never answered: its adapter failed it with the buffer full |
| InputPipeline.SkippedBehind | desktop_attachment.py:191-239 | the same for a window request behind a text that succeeds |
| InputPipeline.SkippedWithdrawal | desktop_context.py:205-240 | the same for a text its adapter gives up when only the withdrawal of its barrier fits |
| InputPipeline.LostIsUnanswered | desktop_attachment.py:78-239 | a request that was skipped is owed nothing and never got a reply |
| Markers.MarkerTransactions.Add | input_marker.py:37-49 | the table and the code granted are those of the specification; rotation starts after the last code given |
| Markers.MarkerTransactions.RevokeAll | input_marker.py:51-55 | every text is gone, every tombstone stays |
| Markers.MarkerTransactions.Remove | input_marker.py:57-63 | exactly the slots of the gone owner are freed |
| Markers.MarkerTransactions.Press | input_marker.py:65-83 | the table and the text obtained are those of the specification |
| Markers.AtMostOneText | input_marker.py:37-83 | over every history at most one slot holds a text, unpressed and of the current generation |
| Markers.TakenExactly | input_marker.py:65-83 | a press obtains a text exactly when it was granted to that sender at that code and nothing since ended its chance |
| Markers.NeverTakenTwice | input_marker.py:65-83 | between two presses that obtain a text from one code lies a new grant of it |
| Markers.CodeReuse | input_marker.py:37-83 | a code is granted again only after its owner's press and then release, or that owner's removal |
| Markers.RefusedExactly | input_marker.py:37-49 | a grant is refused exactly when a text is pending or every code of the route is occupied |
| Contexts.NativeContexts.ContextFor | desktop_context.py:68-114 | a context is bound exactly when none is pending and the scene is current |
| Contexts.NativeContexts.Commit | desktop_context.py:127-156 | at most one operation exists; a refusal leaves every history alone, an acceptance starts a fresh one |
| Contexts.NativeContexts.Take | desktop_context.py:158-170 | the text is handed over if and only if the sender owns the marker, on the bound surface, the first time, while its context is the one bound, on the scene that is still current, alive and, for an X11 window, focused; a take that is not admitted fails the operation |
| Contexts.NativeContexts.Released | desktop_context.py:172-174 | only a release after the press frees the marker; when the receipt is in it completes the operation, with success exactly while its context stands on the current scene |
| Contexts.NativeContexts.Done | desktop_context.py:176-187 | the receipt counts exactly once, for the operation that was taken, while its context stands on the current scene; otherwise the operation fails |
| Contexts.NativeContexts.Complete | desktop_context.py:189-196 | the operation ends exactly when the receipt and the release are both in, with success exactly while its context stands on the current scene |
| Contexts.NativeContexts.Failed | desktop_context.py:198-203 | a toolkit can fail only the operation it took |
| Contexts.NativeContexts.Finish | desktop_context.py:205-214 | one end per operation, and after a failure no text survives in any slot |
| Contexts.NativeContexts.Retract | desktop_context.py:205-223 | while a request may be outstanding the end is told exactly when the withdrawal fits or no barrier waits; otherwise native control is gone and the context stays bound |
| Contexts.NativeContexts.Cancel | desktop_context.py:216-223 | only the operation it names is withdrawn; it raises exactly when its barrier's withdrawal does not fit |
| Contexts.NativeContexts.Unregister | desktop_context.py:51-59 | a gone sender owns no slot and no operation, unless the withdrawal raises before its slots are freed |
| Contexts.NativeContexts.NativeChanged | desktop_context.py:234-240 | exactly a Wayland context that is not valid any more is given up |
| Contexts.NativeContexts.Close | desktop_context.py:225-232 | nothing is in progress afterwards, and nothing is bound unless a withdrawal raised |
| Contexts.NativeContexts.Issue | desktop_context.py:275-286 | the next request of the operation gets a number no earlier request had; a dispatch is added to the text's history exactly when it is the text's turn and its record is sent |
| Contexts.NativeContexts.TextReply | desktop_native.py:186-200 | a reply with any number but the outstanding one changes nothing; a good reply of the right kind on the scene still current moves the delivery to its next request, or to success after the last; anything else ends it |
| Contexts.NativeContexts.Arrived | desktop_context.py:288-303 | barrier, text, barrier, success, in that order |
| Contexts.SuccessMeans | desktop_context.py:127-303 | success means: on the marker route one hand-over of the operation's own text, then receipt and release; on the Wayland route barrier, one dispatch of that text and barrier, in order; the scene current at the hand-over, at the dispatch and at the success was the one the context was bound to |
| Contexts.AtMostOnce | desktop_context.py:127-303 | over the whole history an operation's own text is handed over or sent at most once, on the scene its context was bound to, and never after its end |
| Contexts.OneAtATime | desktop_context.py:127-223 | every operation but the one in progress has ended |
| Contexts.Run | desktop_context.py:127-240 | every order of toolkit, compositor and scheduler calls, withdrawals that raise included, keeps every history sound |
| Control.DesktopControl.Takeover | desktop_helper.py:32-37 | the previous viewer's input is retired before control moves; an exception leaves control where it was |
| Control.DesktopControl.Replacement | desktop_control.py:338-342 | the viewer that authenticated last among those that remain |
| Control.DesktopControl.Close | desktop_control.py:324-346 | an agreement on the viewer that authenticated last survives if and only if detaching does not raise; nobody else's input is touched |
| Control.DesktopControl.Authenticate | desktop_control.py:144-164 | a newcomer that stays attached controls and nobody is busy; one that its own attach closes leaves nobody in control; an agreement survives if and only if `Harmless` holds of how attaching went and of whether anybody else was connected |
| Control.OnlyTheController | desktop_helper.py:22-44 | whoever has input queued or in flight is the controller, the current viewer and the last to authenticate, and is alone |
| Control.Run | desktop_control.py:144-346 | any run keeps only the controller busy; it ends in agreement when every event keeps one whatever the state |
| Control.Apply | desktop_control.py:144-346 | an agreement survives an event if and only if `Keeps` holds before it |
| Control.ClosedByItsAttach | desktop_control.py:144-164 | four events after which the server's current viewer controls nothing |
| Control.StuckDetach | desktop_control.py:324-346 | three events after which both sides name a viewer that is gone |
| Capture.NativeFrames.Capture | desktop_capture.py:27-46 | a second call is refused and changes nothing; every other call completes at once or becomes the pending one |
| Capture.NativeFrames.Observed | desktop_capture.py:48-69 | the answer to a query ends the capture or sends its request, with a reset exactly when one is due or the target is another one |
| Capture.NativeFrames.Write | desktop_capture.py:71-88 | exactly what was taken leaves the request; once it is whole the child owes one reply |
| Capture.NativeFrames.Wanted | desktop_capture.py:95-102 | every read asks for at least one byte and at most one chunk |
| Capture.NativeFrames.Read | desktop_capture.py:90-154 | a well-formed child's bytes never close the socket, are consumed in order, and take the capture from stage to stage exactly as the reply says |
| Capture.Exchange | desktop_capture.py:27-154 | a whole exchange, its reply read in pieces of any size, completes with what the reply says: the picture of status 1, unchanged for status 4, a failure otherwise |
| Capture.NativeFrames.Headed | desktop_capture.py:109-133 | every well-formed header has its exact outcome: status 1 awaits that many pixels, status 4 asks for the second barrier, statuses 2 and 3 complete as failed; only status 1 with a sound header has pixels, and none closes the socket |
| Capture.NativeFrames.Finish | desktop_capture.py:156-165 | one completion of the pending call; every failure makes the next request a reset |
| Capture.NativeFrames.Cancel | desktop_capture.py:167-170 | the reply in progress is still awaited, the next request is a reset |
| Capture.NativeFrames.Expired | desktop_capture.py:41-45 | only the call it was set for can run out of time, and then completes once |
| Capture.NativeFrames.Close | desktop_capture.py:172-179 | the pending call completes, once |
| Capture.CompletesOnce | desktop_capture.py:27-179 | each call has exactly one completion, in order, except the pending one |
| Capture.PictureOfTarget | desktop_capture.py:48-69 | the scene was the requested window and generation from before the request until after the last byte; the pixels are the payload of the reply to that very request |
| Capture.NothingLeftOver | desktop_capture.py:90-154 | while no reply is awaited, a well-formed child's replies have been consumed whole |
| PeerStream.Peer.Send | desktop_control.py:248-261 | a message is queued whole or the viewer is closed |
| PeerStream.Peer.SendFrame | desktop_control.py:263-274 | metadata, header and pixels are queued contiguously, for at most one frame at a time |
| PeerStream.Peer.SendCursor | desktop_control.py:276-289 | the same for cursors, with and without pixels |
| PeerStream.Peer.Write | desktop_control.py:291-322 | a turn takes exactly what the kernel takes of each record offered, within the budget, until it blocks or breaks; bytes written followed by bytes queued stay the accepted stream |
| PeerStream.Peer.Bounds | desktop_control.py:242-322 | the byte bound of the queue, and each pending flag holds exactly while its record is queued |
| PeerStream.Peer.ReceivedInOrder | desktop_control.py:242-322 | what has been written reads back as the first accepted units, in order |
| PeerStream.PrefixReadsBack | desktop_control.py:242-274 | any prefix of a framed stream reads back as whole units of it, unaltered and in order |
| PeerStream.ChunksDoNotMatter | desktop_control.py:207-240 | the requests read, and the one that closes the viewer, do not depend on how the bytes were cut into chunks |
| PeerStream.Read | desktop_control.py:207-240 | one turn dispatches exactly the complete requests up to one that closes the viewer, and always asks for at least one byte |
| Frames.FloeDesktopFrames.Receive | desktop_frames.js:18-26 | a packet is not wanted, is refused, or waits, exactly as `Received` says, and the bound of two is kept |
| Frames.FloeDesktopFrames.Invalidate | desktop_frames.js:27-33 | the queue is empty and only a complete frame can follow |
| Frames.FloeDesktopFrames.Begin | desktop_frames.js:36-54 | a decode starts exactly for an acceptable packet; any other is skipped, or reported with everything behind it dropped |
| Frames.FloeDesktopFrames.Check | desktop_frames.js:41-54 | the checks before decoding accept exactly the frames of a known kind, of sound numbers, newer than the canvas and, unless complete, relative to exactly what it shows |
| Frames.FloeDesktopFrames.Finish | desktop_frames.js:55-69 | a decode paints exactly when it is current, valid and of the announced size; it then extends the chain or starts a new one; otherwise it is reported or dropped; everything but the canvas is as `Finished` computes |
| Frames.FloeDesktopFrames.Settle | desktop_frames.js:34-74 | afterwards the canvas is the drawing of the chain, a packet waits only behind a decode, and queue, log and epoch are those that playing the rest of the turn comes to; one paint is added exactly when the decode paints, and it outlives an invalidation exactly when it resizes and that callback's reactions invalidate |
| Frames.CompleteCovers | desktop_frames.js:45-61 | a complete frame determines every pixel, whatever was there before |
| Frames.CompleteStarts | desktop_frames.js:45-62 | painting a complete frame starts a chain of its own |
| Frames.PartialExtends | desktop_frames.js:50-62 | painting a partial frame that names its predecessor extends the chain |
| Frames.PointShown | desktop_frames.js:41-62 | every pixel shows the last frame of the chain that covers it |
| Frames.Run | desktop_frames.js:18-74 | over every run the canvas is the drawing of one chain that starts complete; a frame invalidated during its decode paints only through its own resize callback |
| Frames.FloeDesktopFrames.Callback | desktop_frames.js:21-72 | a callback is logged and leaves the queue, the log, the answers and the epoch that playing its reactions comes to, reports nested in reports included |
| Frames.PaintedAfterInvalidate | desktop_frames.js:55-62 | two events after which a frame of epoch 0 was painted in epoch 1 |
| Clipboard.NativeClipboard.Pump | desktop_clipboard.py:136-139 | an unfinished transfer without an outstanding read asks for exactly its next chunk |
| Clipboard.NativeClipboard.ObserveState | desktop_clipboard.py:82-100 | a newer announcement replaces the transfer; an empty or unreadable selection is published at once |
| Clipboard.NativeClipboard.ObserveData | desktop_clipboard.py:101-132 | a reply raises exactly when it was not asked for, is no chunk or does not continue the transfer, or the next read does not fit; superseded replies are consumed without effect, an honest chunk is never refused, and a finished transfer publishes what it collected |
| Clipboard.NativeClipboard.Collect | desktop_clipboard.py:113-131 | the collected bytes are a prefix of the announced selection |
| Clipboard.Run | desktop_clipboard.py:69-149 | every published text is exactly one announced revision; at most one read is outstanding |
| Cursor.NativeCursor.Pump | desktop_cursor.py:104-107 | an unfinished transfer without an outstanding read asks for exactly its next chunk |
| Cursor.NativeCursor.ObserveState | desktop_cursor.py:42-70 | a newer announcement replaces the transfer; a foreign scene takes the cursor away; an image is pulled before it is shown |
| Cursor.NativeCursor.ObserveData | desktop_cursor.py:71-100 | a reply raises exactly when it was not asked for, is no chunk or does not continue the image, or the next read does not fit; superseded replies are consumed without effect, an honest chunk is never refused, a complete image becomes the cursor |
| Cursor.NativeCursor.Collect | desktop_cursor.py:82-98 | the collected bytes are a prefix of the announced image |
| Cursor.NativeCursor.Invalidate | desktop_cursor.py:109-111 | transfer and cursor go, the read in flight stays in flight |
| Cursor.Run | desktop_cursor.py:39-116 | the pixels shown are exactly one announced revision; at most one read is outstanding |
| PipeWire.PipeWireCapture.CompareRegions | host_desktop_pipewire.py:379-393 | the row comparison decides whether the damaged regions agree with the baseline |
| PipeWire.PipeWireCapture.OnBuffer | host_desktop_pipewire.py:315-440 | a buffer spoilt by its header or its chunk reports nothing, keeps the baseline and forgets the sequence; one that is malformed is refused without a trace; any other leaves exactly the state and report of the step specification |
| PipeWire.ScanMeans | host_desktop_pipewire.py:319-356 | the scan fails exactly when a record that decides before the end is a corrupted header or malformed; otherwise its sequence and discontinuity are those of the last header, its hint that of the last damage record |
| PipeWire.AdmitMeans | host_desktop_pipewire.py:315-366 | a buffer is looked at if and only if it has 1 to 64 records, none of them malformed, cropped, transformed or corrupted, a readable cursor and a sound chunk; it is dropped if and only if it is spoilt |
| PipeWire.ReadableMeans | host_desktop_pipewire.py:371-377 | the announced rows lie inside the memory, within the bounds on stride and length |
| PipeWire.PictureBytes | host_desktop_pipewire.py:371-400 | every byte of a picture comes from its own place in the buffer, red and blue exchanged exactly in the swapped formats |
| PipeWire.DamageSuffices | host_desktop_pipewire.py:379-393 | regions that match, with damage that covers every change, make the whole pictures equal |
| PipeWire.ShortcutSound | host_desktop_pipewire.py:369-393 | whenever the shortcut keeps the baseline, it equals the picture delivered |
| PipeWire.StepRefines | host_desktop_pipewire.py:315-440 | one step with the shortcut decides exactly what copying and comparing every pixel decides |
| PipeWire.RunRefines | host_desktop_pipewire.py:315-440 | the same over every sequence of buffers, gaps and corrupted buffers included |
| PipeWire.ReportedExactlyWhenChanged | host_desktop_pipewire.py:394-440 | with a separate cursor a picture is reported exactly when it differs from the previous baseline |
| PipeWire.EmbeddedReports | host_desktop_pipewire.py:407-440 | with an embedded cursor a picture is also reported when only the cursor moved or changed |
| PipeWire.EmptyReports | host_desktop_pipewire.py:367-440 | a buffer without pixels keeps the baseline, and reports it exactly for an embedded cursor that changed |
| PipeWire.NumberRetained | host_desktop_pipewire.py:438-440 | which sequence number is retained: that of a picture just looked at, or of an empty buffer that follows without a gap |
| Pixels.EqualPixels | host_desktop_pixels.py:53-74 | true exactly when the bytes are equal |
| Pixels.Copy | host_desktop_pixels.py:124-151 | the target holds the packed, and if asked swizzled, picture, by whichever of its three paths |
| Pixels.CopyRows | host_desktop_pixels.py:141-151 | row by row, exactly the packed picture |
| Pixels.SwapInPlace | host_desktop_pixels.py:98-122 | swaps the first and third byte of every pixel |
| Pixels.SwizzleInverse | host_desktop_pixels.py:98-122 | swizzling twice gives the picture back |
| Pixels.PackWhenPacked | host_desktop_pixels.py:124-140 | without padding the whole buffer is the packed picture |
| Media.FrameCredit.Reserve | host_desktop_contract.py:99-103 | a frame number is given exactly while fewer than the capacity are pending |
| Media.FrameCredit.Acknowledge | host_desktop_contract.py:105-108 | pending stays between zero and the capacity |
| Media.DesktopAuthority.Sent | host_desktop_contract.py:71-74 | accepts exactly the frames after the last one |
| Media.DesktopAuthority.Paint | host_desktop_contract.py:76-80 | accepts exactly frames delivered in the current generation, not before the last one painted |
| Media.DesktopAuthority.Input | host_desktop_contract.py:82-86 | input is accepted only with a frame painted in the current generation |
| Media.DesktopMedia.Note | host_desktop_media.py:252-258 | a new picture has the capture thread on its way to schedule it |
| Media.DesktopMedia.Decide | host_desktop_media.py:350-386 | the picture read is submitted exactly when it is new, nothing is in flight and credit is left; otherwise somebody is still on the way to submit the newest |
| Media.DesktopMedia.Encoded | host_desktop_media.py:403-427 | the frame in flight is delivered exactly once, for its own generation, and production is scheduled again |
| Media.DesktopMedia.Acknowledge | host_desktop_media.py:455-457 | credit returned schedules production |
| Media.DesktopMedia.Refined | host_desktop_media.py:524-537 | an exact picture takes a number only when nothing is pending |
| Media.DesktopMedia.Recover | host_desktop_media.py:468-489 | all credit is new, the newest picture is kept and scheduled |
| Media.NoLostWakeup | host_desktop_media.py:252-259 | until close or a reported failure, a picture newer than the last one submitted is scheduled, or an encode is in flight, or credit is exhausted |
| Media.HostDesktop.Transition | host_desktop_helper.py:340-362 | a new generation starts with a fresh capture and no painted frame, or the desktop is suspended |
| Media.HostDesktop.RecoverDecoder | host_desktop_helper.py:371-381 | a new generation keeps the capture and its newest picture and drops every painted frame |
| Media.HostDesktop.Pixels | host_desktop_helper.py:364-369 | a frame of the current generation is always accepted; any other is dropped |
| Media.HostDesktop.EncodedFrame | host_desktop_media.py:403-427 | exactly the next frame number reaches the viewer |
| Media.HostDesktop.RefinedFrame | host_desktop_media.py:524-537 | the exact picture is the next frame number, sent exactly when it is of the newest picture, for this generation, with nothing in flight |
| Media.HostDesktop.FrameAck | host_desktop_helper.py:205-209 | accepted exactly for frames delivered in the current generation; credit and paint stay equal |
| Media.HostDesktop.Input | host_desktop_helper.py:222-248 | accepted exactly when the authority accepts and the desktop is ready, with a delivered and painted frame as evidence |
| Media.FramesIncrease | host_desktop_helper.py:364-369 | frame numbers within a generation strictly increase across video and exact pictures |
| Media.InputFollowsPaint | host_desktop_contract.py:71-86 | every input let through follows a painted frame delivered in its own generation |
| Media.Run | host_desktop_media.py:252-538 | every interleaving of capture thread, main loop and commands keeps all of this |
| Manager.Manager.Start | manager.go:245-302 | exactly one of malformed, repeated, busy, already installed, failed or started; a started operation is exactly the one described, its owner, request, source, size and expected bytes included |
| Manager.Manager.Launch | manager.go:274-301 | the operation described starts, or has already taken its one terminal transition, with what is then on disk |
| Manager.StarterOwns | manager.go:245-348 | after a start the same request finds its operation, anybody else is forbidden, and the starter's first chunk is accepted |
| Manager.Delivered | manager.go:245-733 | an upload whose chunks arrive in order and add up to the announced size is installed, when the worker finds nothing wrong |
| Manager.Manager.Authorize | manager.go:311-319 | whose operation it is comes before which operation it is |
| Manager.Manager.WriteChunk | manager.go:320-348 | the next bytes are appended, a repetition of received bytes is accepted without effect, anything else is refused |
| Manager.Manager.CompleteUpload | manager.go:349-372 | exactly a complete upload is handed to the worker, once |
| Manager.Manager.Cancel | manager.go:373-381 | only the owner's own operation is cancelled; an upload ends at once, a worker when it next looks |
| Manager.Manager.Stop | manager.go:382-395 | ends an upload, marks anything else, and changes nothing when idle |
| Manager.Manager.Close | manager.go:396-411 | from here on a worker left over is cancelled and nothing else is active |
| Manager.Manager.Finish | manager.go:412-428 | the one terminal transition: state recorded or failed, `done` closed once |
| Manager.Manager.Fail | manager.go:429-441 | failed, cancelled or interrupted, exactly by the context and the closing |
| Manager.Manager.Work | manager.go:481-733 | every step of the worker has the exact outcome of `Works`, ends the operation or brings it closer to its end, and only the last one can make it ready |
| Manager.Manager.Move | manager.go:705-733 | a validated tree becomes the installation exactly when nothing was cancelled or closed and the record was written; otherwise the record keeps the previous one |
| Manager.Manager.Apply | manager.go:245-441 | after `Close` nothing starts and nothing is installed; the installed digest moves only to the target, recorded, and only when it was validated or already resolves; an operation keeps its owner, request, source and size for as long as it is in hand |
| Manager.EndedOnce | manager.go:412-428 | every operation but the one in hand took exactly one terminal transition |
| Manager.NotEndedYet | manager.go:412-428 | the operation in hand is active and has taken none |
| Manager.Settle | manager.go:481-733 | a worker left alone ends its operation once: ready and installed exactly when everything goes well and nobody cancelled or closed |
| Manager.Run | manager.go:245-733 | any interleaving keeps `Active` with `done`, uploads with `receiving`, and what is installed with the record on disk |
| ExecLine.TokenEnds | application_package.py:9-34 | the offsets are those of the one-pass specification, and none for an unfinished line |
| ExecLine.Quote | application_package.py:88-95 | the quoting loop yields the one-pass quotation |
| ExecLine.ChainIsOnePass | application_package.py:88-95 | replacing the special characters one after another equals escaping in one pass |
| ExecLine.QuotedRoundTrip | application_package.py:88-95 | undoing the escapes and the doubled percent signs gives back every string |
| ExecLine.EndMeaning | application_package.py:9-34 | each offset is the end of one token |
| ExecLine.InsertAddsExactly | application_package.py:55-62 | inserting at a token's end adds exactly the quoted arguments as tokens there and leaves every other token unchanged |
| ExecLine.EndsShift | application_package.py:55-62 | earlier ends stay, later ends shift by the inserted length |
| ExecLine.InsertArguments | application_package.py:88-101 | the loop inserts all arguments at the chosen end |
| Pod.BuildObject | host_desktop_pipewire.py:64-78 | the bytes are those of the encoding specification |
| Pod.Properties | host_desktop_pipewire.py:84-110 | the loop parses what the recursive specification parses, on every input |
| Pod.EntryReadsBack | host_desktop_pipewire.py:72-78 | a property reads back whole, and padding leaves the next one where it belongs |
| Pod.ObjectRoundTrip | host_desktop_pipewire.py:72-110 | an object reads back as its properties if and only if keys are distinct and every choice is fixed |
| Pod.OversizedObjectRefused | host_desktop_pipewire.py:84-92 | a larger body is refused |
| Pod.FixedChoice | host_desktop_pipewire.py:80-107 | a choice without alternatives yields its first value unless that is empty; any other is refused |

## Left out

- InputPipeline.Run: one viewer at a time. The compositor notifies all viewers in turn; what another viewer's attachment does to this one is an event here (native control ends, the scene changes, control moves), not a nested call.
- InputPipeline.NativeDesktop.Send: counts records, not bytes, against the room of the control buffer.
- InputPipeline.DesktopAttachment.Detach: the `detach` record of the last viewer and the `release` that follows a viewer closed in the middle of `cancel_input` concern a viewer that is gone and are not sent in the model.
- InputPipeline.DesktopAttachment.Pace: refinement, cadence and lossy bookkeeping only time captures.
- InputPipeline.DesktopAttachment.Answer: error codes are one value, "refused".
- InputPipeline.DesktopAttachment.Commit: what an adapter does is its `Behaviour` and the events that follow; the transaction of `Contexts.dfy` is proved apart, and nothing states the two as one machine.
- Control.OnlyTheController: a viewer's input is one member of `busy`; the pipeline of each viewer is proved apart in `InputPipeline.dfy`.
- Contexts.NativeContexts.ContextFor: the search for the one matching client or adapter is outside; its result is a parameter.
- Capture.NativeFrames.Read: the check of an image's magic bytes is a parameter.
- Clipboard.NativeClipboard.ObserveState: publication towards the compositor (`commit`, `cancel`) is a delivery of `InputPipeline.dfy` and is not repeated here.
- Media.DesktopMedia.Encoded: delivers the frame and schedules production in one step; nothing runs in between on that thread.
- Media.HostDesktop.EncodedFrame: frame numbers stay below 2^53, as the protocol assumes.
- PipeWire.PipeWireCapture.OnBuffer: decoding and painting of cursors, the frame pool and the memory mapping are parameters; pixels leave as one byte sequence.
- Pixels.Copy: whether rows are aligned for the native swizzle is a parameter; the swizzle itself is the exchange of two bytes.
- PeerStream.Peer.Send: takes the encoded message; JSON and the authentication message are outside.
- Frames.FloeDesktopFrames.Finish: consumers' callbacks return; what they call back into the composer first is a script.
- ExecLine.InsertArguments: which token end is chosen, and parsing by GLib, are outside.
- Pod.Properties: the memory behind an address is a byte sequence, absent for a null address.
- Manager.Manager.Work: the four parallel downloads are one place with progress reports; archives and validation are success or failure.
- Cursor.NativeCursor.ObserveState: hotspots, logical sizes and the PNG framing of complete pixels are outside.
- `capture_size` and the other validators: arithmetic on one call.
- Which base image a partial capture is relative to when viewers share one capture: decided in the capture child, which is not part of this model.
- D-Bus, GLib, GStreamer, X11, IBus, XIM, portals, process and file-system checks: observed only through parameters.
- Replies to requests that repeat an id: an error with the same id, outside the one-reply account.
- Patching of the browser client, asset serving, catalogs and package probing.

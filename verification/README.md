# allLink: stream buffers, message pump and line editor

A Dafny model of the parts of the AllLink conferencing client whose state is hardest to follow, with
proofs about every run of them. Check the whole project with `dafny verify dfyconfig.toml`.

**Growable stream buffer** (`StreamBuffer`, `BasicStreambuf`). Asio's `basic_streambuf` keeps readable
and writable characters in one vector and five stream positions. `StreamBuffer` has the operations on
values; the class `StreamBuf` works in place on an array, and each of its methods is proved to do
exactly the operation of the same name. The reference is a `Tape`: all characters accepted so far, and
the reader's position. `RunRefines` and `FifoConservation` say that over every run the buffer is a
view of the tape and the reader gets its characters in order, past every exception that leaves the
buffer as it was; `ReserveCorrect` and `OverflowCorrect` say exactly when it throws. The public stream
buffer calls around the virtual functions (sputc, sbumpc, sungetc) are those of section 30.6.3 of
ISO/IEC 14882:2017. Integers are those of a 64-bit target: `std::size_t` has 64 bits, `int` 32.

**Socket stream buffer** (`SocketBuffer`, `BasicSocketStreambuf`). The flush loop of
`basic_socket_streambuf` against a socket that takes any part of what it is given or fails, and the
refill behind the putback zone. A socket is a script of results; the end of the script is the expiry
time. `RunPutsConserve`, `ExactlyOnceIff` and `DeliveredInOrderIff` are the conservation laws over
whole runs.

**Thread-safe queue** (`SafeQueue`, `LockedQueue`, `QueueUse`, `QueueWaits`). The class is the code
under the mutex, including the Flex pops that drop stale items. `LockedQueue` runs any number of
threads through it at the grain of lock, test, copy, each single pop, notify, sleep and wake (section
33.5.3 of ISO/IEC 14882:2017 describes the predicate wait). `Linearizable` holds for every
interleaving; `PlainRunsAreFifo` and `FlexRunsInPushOrder` (with `FlexReadersCatchUp`) say what
callers of one kind see, `AttendedIff` when an item can be left behind while its reader sleeps,
`LooksDecide` when a pop sleeps or gives up, and `NobodyStuck` that no call hangs on the lock.

**Message pump** (`Messages`, `Handlers`, `Pump`, `PumpLists`, `PumpFrames`, `PumpHistory`,
`VisionCentral`). `Handle` says what one message does to the login state, the windows, the
controller's device maps, the queue and the outside. `Pump` runs the UI thread against posters whose
single posts interleave in any way; `VisionCentral` has the two classes `Controller` and
`VisionCentralController`, proved against `Handle`; every run of them is a run of `Pump`, so its laws
hold of their fields (`Boot`). `PumpHistory` reads the whole state off the history of a run: the last
thing that concerned a part of it decides. A wrong `std::any` payload takes the path into the catch
block, keeping what was done before the cast.

**Line editor** (`LineEditor`, `InputBox`). The text box as a string, a cursor and two flags, against
a two-part (left/right) editor, for an arbitrary width function.

Where the code does not do what it, its documentation or its interface suggests, the code is modelled
and the exact condition is proved:

- `commit` moves min(n, writable) characters, as documented, exactly if that count fits an `int`
  (`CommitExactIff`); `consume` also needs `gptr() + n` not to pass the top of the address space, so
  `consume(SIZE_MAX)` un-reads a character (`ConsumeExactIff`, `ConsumeAllUnreads`).
- A `prepare` that throws has already shifted the vector; unread text survives exactly if it repeats
  every gptr places (`FailedReserveKeepsInput`, `FailedReserveLosesInput`).
- A failed flush that got bytes out leaves the put area as it was, so those bytes come again at the
  start of what is sent later; the wire is exact exactly if no flush of a non-empty put area meets a
  socket that takes some of it, but not all, before it fails (`ExactlyOnceIff`, `FailedFlushRepeats`).
- The putback zone is never filled: stepping back over it shows `'\0'`. Bytes are delivered in order
  exactly if that never happens except to take back a zero (`DeliveredInOrderIff`, `UngetRestoresIff`,
  `UngetAfterRefillShowsZero`).
- A Flex pop that leaves the only item in the queue wakes nobody: items stay attended to exactly if
  that never happens while a thread sleeps and none is awake on its way to the lock (`AttendedIff`,
  `FlexPopForgetsSleeper`).
- A text box can be reset while active, as the enter dialog does when it is closed during typing. The
  box is the two-part editor at every point of a run exactly if it is never activated while marked
  untouched with its cursor moved, and never judges a character by a drawn string that fits where the
  text does not, or the reverse (`FollowsIff`, `ResetWhileActiveRefusesText`). Drawn string and text
  agree over a run exactly if the box is never activated while marked untouched but holding text
  (`DrawnTextIff`, `ResetWhileActiveHidesText`).

## Model

| member | source | states |
|---|---|---|
| StreamBuffer.ReserveCorrect | inc/asio/basic_streambuf.hpp:308-346 | reserve fails iff size() + n exceeds max_size(); otherwise readable text is kept through the overlapping shift and the resize, n characters are writable, the vector has not shrunk |
| StreamBuffer.ReserveLayout | inc/asio/basic_streambuf.hpp:315-346 | without room for n the text moves to the start of the vector, wholly readable, and the vector grows exactly as far as needed; with room nothing moves |
| StreamBuffer.FailedReserveKeepsInput | inc/asio/basic_streambuf.hpp:321-340 | exactly when the readable text survives a reserve that throws after its shift |
| StreamBuffer.FailedReserveLosesInput | inc/asio/basic_streambuf.hpp:321-340 | a three-character buffer whose text a throwing prepare changes |
| StreamBuffer.OverflowCorrect | inc/asio/basic_streambuf.hpp:274-306 | a character is refused iff the buffer is full, and then nothing has moved; otherwise exactly it is appended |
| StreamBuffer.OverflowMakesRoom | inc/asio/basic_streambuf.hpp:283-306 | a put without room makes room for 128 characters, or all that max_size() allows, unless shifting gives more |
| StreamBuffer.ReadSizeHelperFits | inc/asio/basic_streambuf.hpp:353-359 | preparing the preferred read size never throws, and it is 0 only for a zero request or a full buffer |
| StreamBuffer.ReadSizeIsLargest | inc/asio/basic_streambuf.hpp:353-359 | it is the largest count that is asked for, within max_size(), and at most 512 or within the vector's capacity |
| StreamBuffer.CommitExactIff | inc/asio/basic_streambuf.hpp:221-238 | commit does what is documented iff the clamped count survives the cast to int |
| StreamBuffer.HugeCommitBreaks | inc/asio/basic_streambuf.hpp:233-238 | committing 2^31 characters moves pptr in front of the vector |
| StreamBuffer.ConsumeExactIff | inc/asio/basic_streambuf.hpp:240-254 | exactly when consume drops the first min(n, size()) characters, including address wrap and the cast to int |
| StreamBuffer.ConsumeAllUnreads | inc/asio/basic_streambuf.hpp:247-254 | consume(SIZE_MAX) gives back a character instead of dropping all |
| StreamBuffer.StepRefines | inc/asio/basic_streambuf.hpp:214-306 | each operation is one move on the tape: append, advance, step back, or nothing; the vector never shrinks |
| StreamBuffer.RunRefines | inc/asio/basic_streambuf.hpp:131-346 | over every run, past exceptions that change nothing, the offsets stay ordered, within max_size, the vector up to pptr is the tail of everything accepted, and the reader got what stands before its position |
| StreamBuffer.HarmedIff | inc/asio/basic_streambuf.hpp:308-346 | an operation that throws leaves the buffer as it was unless it is a prepare whose shift changes the vector |
| StreamBuffer.StepBackShowsLast | inc/asio/basic_streambuf.hpp:344-345 | over every run, the character that sungetc makes readable is the last one handed out |
| StreamBuffer.GetAreaEnds | inc/asio/basic_streambuf.hpp:233-306 | which operations let the get area catch up with what was written, and where it ends after each |
| StreamBuffer.FifoConservation | inc/asio/basic_streambuf.hpp:131-346 | from a new buffer, the characters that sbumpc returned and consume passed over, less those taken back, followed by readable ones are exactly those committed or put, in order; size() stays within max_size() |
| StreamBuffer.ReceiveAppends | inc/asio/basic_streambuf.hpp:63-104 | prepare n, fill in at most n characters, commit them: they are appended and nothing else changes |
| StreamBuffer.SmallBuffersNeverTruncate | inc/asio/basic_streambuf.hpp:233-254 | with max_size below 2^31 both casts are lossless |
| BasicStreambuf.StreamBuf.constructor | inc/asio/basic_streambuf.hpp:131-141 | a new buffer is empty, with min(max_size, 128) writable places in a vector of at least one |
| BasicStreambuf.MemMove | inc/asio/basic_streambuf.hpp:322-326 | the overlapping move copies the old characters |
| BasicStreambuf.StreamBuf.Reserve | inc/asio/basic_streambuf.hpp:308-346 | the in-place shift and growth is the reserve of the value model; no size_t step wraps |
| BasicStreambuf.StreamBuf.Prepare | inc/asio/basic_streambuf.hpp:192-219 | throws iff size() + n exceeds max_size(); otherwise the text is kept and n places are writable |
| BasicStreambuf.StreamBuf.Commit | inc/asio/basic_streambuf.hpp:233-238 | the written characters up to the clamped count become readable behind the old text, if the count survives the cast to int |
| BasicStreambuf.StreamBuf.Consume | inc/asio/basic_streambuf.hpp:247-254 | the first min(n, size()) characters are dropped and the writable ones kept, if nothing wraps |
| BasicStreambuf.StreamBuf.Underflow | inc/asio/basic_streambuf.hpp:263-275 | returns the first readable character, or eof iff there is none, and consumes nothing |
| BasicStreambuf.StreamBuf.Overflow | inc/asio/basic_streambuf.hpp:283-306 | eof changes nothing; a character throws iff the buffer is full and keeps the text, else it is appended in place |
| BasicStreambuf.StreamBuf.Put | inc/asio/basic_streambuf.hpp:283-306 | sputc refuses a character iff the buffer is full, else appends it |
| BasicStreambuf.StreamBuf.Take | inc/asio/basic_streambuf.hpp:263-275 | sbumpc takes the first readable character, catching egptr up when the get area is used up |
| BasicStreambuf.StreamBuf.PutBack | inc/asio/basic_streambuf.hpp:344-345 | sungetc makes the character before gptr readable again, and fails iff the vector starts there |
| BasicStreambuf.StreamBuf.ReadAll | inc/asio/impl/read.hpp:117-149 | the composed read terminates without a throw, appends exactly the concatenation of what the reads delivered, asks for 1 to 65536 each time, and stops only at an error or a full buffer |
| SocketBuffer.FlushTakesAll | inc/asio/basic_socket_streambuf.hpp:490-523 | the send loop succeeds iff every byte was taken |
| SocketBuffer.FlushSucceedsIff | inc/asio/basic_socket_streambuf.hpp:490-523 | which socket behaviours let a flush succeed, without reference to the loop |
| SocketBuffer.FlushFailsBecause | inc/asio/basic_socket_streambuf.hpp:492-522 | which error each failing flush leaves, including none after a send of zero bytes, and how many bytes it got out |
| SocketBuffer.SpillsIff | inc/asio/basic_socket_streambuf.hpp:490-523 | exactly which byte counts and socket behaviours make a failing flush get bytes out |
| SocketBuffer.OverflowError | inc/asio/basic_socket_streambuf.hpp:492-523 | what error() says after an overflow, on the script alone: timed_out, or what the first bad pass left, if it fails; nothing new if there was nothing to send; no error if all was sent |
| SocketBuffer.OverflowCorrect | inc/asio/basic_socket_streambuf.hpp:468-540 | success sends all pending bytes and takes the character in; failure sends a proper prefix and leaves the put area unchanged |
| SocketBuffer.SetbufDropsNothing | inc/asio/basic_socket_streambuf.hpp:547-558 | setbuf is honoured iff it is setbuf(0, 0) without pending bytes; pending and sent bytes never change |
| SocketBuffer.RunPutsConserve | inc/asio/basic_socket_streambuf.hpp:468-558 | over every run, the wire without what failed flushes got out, followed by pending bytes, is what was accepted; and what each failed flush got out is the beginning of what follows it |
| SocketBuffer.ExactlyOnceIff | inc/asio/basic_socket_streambuf.hpp:468-558 | over every run, sent bytes followed by pending ones are the accepted ones iff no flush of a non-empty put area meets a script that takes some of it and then fails |
| SocketBuffer.FailedFlushRepeats | inc/asio/basic_socket_streambuf.hpp:490-523 | a partial failed flush followed by a good one sends a byte twice |
| SocketBuffer.Refill | inc/asio/basic_socket_streambuf.hpp:434-446 | a refill stays inside the 512 bytes behind the putback zone and makes exactly the received bytes readable |
| SocketBuffer.ReceiveCorrect | inc/asio/basic_socket_streambuf.hpp:420-465 | the receive loop either makes the received bytes readable or changes nothing but the error |
| SocketBuffer.ReceiveEnds | inc/asio/basic_socket_streambuf.hpp:420-465 | how the loop ends, on the script alone: all that arrived, up to 504 bytes, or else the error that says why not |
| SocketBuffer.UnderflowReads | inc/asio/basic_socket_streambuf.hpp:414-466 | with something unread nothing is received and the error stays; else what arrived becomes unread as a whole |
| SocketBuffer.InOrderIff | inc/asio/basic_socket_streambuf.hpp:414-466 | over every run of reads, refills and steps back, delivered plus readable is at every point what was received iff no step back goes over the putback zone other than to take back a zero |
| SocketBuffer.DeliveredInOrderIff | inc/asio/basic_socket_streambuf.hpp:414-466 | the same from a new buffer, and the order at the end of such a run |
| SocketBuffer.UngetRestoresIff | inc/asio/basic_socket_streambuf.hpp:441-446 | exactly when stepping back gives the last delivered byte, including before any was delivered |
| SocketBuffer.UngetAfterRefillShowsZero | inc/asio/basic_socket_streambuf.hpp:441-446 | after a refill, stepping back shows a zero byte that was never received |
| BasicSocketStreambuf.SocketStreamBuf.constructor | inc/asio/basic_socket_streambuf.hpp:566-576 | both buffers have 512 bytes, nothing is pending or readable |
| BasicSocketStreambuf.SocketStreamBuf.Send | inc/asio/basic_socket_streambuf.hpp:490-523 | the loop takes exactly the bytes that the recursive flush takes, in order |
| BasicSocketStreambuf.SocketStreamBuf.Overflow | inc/asio/basic_socket_streambuf.hpp:468-540 | success puts all pending bytes on the wire and takes the character; failure leaves them pending, sends at most a prefix, and leaves the error that the script gives as the reason |
| BasicSocketStreambuf.SocketStreamBuf.Sync | inc/asio/basic_socket_streambuf.hpp:542-545 | success puts the pending bytes on the wire; failure puts a proper first part of them there, keeps them pending and leaves the error that the script gives as the reason; sync can be called again |
| BasicSocketStreambuf.SocketStreamBuf.Setbuf | inc/asio/basic_socket_streambuf.hpp:547-558 | no pending byte is dropped or sent |
| BasicSocketStreambuf.SocketStreamBuf.Underflow | inc/asio/basic_socket_streambuf.hpp:414-466 | the loop ends in the state and with the character of the recursive receive, and what arrived becomes unread as a whole, up to 504 bytes |
| BasicSocketStreambuf.SocketStreamBuf.Sbumpc | inc/asio/basic_socket_streambuf.hpp:414-466 | takes the first unread byte, refilling when there is none |
| BasicSocketStreambuf.SocketStreamBuf.Destroy | inc/asio/basic_socket_streambuf.hpp:247-251 | destruction puts the pending bytes on the wire if the flush succeeds, otherwise a proper first part of them |
| SafeQueue.ThreadSafeQueue.Push | core/savequeue.h:13-17 | appends the value |
| SafeQueue.ThreadSafeQueue.TryPop | core/savequeue.h:19-27 | takes the front, or leaves value and queue alone iff the queue is empty |
| SafeQueue.ThreadSafeQueue.TryPopFlex | core/savequeue.h:29-38 | returns the front and leaves what FlexRest describes |
| SafeQueue.ThreadSafeQueue.Wait | core/savequeue.h:40-44 | the predicate wait is false only after a time-out at whose check the queue was empty |
| SafeQueue.ThreadSafeQueue.WaitPop | core/savequeue.h:40-48 | checks before each sleep, and fails iff the queue was empty at the last check under the lock, after a time-out |
| SafeQueue.ThreadSafeQueue.WaitPopFlex | core/savequeue.h:50-59 | the same for the Flex pop |
| SafeQueue.FlexKeepsSuffix | core/savequeue.h:34-36 | a Flex pop keeps the newest min(n - 1, 4) items, and a single item |
| SafeQueue.RunFeedInOrder | core/savequeue.h:13-38 | over every run of Push and Flex pops a fed queue never empties, and positions shown never go back, repeating only the newest |
| SafeQueue.FifthPopShowsNewest | core/savequeue.h:29-38 | on one queue value, every Flex pop from the fifth on returns the newest item |
| LockedQueue.InvKept | core/savequeue.h:13-59 | mutual exclusion, and what a thread in the middle of a pop has done to the queue |
| LockedQueue.NeverPopsEmpty | core/savequeue.h:24-25 | a thread that reads or pops owns the lock alone and finds an item |
| LockedQueue.StepRefines | core/savequeue.h:13-59 | each small step is invisible or one whole call on the atomic queue |
| LockedQueue.Linearizable | core/savequeue.h:13-59 | in every interleaving each call takes effect once between its start and its return, in an order that is a run of the atomic queue; a refusal met an empty queue |
| QueueUse.PlainRunsAreFifo | core/savequeue.h:13-48 | without Flex pops, items popped followed by items queued are the items pushed |
| QueueUse.FlexRunsInPushOrder | core/savequeue.h:13-59 | over every interleaving of Push and Flex pops, a queue something was pushed to never empties again, and items returned follow the push order, repeating only the newest |
| QueueUse.FlexReadersCatchUp | core/savequeue.h:29-59 | over every interleaving of Push and Flex pops, once pushing stops all pops from the fifth on, whoever makes them, return the item pushed last |
| QueueWaits.LooksDecide | core/savequeue.h:19-54 | over every interleaving: a pop that finds the queue empty is refused iff it does not wait or was last woken by its time-out, and sleeps otherwise; finding an item it takes it |
| QueueWaits.TimeOutIsFinal | core/savequeue.h:40-54 | over every interleaving, a pop whose time is up does not sleep again |
| QueueWaits.OwnerLetsGo | core/savequeue.h:13-59 | whatever the others do, the owner of the lock lets go after a bounded number of its own steps |
| QueueWaits.NobodyStuck | core/savequeue.h:13-59 | over every interleaving, while a call has not returned, its thread or the owner of the lock can go on |
| QueueUse.StepAttendedIff | core/savequeue.h:13-59 | a step keeps every queued item attended to by a thread on its way to the lock iff it is not a Flex pop that leaves the only item while somebody sleeps and nobody is awake |
| QueueUse.AttendedIff | core/savequeue.h:13-59 | over every interleaving of all calls, items stay attended to iff no such step is taken |
| QueueUse.NoLostWakeup | core/savequeue.h:13-48 | without Flex pops, while somebody sleeps and the lock is free, at least as many threads are on their way back to the lock as items are queued |
| QueueUse.FlexPopForgetsSleeper | core/savequeue.h:50-59 | a run of three threads from a new queue that ends with an item queued, a thread asleep, and nobody awake |
| Handlers.MeetingCallsNeedLogin | src/vision.cpp:117-167 | create, booking and join calls are made exactly for well-formed requests while not logged out |
| Handlers.OneScreenShown | src/vision.cpp:74-91 | one message keeps exactly one of start and stream window shown; the enter dialog keeps its type while open |
| Pump.MeetingsOnlyAfterLogin | src/vision.cpp:117-196 | over all runs: guarded calls come after a LOGIN_SUCCESS, LOGIN is never left, RECONNECT never reached, one of the two windows is shown |
| Pump.RunJustified | src/vision.cpp:69-185 | the same from any such state, and LOGIN stays LOGIN |
| Pump.TracksReleasedOnce | src/vision.cpp:332-364 | over every run, track references handed over are those still queued plus those released, each once |
| Pump.TracksKept | src/controller.cpp:34-36 | each step keeps that balance |
| Pump.JoinsKept | src/controller.cpp:43-59 | each step keeps every join's posts in order among all posts |
| Pump.ListsBeforeJoinOk | src/controller.cpp:43-59 | in every interleaving, when JOIN_MEETING_OK is handled it comes from a join, and that join's five lists have been given to the stream window, in order |
| PumpHistory.HistoryTells | src/vision.cpp:69-367 | over every run, windows, dialogs and the enter dialog's type, user, session, time, booking and video, device lists, meeting id and login state are what the last message concerning each says; each effect belongs to its message, with its arguments |
| PumpHistory.StreamKept | src/vision.cpp:186-226 | the stream window is shown iff the last of video ADD_TRACK, MEETING_END and DISCONNECT_PEER was the first of these |
| PumpHistory.EnterShownKept | src/vision.cpp:74-91 | the enter dialog is open iff it was asked for, after a login, since it was last closed, and is for what was asked first |
| PumpHistory.OpeningIsFirst | src/vision.cpp:74-91 | that request is the first one since the dialog was last closed |
| PumpHistory.DevicesKept | src/controller.cpp:43-59 | each of the controller's five lists is the engine's last answer for that very kind |
| PumpHistory.ListsAreAnswers | src/controller.cpp:43-59 | over every run messages are handled in the order of posting, and a list given to the stream window is what the engine had last answered for its kind when it was posted |
| PumpHistory.EffectIsTold | src/vision.cpp:73-363 | which call with which arguments, list or released track belongs to a message, and nothing else is done outside |
| PumpHistory.PostsAreTold | src/controller.cpp:144-154 | what a handler posts, message by message |
| PumpLists.CurrentKept | src/controller.cpp:315-321 | although a refresh is posted only when the size changes, the last posted list has the size of the controller's map unless one is still to be posted |
| PumpLists.DrainedWindowsAgree | src/vision.cpp:261-266 | over every run, once drained, the list of windows last given to the stream window has the size of the controller's map |
| PumpLists.InternalStepsWork | src/vision.cpp:69-131 | every update and every post of a callback uses up work, although handlers post |
| PumpLists.PumpDrains | src/vision.cpp:40-46 | without posts from outside every interleaving ends within that work, exactly with queue and callbacks exhausted |
| VisionCentral.Controller.CreateMeeting | src/controller.cpp:144-154 | each map takes the engine's answer for its kind, if any, and the five lists are posted in order |
| VisionCentral.Controller.OnJoinMeetingSuccess | src/controller.cpp:43-59 | the same, and then the join's end is posted |
| VisionCentral.Controller.OnReceiveTrack | src/controller.cpp:34-36 | posts the track reference |
| VisionCentral.Controller.DisconnectFromCurrentPeer | src/controller.cpp:202-208 | forgets the meeting iff the engine left it |
| VisionCentral.Controller.CustomMessageCallback | src/controller.cpp:210-346 | refreshes the window map and posts it iff its size changed; posts media information on request |
| VisionCentral.VisionCentralController.constructor | src/vision.cpp:16-33 | logged out, only the start window shown |
| VisionCentral.VisionCentralController.Dispatch | src/vision.cpp:73-367 | the switch does to windows, login state, controller, queue and outside exactly what Handle says |
| VisionCentral.VisionCentralController.Update | src/vision.cpp:69-372 | takes the oldest message and handles it, or changes nothing on an empty queue |
| PumpFrames.EventIsPump | src/controller.cpp:34-59 | a callback with all its posts, a screen's post or a closed dialog is some steps of the pump, with this effect on vision, maps, queue and tracks |
| PumpFrames.UpdateIsPump | src/vision.cpp:69-372 | an update with all posts of its handler is some steps of the pump, with the effect of Handle |
| PumpFrames.RunObeys | src/vision.cpp:40-46 | what every run keeps, said of the queued messages and the effects in order alone |
| VisionCentral.VisionCentralController.CloseDialog | core/screen/screensink.h:135 | the close button of a dialog hides it and does nothing else |
| VisionCentral.VisionCentralController.Run | src/vision.cpp:40-46 | whatever happens before each update, the objects end as a run of the pump ends; without posts from outside the queue is empty after as many frames as its load |
| VisionCentral.Boot | src/boot.cpp:27-33 | over every run of the program: one of start and stream window is shown, guarded calls were made only if the user is logged in, each track reference is queued or was released once, and windows, dialogs, what they were told and the controller's lists are what the history says, and on an empty queue the list of windows last given to the stream window has the size of the controller's map |
| VisionCentral.HandlersLighten | src/controller.cpp:144-154 | what a handler posts weighs less than the message it took (6 for IS_CREATE, 2 for the two requests, else 1) |
| LineEditor.TruncatedIsLongestFit | core/component/module.h:1117-1124 | truncation keeps the longest prefix that fits, or nothing, for any width function |
| LineEditor.LongestFitIsUnique | core/component/module.h:1117-1124 | no other string is the longest fitting prefix |
| LineEditor.TypesExactly | core/component/module.h:1001-1040 | an active box with room takes exactly the codes 33 to 126, at the cursor |
| LineEditor.CursorInText | core/component/module.h:1001-1040 | for every event sequence the cursor stays within the text |
| LineEditor.StepFollowsIff | core/component/module.h:949-1040 | an event does to the box what it does to the two-part editor iff it is neither an activation that puts back a moved cursor nor a character judged by the width of something other than the text |
| LineEditor.FollowsIff | core/component/module.h:949-1040 | over every event sequence the box is the two-part editor at every point iff no event strays so |
| LineEditor.RunRefines | core/component/module.h:949-1040 | in particular if reset only while inactive; and then it draws its text unless the placeholder stands for an empty one |
| LineEditor.ResetWhileActiveRefusesText | src/screen/enterscreen.cpp:29-35 | after a reset of the active box, a placeholder that fills the box keeps a fitting character out, although what is drawn matches the text throughout |
| LineEditor.DrawnTextIff | core/component/module.h:949-997 | over every run the drawn string matches the text exactly if the box is never activated while marked untouched but holding text |
| LineEditor.ResetWhileActiveHidesText | core/component/module.h:949-997 | four events after which the text is present but not drawn |
| InputBox.InputBoxModule.SetActive | core/component/module.h:949-968 | activating an untouched box clears the placeholder; exactly if that puts back no moved cursor the box does as the two-part editor |
| InputBox.InputBoxModule.TruncateText | core/component/module.h:1117-1124 | the popping loop ends with the longest fitting prefix |
| InputBox.InputBoxModule.SetInputVal | core/component/module.h:976-987 | stores the longest fitting prefix with the cursor at its end, as the two-part editor does |
| InputBox.InputBoxModule.ResetText | core/component/module.h:991-997 | empties the text as the two-part editor does and shows the placeholder; an inactive box that draws its text still does |
| InputBox.InputBoxModule.GetEnterText | core/component/module.h:970-974 | returns the text and resets the box |
| InputBox.InputBoxModule.EventProcess | core/component/module.h:1001-1040 | an event does to the box what it does to the two-part editor iff it is not a character judged by the width of something other than the text; the cursor stays within the text, and a drawn text stays drawn |

## Left out

- Memory exhaustion: `std::vector::resize` always succeeds; the capacity it picks is a parameter of the read-size functions.
- BasicStreambuf.StreamBuf.Consume: the address of the vector is a parameter, since the allocator chooses it; pointers are compared as 64-bit numbers.
- Move construction and assignment of `basic_socket_streambuf`, which restart the put area, and `connect`, which resets both buffers without flushing.
- SocketBuffer.FlushSucceedsIff: clocks are not modelled; the expiry time passes where the script of the socket ends.
- `connect_to_endpoints`, real sockets, timers, and all other Asio headers.
- SafeQueue.ThreadSafeQueue.WaitPop: the class takes what other threads do between two checks as a parameter; LockedQueue runs those threads.
- `Notify`, `Empty` and `Size` of the queue, and Flex pops of types whose move empties the source.
- QueueUse.NoLostWakeup: covers Push, TryPop and WaitPop; for all calls see QueueUse.AttendedIff. The forgotten sleeper's wait ends by its time-out.
- VisionCentral.VisionCentralController.Run: the posts of one callback come in one go, and between updates; Pump.Run has them interleaved. The main window stays open for the given frames.
- The close button of the start and stream windows, which closes the window itself (core/screen/screensink.h:38); that of the start window ends the program.
- VisionCentral.Controller.CreateMeeting: the engine's createMeeting is the callback Create of module Handlers; the codec and MCU choices passed on to it are not modelled.
- VisionCentral.Controller.DisconnectFromCurrentPeer: stopRemoteRenderer is done by VisionCentral.VisionCentralController.EndMeeting.
- VisionCentral.Controller.CustomMessageCallback: switching devices, volumes and shares are engine calls without a modelled effect.
- Engine calls (connect, login, createMeeting, joinMeeting, outbound, device queries) appear as callbacks made or as arbitrary answers; device lookup by name, codec and MCU choice have no modelled effect.
- Character conversion between std::string and std::wstring is taken to succeed.
- What the stream window makes of a list it is given: it ignores an empty one, filters names and appends labels (src/screen/streamscreen.cpp:577-616).
- Drawing, colours, geometry, clicks, drop lists, clipboard; the window classes are their isActive flags, as their OnEnter and OnExit set them (src/screen/enterscreen.cpp:20-35, src/screen/startscreen.cpp:21-35, src/screen/streamscreen.cpp:44-67).
- InputBox.InputBoxModule.EventProcess: float widths are reals, and cursor positions are unbounded where the source has an int.
- The protected `reset` of the text box, which nothing in the repository calls.

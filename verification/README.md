# A verified model of libuv's core and of the Moe.UV address and handle code

This Dafny project models the hard parts of the vendored libuv under `3rd/libuv`, and of the C++ classes on top of
it, and proves what they are relied on for. `dafny verify dfyconfig.toml` checks all of it.

* **Trees** (`RedBlack*`, `Splay*`). The macros of `tree.h` on linked nodes. A memory snapshot, a map from nodes to
  their links, is compared with trees as values; the methods that write links state only what they write, and lemmas
  lift that to trees. Both red-black fix-up loops and the top-down splay with its header node are covered.
* **Heap and timers** (`LinkedHeap*`, `Timer*`). The pointer heap of `heap-inl.h` refines a one-indexed array heap, and
  the timers of `timer.c` run on that very heap.
* **Thread pool** (`ThreadPool*`) and **async wakeups** (`AsyncWakeup*`). Protocols as state machines over their steps:
  any number of threads, loops, requests, handles and senders; results are about every finite run.
  `ThreadPoolAnswers`, `ThreadPoolOrder` and `AsyncWakeupSends` say what the single steps do and what a call has led to
  by the time it returns.
* **Addresses** (`Address*`, `Quads`, `FieldsText`, `Inet*`, `Printed*`, `EndPoint*`, `NumberLaws`). A reference reads
  the text forms of section 2.2 of RFC 4291; `AddressForms` proves it equal to a grammar of these forms, and both IPv6 parsers are proved equal to it, so they agree, and what `inet_ntop6` prints denotes the address printed.
  `EndPointIpv4` is the number parser of `EndPoint.cpp`, in checked 64-bit arithmetic.
* **Event loop state** (`Rings`, `Turns`, `Watcher*`, `Io*`, `Inotify*`, `HandleClosing`, `ClosingLaws`). Callbacks are
  scripts: sequences of calls, universally quantified, that the n-th callback makes. What holds for all scripts holds whatever
  callbacks do. A method with callbacks is proved equal to a function of state and script, and lemmas about that
  function say what it means; the modules `*Laws` say field by field what each call and each round does, over the
  sequences of moments that `Moments` describes.
* **Ownership** (`HandleRuns`, `HandleOwnership`, `OwnerLaws`). Wrappers and handle memory of `AsyncHandle.cpp`, over
  runs of any operations.

Keys of tree elements are integers, an element's rank in the order of the comparison function. Where `tree.h` writes a
routine once for each side, the side is a value here and the two halves are its two instances. Strings are read as C
reads them, with a NUL behind the last character. Assertions of the source are assertions here; a branch of the source
that cannot be reached is an `assert false` with a comment.

Four things the proofs show that the source does not say:

* `next_power_of_two` wraps around to 0 for arguments above 2^31, so `maybe_resize` grows the array exactly for
  descriptors up to 2^31 - 3 (`PowersOfTwo.ArrayCovers`), although `uv__io_start` admits 2^31 - 2
  (`PowersOfTwo.LastDescriptor`).
* `uv__handle_ref` and `uv__handle_unref` get the count of active handles wrong exactly when they change the flag of a
  handle that is active while closing (`HandleClosing.AccountsExactly`), so no handle may be started once it is closing
  (`HandleClosing.StartWhileClosing`).
* A move assignment over a wrapper that has been closed leaks its handle (`HandleRuns.LeakReached`,
  `HandleRuns.LostForEver`); nothing else does (`HandleRuns.LosesExactly`).
* The test `best.len == 7 && words[7] != 1` of `inet_ntop6` never decides anything: with a run of seven words the loop
  is still inside the run at word 6, where nothing is printed (`AddressPrint.SevenNeverEmbeds`).

## Model

| member | source | states |
|---|---|---|
| `RedBlackTree.Tree.Insert` | 3rd/libuv/include/uv/tree.h:598-627 | keeps key order, a black root, no red node under a red one, equal black counts and parent links that mirror child links; puts exactly the new element into the in-order sequence, or returns the equal element and changes nothing, not even a link |
| `RedBlackTree.Tree.InsertColor` | 3rd/libuv/include/uv/tree.h:407-449 | the fix-up loop ends, restores all red-black properties wherever it starts, and leaves the in-order sequence alone |
| `RedBlackTree.Tree.InsertRound` | 3rd/libuv/include/uv/tree.h:411-446 | one round of it, either half: the tree is one red-red conflict away from valid again, higher up, with the same in-order sequence |
| `RedBlackTree.Tree.Remove` | 3rd/libuv/include/uv/tree.h:530-596 | keeps all of the same properties, and the in-order sequence is the old one without the removed element |
| `RedBlackTree.Tree.RemoveColor` | 3rd/libuv/include/uv/tree.h:451-528 | the fix-up loop ends, turns a tree with one path a black node short into a red-black tree, and leaves the in-order sequence alone |
| `RedBlackRemoval.SiblingThere` | 3rd/libuv/include/uv/tree.h:459-460 | the sibling that the fix-up dereferences without a test is never NULL |
| `RedBlackTree.Tree.Rotate` | 3rd/libuv/include/uv/tree.h:342-381 | a rotation of linked nodes is the rotation of the tree they spell out, at any place in a bigger tree, parent links included |
| `RedBlackTree.Tree.TakeOut` | 3rd/libuv/include/uv/tree.h:531-578 | whichever of the three ways the node is unlinked, the elements around it keep their order and the place where a black node may be missing is the one handed to the fix-up |
| `RedBlackRotations.RotateSeq` | 3rd/libuv/include/uv/tree.h:342-381 | a rotation keeps the in-order sequence |
| `RedBlackRemoval.RepairedRedBlack` | 3rd/libuv/include/uv/tree.h:483-490 | the last rotation of the removal fix-up leaves a red-black tree, whatever the colours were |
| `RedBlackRemoval.NephewRaisedRemoving` | 3rd/libuv/include/uv/tree.h:473-482 | turning a near red nephew outward keeps the one-black-short state it started from |
| `RedBlackRemoval.SiblingReddenedRemoving` | 3rd/libuv/include/uv/tree.h:465-471 | with two black nephews, reddening the sibling moves the shortage one level up |
| `RedBlackRemoval.SiblingRaisedRemoving` | 3rd/libuv/include/uv/tree.h:460-464 | under a red sibling one rotation keeps the shortage at the same node and gives it a black sibling |
| `RedBlackInsertion.PushedUpInserting` | 3rd/libuv/include/uv/tree.h:416-421 | under a red uncle recolouring moves the conflict two levels up |
| `RedBlackInsertion.TurnedUpInserting` | 3rd/libuv/include/uv/tree.h:428-429 | the last rotation of an insertion keeps the tree valid but for the node at hand, and its parent is black afterwards |
| `RedBlackTree.Tree.Find` | 3rd/libuv/include/uv/tree.h:629-645 | finds the element with the key exactly if there is one, in no more rounds than the height |
| `RedBlackTree.Tree.NFind` | 3rd/libuv/include/uv/tree.h:647-666 | gives the least element not below the key, or nothing if there is none, in no more rounds than the height |
| `RedBlackTree.Tree.Search` | 3rd/libuv/include/uv/tree.h:600-614 | the search of an insertion finds an equal element or the place where the new one keeps the order, in no more rounds than the height |
| `RedBlackTree.Tree.Next` | 3rd/libuv/include/uv/tree.h:668-688 | gives the in-order successor |
| `RedBlackMembers.HeightBound` | 3rd/libuv/include/uv/tree.h:53-61 | the documented bound: 2 to the height is at most (n + 1) squared |
| `RedBlackMembers.BlackBounds` | 3rd/libuv/include/uv/tree.h:53-61 | a tree of black height h has at least 2^h - 1 elements and height at most 2h, one more under a red root |
| `RedBlackTree.Tree.SearchBound` | 3rd/libuv/include/uv/tree.h:600-666 | so each of these three searches takes at most 2 lg(n + 1) rounds |
| `SplayTree.Tree.Splay` | 3rd/libuv/include/uv/tree.h:209-241 | a top-down splay of any search tree keeps its in-order sequence and search order, ends, and leaves at the root the element sought or a neighbour of its place; links outside of the tree are untouched |
| `SplayTree.Tree.Descend` | 3rd/libuv/include/uv/tree.h:217-239 | its loop: the pieces cut off and the rest make up the old sequence, and it stops only where the search ends |
| `SplaySteps.Assembled` | 3rd/libuv/include/uv/tree.h:112-117 | the four assignments of the assembly link the two piece trees and the rest into one search tree |
| `SplaySteps.AssemblySeq` | 3rd/libuv/include/uv/tree.h:112-117 | whose in-order sequence is that of the pieces and the rest |
| `SplaySteps.Linked` | 3rd/libuv/include/uv/tree.h:100-110 | linking the root to the piece tree of its side keeps the pieces chained, the header included |
| `SplaySteps.Stops` | 3rd/libuv/include/uv/tree.h:217-239 | where the loop stops, no element lies between the key and the root |
| `SplayTree.Tree.Find` | 3rd/libuv/include/uv/tree.h:127-137 | finds the element exactly if it is there, and then has it at the root |
| `SplayTree.Tree.Insert` | 3rd/libuv/include/uv/tree.h:164-186 | adds exactly the new element and has it at the root, or returns the equal one and keeps the sequence |
| `SplayTree.Tree.Remove` | 3rd/libuv/include/uv/tree.h:188-207 | removes exactly the element equal to the argument and returns the argument, or finds none and keeps the sequence |
| `SplayEdits.LastAtRoot` | 3rd/libuv/include/uv/tree.h:199-203 | after the second splay of a removal the root has no right child, so hanging the right subtree there loses nothing |
| `SplayEdits.ShapeAscends` | 3rd/libuv/include/uv/tree.h:209-241 | the in-order sequence of a tree in the model is strictly ascending |
| `LinkedHeap.Heap.Insert` | 3rd/libuv/src/heap-inl.h:106-148 | for any strict weak order: the heap stays complete, no child less than its parent, parent links right, and the node set grows by exactly the new node |
| `LinkedHeap.Heap.Remove` | 3rd/libuv/src/heap-inl.h:150-237 | the same, and the node set shrinks by exactly the removed node, any member |
| `LinkedHeap.Heap.Dequeue` | 3rd/libuv/src/heap-inl.h:239-241 | removes exactly the minimum |
| `LinkedHeap.Heap.Min` | 3rd/libuv/src/heap-inl.h:67-69 | the root is NULL exactly for the empty heap, and otherwise no element is less |
| `LinkedHeap.Heap.NodeSwap` | 3rd/libuv/src/heap-inl.h:72-104 | swapping a parent and a child by relinking is swapping two slots of the one-indexed array heap |
| `LinkedHeap.Heap.WalkTo` | 3rd/libuv/src/heap-inl.h:122-136 | the path bits read off a number n always lead to the link of slot n of the array heap |
| `LinkedHeapSlots.SwappedLinked` | 3rd/libuv/src/heap-inl.h:72-104 | the relinked nodes spell out the array with the two slots exchanged |
| `LinkedHeapSlots.Replaced` | 3rd/libuv/src/heap-inl.h:195-214 | the last node in the place of another one spells out the array with that slot overwritten |
| `LinkedHeapOrder.SiftedUp` | 3rd/libuv/src/heap-inl.h:146-147 | moving a too small element up one level leaves only the next level to repair |
| `LinkedHeapOrder.SiftedDown` | 3rd/libuv/src/heap-inl.h:220-229 | moving a too big element below its smallest child leaves only the next level to repair |
| `LinkedHeapOrder.RootIsLeast` | 3rd/libuv/src/heap-inl.h:67-69 | in an ordered array heap no element is less than the first |
| `LinkedHeapOrder.PathFits` | 3rd/libuv/src/heap-inl.h:122-124 | the path is less than 2^k and its bits are those of the node count below the highest one |
| `TimerLoop.Loop.RunTimers` | 3rd/libuv/src/timer.c:159-176 | whatever the callbacks do, each round fires the due timer with the earliest deadline, deadlines (timeout, start_id) strictly increase within a pass, and the pass ends with no timer due; TimerLaws.RoundActs says what the rounds of this trace do to the timers |
| `TimerLoop.Loop.NextTimeout` | 3rd/libuv/src/timer.c:138-156 | is -1 exactly without active timers, 0 exactly if one is due, and otherwise the time to the earliest deadline, at most INT_MAX |
| `TimerLoop.Loop.StartTimer` | 3rd/libuv/src/timer.c:71-99 | without a callback it fails and does nothing; otherwise it stops the timer if it is active, and then it is active with the deadline min(time + timeout, 2^64 - 1), the next start_id and its repeat value, no other timer changes, and the heap holds exactly the active timers |
| `TimerLoop.Loop.StopTimer` | 3rd/libuv/src/timer.c:102-112 | takes exactly this timer off the heap and keeps all its other fields, and does nothing to one that is not active |
| `TimerLoop.Loop.TimerAgain` | 3rd/libuv/src/timer.c:115-125 | a timer with a callback and a repeat value is active afterwards with the deadline min(time + repeat, 2^64 - 1) and the next start_id, and no other timer changes; without a repeat value nothing happens, without a callback it fails |
| `TimerLoop.Loop.InitTimer` | 3rd/libuv/src/timer.c:63-68 | a new timer is not active and is in nobody else's heap node |
| `Timers.ClampedSaturates` | 3rd/libuv/src/timer.c:82-84 | the 64-bit sum with its overflow test is the sum, saturated |
| `Timers.FiredPasses` | 3rd/libuv/src/timer.c:164-174 | everything active after a timer fired, its own restart included, has a later deadline |
| `Timers.ExecuteKeeps` | 3rd/libuv/src/timer.c:71-131 | no call of a callback makes an earlier deadline appear than one that has fired, or two active timers share a start_id |
| `TimerLaws.ExecuteLaw` | 3rd/libuv/src/timer.c:71-131 | what each call of a callback does to the fields of its timer, and that it does nothing to the others |
| `TimerLaws.CallbackActs` | 3rd/libuv/src/timer.c:71-131 | a callback makes all of its calls, one after the other, and nothing else happens to the timers |
| `TimerLaws.RoundActs` | 3rd/libuv/src/timer.c:159-176 | each round of a pass stops the earliest timer due, starts it again exactly if it has a repeat value, and only then its callback acts |
| `TimerLaws.RepeatsAgain` | 3rd/libuv/src/timer.c:170-174 | a repeating timer that fires is active again, one repeat value from now, where its callback does nothing |
| `TimerLaws.UntouchedTimer` | 3rd/libuv/src/timer.c:71-131 | a timer that no call of a callback is for keeps its deadline |
| `Timers.RoundProgress` | 3rd/libuv/src/timer.c:159-176 | a round whose callback starts no timer already due and does not advance the loop's time leaves fewer timers due |
| `Timers.PassIsShort` | 3rd/libuv/src/timer.c:159-176 | so a whole pass with such callbacks fires no more timers than were due at its start, however many calls they make |
| `TimerLoop.EarlierOrders` | 3rd/libuv/src/timer.c:38-60 | timer_less_than is a strict weak order |
| `ThreadPoolRuns.NeverStranded` | 3rd/libuv/src/threadpool.c:51-101 | in every reachable state, if a worker sleeps unsignalled then at least as many signalled ones are on their way as entries are queued |
| `ThreadPoolRuns.NeverStuck` | 3rd/libuv/src/threadpool.c:51-127 | while anything is queued or the exit message is posted, and a worker is left, somebody can go on without a spurious wake-up and without anybody beginning something new |
| `ThreadPoolShutdown.ComesToAnEnd` | 3rd/libuv/src/threadpool.c:51-127 | once the exit message is posted, the threads can take only a bounded number of steps unless something new is begun or a wake-up is spurious |
| `ThreadPoolShutdown.EndsInExit` | 3rd/libuv/src/threadpool.c:105-127 | where they end every worker has exited, so the joins of cleanup return, no lock is held, and every request posted before the exit message has run once or been cancelled and is back with its loop |
| `ThreadPoolShutdown.Decreases` | 3rd/libuv/src/threadpool.c:51-127 | each such step uses up a part of a measure over the queue and the positions of all threads |
| `ThreadPoolRuns.ExitComesLast` | 3rd/libuv/src/threadpool.c:67-80 | when a worker exits, everything posted before the exit message has been dequeued |
| `ThreadPoolRuns.DoneOnce` | 3rd/libuv/src/threadpool.c:195-254 | done runs at most once per request; with UV_ECANCELED exactly if a cancel returned 0 and then the work function never ran, otherwise after it ran once |
| `ThreadPoolRuns.NeverCallsCancelled` | 3rd/libuv/src/threadpool.c:43-48 | uv__cancelled is never executed |
| `ThreadPoolRuns.AtMostOneQueue` | 3rd/libuv/src/threadpool.c:195-254 | a request is in at most one place of the global queue, the queues of all loops and the queues being drained |
| `ThreadPoolRuns.NeverBothMutexes` | 3rd/libuv/src/threadpool.c:59-90 | no worker ever holds both mutexes |
| `ThreadPoolRuns.CancelFindsIt` | 3rd/libuv/src/threadpool.c:207-231 | a cancel that is granted finds the request on a queue, one that is refused means that a worker has or had it; ThreadPoolAnswers.CancelAnswers ties this to the two steps |
| `ThreadPoolAnswers.CancelAnswers` | 3rd/libuv/src/threadpool.c:207-231 | in every reachable state in which both mutexes are held for a cancel there is exactly one answer: granted if the request is on a queue and has not run, refused if a worker has it or it has run |
| `ThreadPoolAnswers.GrantedQueued` | 3rd/libuv/src/threadpool.c:213-218 | the step that grants takes the request off its queue; it is on none afterwards and has not run |
| `ThreadPoolAnswers.RefusedLate` | 3rd/libuv/src/threadpool.c:213-221 | the step that refuses does nothing to the request or to any queue |
| `ThreadPoolAnswers.CancelIsAnswered` | 3rd/libuv/src/threadpool.c:207-222 | uv_cancel does not return before one of the two answers has been given |
| `ThreadPoolAnswers.GrantedIsCancelled` | 3rd/libuv/src/threadpool.c:224-231 | when it returns after a grant, the request is marked as cancelled |
| `ThreadPoolAnswers.RunsChange` | 3rd/libuv/src/threadpool.c:82-83 | only the worker that has taken a request runs it |
| `ThreadPoolAnswers.DoneChange` | 3rd/libuv/src/threadpool.c:245-252 | done is called by the delivery of its loop alone, with UV_ECANCELED exactly if a cancel was granted |
| `ThreadPoolAnswers.CancelOkChange` | 3rd/libuv/src/threadpool.c:224-231 | only the end of a granted cancel marks a request as cancelled, and nothing takes that back |
| `ThreadPoolAnswers.SubmitIsPosted` | 3rd/libuv/src/threadpool.c:195-204 | when uv__work_submit returns, the request has been on the global queue |
| `ThreadPoolAnswers.DrainHandsOver` | 3rd/libuv/src/threadpool.c:233-243 | uv__work_done takes over all that its loop has finished, in order |
| `ThreadPoolAnswers.CallsBegin` | 3rd/libuv/src/threadpool.c:195-253 | a thread of a loop between two calls can make any of them |
| `ThreadPoolOrder.FirstComeFirstServed` | 3rd/libuv/src/threadpool.c:67-77 | a request is at the front of the global queue only when everything that was on it before has left |
| `ThreadPoolOrder.LineChange` | 3rd/libuv/src/threadpool.c:85-253 | the line for the done callbacks of a loop changes only at its ends and by cancels |
| `ThreadPoolOrder.DoneInOrder` | 3rd/libuv/src/threadpool.c:233-253 | done callbacks come in the order in which the requests were finished |
| `ThreadPoolRuns.StepKeeps` | 3rd/libuv/src/threadpool.c:51-254 | every step of every thread keeps the invariant these results rest on |
| `ThreadPoolRequests.GrantsCancelKept` | 3rd/libuv/src/threadpool.c:210-218 | taking a queued request off its queue under both mutexes keeps it |
| `ThreadPoolRequests.WorkerReportsKept` | 3rd/libuv/src/threadpool.c:85-90 | handing a finished request to its loop keeps it |
| `ThreadPoolRequests.DrainsKept` | 3rd/libuv/src/threadpool.c:241-243 | moving a loop's finished requests to the queue being drained keeps it |
| `ThreadPoolSafety.IdlePost` | 3rd/libuv/src/threadpool.c:95-101 | posting and signalling keeps enough workers on their way |
| `ThreadPoolSafety.IdleTakes` | 3rd/libuv/src/threadpool.c:61-77 | a worker that takes an entry leaves enough workers on their way for the rest |
| `AsyncWakeupRuns.NoLostWakeup` | 3rd/libuv/src/unix/async.c:59-120 | whenever an open handle is pending, some sender is about to write, or the wakeup fd is readable, or the current pass has yet to visit the handle |
| `AsyncWakeupRuns.NothingForgotten` | 3rd/libuv/src/unix/async.c:59-154 | once all sends have returned and the loop sleeps on an empty wakeup fd, no open handle is pending; with AsyncWakeupSends.SendPends, that every send makes its handle pending, this gives AsyncWakeupSends.SendIsAnswered |
| `AsyncWakeupSends.SendPends` | 3rd/libuv/src/unix/async.c:59-68 | when a send has returned, its handle has been pending at some moment since the send began |
| `AsyncWakeupSends.SendIsAnswered` | 3rd/libuv/src/unix/async.c:59-154 | once all sends have returned and the loop sleeps on an empty wakeup fd, the callback of every open handle that was sent to has been entered since that send began |
| `AsyncWakeupSends.CallsAreSent` | 3rd/libuv/src/unix/async.c:59-120 | in every run a handle is called at most as often as it was sent to |
| `AsyncWakeupSends.NoCallAfterClose` | 3rd/libuv/src/unix/async.c:41-120 | after uv_close the callback of a handle is never entered again |
| `AsyncWakeupSends.FlagsChange` | 3rd/libuv/src/unix/async.c:59-120 | a pending flag is set only by a sender that is in a send to its handle, and taken back only together with a call of the callback, if there is one |
| `AsyncWakeupSends.HandlesStay` | 3rd/libuv/src/unix/async.c:41-56 | no step but uv_async_init adds a handle and none but uv_close closes one |
| `AsyncWakeupSends.SendersGo` | 3rd/libuv/src/unix/async.c:59-154 | a send can begin at any time and goes on whatever the other threads do |
| `AsyncWakeupSends.LoopGoes` | 3rd/libuv/src/unix/async.c:77-120 | the loop goes on until it polls an empty wakeup fd |
| `AsyncWakeupRuns.PassCallsPending` | 3rd/libuv/src/unix/async.c:103-119 | a handle that is pending when a pass moves its queue has been called when the pass ends, unless it was closed |
| `AsyncWakeupRuns.OncePerPass` | 3rd/libuv/src/unix/async.c:103-119 | a pass calls no handle twice |
| `AsyncWakeupRuns.CallsOnlyPending` | 3rd/libuv/src/unix/async.c:111-118 | each call takes back a pending flag, of an open handle |
| `AsyncWakeupRuns.PassShrinks` | 3rd/libuv/src/unix/async.c:103-119 | nothing joins the queue of a pass, so the pass ends |
| `AsyncWakeupRuns.StepKeeps` | 3rd/libuv/src/unix/async.c:41-154 | every step of senders and loop keeps the invariant these results rest on |
| `AsyncWakeup.ClearsKept` | 3rd/libuv/src/unix/async.c:111-118 | taking the pending flag back keeps it |
| `AsyncWakeup.SwapsKept` | 3rd/libuv/src/unix/async.c:64-65 | a sender's compare-and-swap keeps it; AsyncWakeupSends.SendPends says what it is for |
| `Inet.Pton4` | 3rd/libuv/src/inet.c:186-222 | accepts exactly the dotted quads without needless zeros, gives their octets, and leaves dst alone otherwise |
| `Inet.Pton6` | 3rd/libuv/src/inet.c:225-309 | accepts exactly the texts that the reference Ipv6 accepts, gives their bytes, and leaves dst alone otherwise; AddressForms.AcceptsExactlyForms says which texts these are and what they mean |
| `Inet.Shift` | 3rd/libuv/src/inet.c:289-304 | the bytes behind a double colon move to the end and zeros fill the gap |
| `EndPointIpv6.ParseIpv6` | src/EndPoint.cpp:130-258 | accepts exactly the same texts and gives the same eight words, in place in the address array |
| `EndPointIpv6.ParsersAgree` | src/EndPoint.cpp:130-258 | inet_pton6 answers 0 exactly if ParseIpv6 accepts, for every string, and then the bytes of one are the words of the other |
| `AddressForms.AcceptsExactlyForms` | 3rd/libuv/src/inet.c:225-309 | for every string: Ipv6 gives w exactly if the string is a form of section 2.2 of RFC 4291, groups of one to four hexadecimal digits, a double colon in place of at least one word, a dotted quad at the end, that means w |
| `AddressForms.FormAccepted` | 3rd/libuv/src/inet.c:225-309 | every such form is accepted with the words it means |
| `AddressForms.QuadsAreCanonical` | 3rd/libuv/src/inet.c:186-222 | the dotted quads accepted are exactly those printed from four octets |
| `AddressLaws.HexTables` | 3rd/libuv/src/inet.c:226-227 | the digits of both tables have the value of their place |
| `AddressLaws.HexOnly` | 3rd/libuv/src/inet.c:246-247 | and no other character is a digit |
| `AddressLaws.CaseOfIpv6` | 3rd/libuv/src/inet.c:246-251 | the case of letters does not matter to what an IPv6 text means or whether it is accepted |
| `EndPointIpv6.Spread` | src/EndPoint.cpp:243-254 | swapping words to the end from the compressed slot on fills in the zeros of the double colon |
| `FieldsText.FieldColon` | 3rd/libuv/src/inet.c:255-271 | what a colon means for the rest of an address text |
| `InetPrint.Ntop6` | 3rd/libuv/src/inet.c:68-154 | prints the text of the address with its first longest zero run shortened if the text and its NUL fit, and answers UV_ENOSPC and leaves dst alone exactly if they do not |
| `InetPrint.Ntop4` | 3rd/libuv/src/inet.c:53-65 | prints the dotted quad exactly if it and its NUL fit |
| `InetPrint.LongestRun` | 3rd/libuv/src/inet.c:89-112 | finds the first longest run of at least two zero words, as section 4.2 of RFC 5952 asks, or none |
| `InetPrint.PrintedDenotes` | 3rd/libuv/src/inet.c:68-154 | the printed text denotes the address it was printed from, fits 46 bytes, and holds no NUL |
| `InetPrint.PrintAndParse` | 3rd/libuv/src/inet.c:68-154 | inet_pton6 of what inet_ntop6 printed gives all sixteen bytes back |
| `InetPrint.LongestUnique` | 3rd/libuv/src/inet.c:89-112 | there is only one run to shorten, so the text is determined |
| `InetPrint.TextFits` | 3rd/libuv/src/inet.c:77-145 | the 46-byte buffer is never too small |
| `AddressPrint.RoundTrip` | 3rd/libuv/src/inet.c:117-145 | the text of any eight words, any run of zeros of length two or more shortened, denotes these words, dotted quads included |
| `AddressPrint.SevenNeverEmbeds` | 3rd/libuv/src/inet.c:121-133 | word 6 still belongs to a run of seven that starts the address, so the IPv4 form is never printed for one |
| `PrintedLooks.DotsExactly` | 3rd/libuv/src/inet.c:129-137 | a dotted quad is printed exactly if the run to shorten is the first six words, or the first five in front of 0xffff |
| `PrintedLooks.BodyLooks` | 3rd/libuv/src/inet.c:117-145 | all characters printed are digits in lower case, colons and, in a dotted address, dots |
| `PrintedLooks.HexLooks` | 3rd/libuv/src/inet.c:117-145 | a word is printed in lower case without a needless zero in front |
| `EndPointIpv4.ParseNumber` | src/EndPoint.cpp:22-75 | gives the exact value below 2^32 and 2^64 - 1 otherwise, in decimal, octal and hexadecimal, with no overflow of 64 bits on any digit string; NumberLaws.NumberBack and CaseOfNumber say what the values are |
| `NumberLaws.NumberBack` | src/EndPoint.cpp:22-75 | every number written in decimal, in octal behind 0, or in hexadecimal behind 0x or 0X is read as itself |
| `NumberLaws.CaseOfNumber` | src/EndPoint.cpp:22-75 | the case of letters, that of the prefix included, does not matter |
| `NumberLaws.DigitsOnly` | src/EndPoint.cpp:22-75 | a text is a number exactly if all of its characters are digits of its radix |
| `NumberLaws.LeadingZero` | src/EndPoint.cpp:22-75 | more zeros in front do not change the value |
| `NumberLaws.PartsRejoin` | src/EndPoint.cpp:77-109 | the parts are the texts between the dots, and one more dot may end the string |
| `EndPointIpv4.ParseIpv4` | src/EndPoint.cpp:77-128 | accepts exactly one to four numeric parts, rejects by exception exactly those whose last part does not fit the rest, and otherwise gives their base-256 value |
| `EndPointIpv4.AddressBytes` | src/EndPoint.cpp:120-126 | the value fits 32 bits, so the cast loses nothing, and its leading bytes are the leading parts |
| `EndPointIpv4.RangeChecks` | src/EndPoint.cpp:111-117 | the three tests of the source together say that all parts but the last are bytes and the last fills the rest |
| `EndPointIpv4.Pton4Accepted` | src/EndPoint.cpp:77-128 | every string inet_pton4 accepts ParseIpv4 accepts, with the same address |
| `Rings.InsertHead` | 3rd/libuv/src/queue.h:83-90 | the circle with the new link behind its head |
| `Rings.InsertTail` | 3rd/libuv/src/queue.h:92-99 | the circle with the new link at its end |
| `Rings.Remove` | 3rd/libuv/src/queue.h:101-106 | the circle without the link, whichever circle it is on |
| `Rings.SplitAt` | 3rd/libuv/src/queue.h:61-70 | the circle falls into two, the second one headed by the new link |
| `Rings.Move` | 3rd/libuv/src/queue.h:72-81 | all elements are handed over to the other head, in order |
| `Rings.Inserted` | 3rd/libuv/src/queue.h:83-99 | two assignments and two back links put a link between any two neighbours |
| `WatcherPasses.Watchers.Pass` | 3rd/libuv/src/unix/loop-watcher.c:48-60 | whatever the callbacks start and stop: exactly those on the list at the beginning get a turn that no callback has stopped before, once, in order; nobody started meanwhile; the list afterwards is the one these turns and calls lead to; the two rings stay well formed and disjoint, and the pass ends |
| `WatcherPasses.Watchers.Sweep` | 3rd/libuv/src/uv-common.c:372-388 | the same for the loop that uv_walk shares with it, which skips internal handles |
| `WatcherPasses.Watchers.Round` | 3rd/libuv/src/unix/loop-watcher.c:53-59 | one round: the first handle goes back to the end of the list and is called, and its callback's calls are all that changes the two lists |
| `WatcherPasses.Watchers.StartHandle` | 3rd/libuv/src/unix/loop-watcher.c:32-39 | puts the handle at the head of the list unless it is active already or has no callback |
| `WatcherPasses.Watchers.StopHandle` | 3rd/libuv/src/unix/loop-watcher.c:41-46 | takes the handle off whichever of the two rings it is on |
| `Turns.MissedOnlyIfOut` | 3rd/libuv/src/unix/loop-watcher.c:53-59 | whoever misses a turn was stopped in the turn of somebody earlier in the list |
| `Turns.OutMisses` | 3rd/libuv/src/unix/loop-watcher.c:53-59 | whoever is stopped in the turn of somebody earlier in the list gets none |
| `Turns.ServedFrom` | 3rd/libuv/src/unix/loop-watcher.c:53-59 | only handles of the list that are not skipped get a turn, none of them two |
| `Turns.ServedInOrder` | 3rd/libuv/src/unix/loop-watcher.c:53-59 | the turns come in the order of the list |
| `WatcherPasses.PerformedMoves` | 3rd/libuv/src/unix/loop-watcher.c:41-46 | a callback takes exactly those it stops off the turns to come, and adds nobody |
| `WatcherPasses.SweptStays` | 3rd/libuv/src/unix/loop-watcher.c:53-59 | a handle that no callback stops is on the list again after the pass |
| `WatcherPasses.SweptQuietly` | 3rd/libuv/src/unix/loop-watcher.c:53-59 | a pass whose callbacks leave the list alone leaves it as it was, the order included |
| `WatcherLaws.CallbackActs` | 3rd/libuv/src/unix/loop-watcher.c:32-46 | a callback makes all of its calls, one after the other: a start puts its handle in front of the list, a stop takes it out of whichever list it is on, and nothing else happens to the lists |
| `WatcherLaws.SweptActs` | 3rd/libuv/src/unix/loop-watcher.c:48-60 | a pass takes one round after the other until nobody is left: the first handle goes to the end of the list, and then its callback makes the calls that the script has for it, unless the handle is to be skipped |
| `PowersOfTwo.NextPowerOfTwo` | 3rd/libuv/src/unix/core.c:787-796 | gives the least power of two not below its argument for arguments from 1 to 2^31, and wraps around to 0 for all others |
| `PowersOfTwo.AllSmeared` | 3rd/libuv/src/unix/core.c:788-793 | five shifts and ors fill all 32 bits below the highest one |
| `PowersOfTwo.ArrayCovers` | 3rd/libuv/src/unix/core.c:817-819 | in 32-bit arithmetic, the array that maybe_resize asks for has room for len slots exactly if len + 2 is at most 2^31 |
| `PowersOfTwo.LastDescriptor` | 3rd/libuv/src/unix/core.c:854-857 | for the descriptor 2^31 - 2, which uv__io_start admits, it asks for no slots and stores 2^32 - 2 as their number |
| `IoLoop.Loop.MaybeResize` | 3rd/libuv/src/unix/core.c:798-830 | for every unsigned len: the array holds len slots exactly if it did already or len + 2 is at most 2^31; then all slots and the two at the end are kept and the new ones are NULL |
| `IoLoop.Loop.IoStart` | 3rd/libuv/src/unix/core.c:850-876 | for every descriptor its assertions admit, it fails exactly where the array cannot grow, and otherwise keeps the registration invariant: slots are in use exactly for watchers with wanted events, nfds counts them, queued watchers want something, and the others are up to date with the kernel |
| `IoLoop.Loop.Start` | 3rd/libuv/src/unix/core.c:850-876 | the same without the invariant: whether or not the array can grow, the watcher wants exactly the events given in addition |
| `IoLoop.Loop.IoStop` | 3rd/libuv/src/unix/core.c:878-907 | keeps it too, and its assertions hold; the watcher wants the same events as before without those given, and all other watchers are untouched |
| `IoLoop.Loop.Register` | 3rd/libuv/src/unix/linux-core.c:222-255 | one round of the registration loop: its assertions hold and its aborts are not reached, whether the kernel knows the descriptor already or not |
| `IoLoop.Loop.RegisterAll` | 3rd/libuv/src/unix/linux-core.c:217-255 | afterwards the kernel watches for every live watcher exactly the events it wants, and the queue is empty |
| `IoLoop.Loop.IoClose` | 3rd/libuv/src/unix/core.c:910-916 | no event of the descriptor is left to dispatch, and the kernel has forgotten it |
| `IoLoop.Loop.InvalidateEvents` | 3rd/libuv/src/unix/linux-core.c:136-151 | exactly the pending events of the descriptor are invalidated |
| `IoLoop.Loop.Match` | 3rd/libuv/src/unix/linux-core.c:345-391 | an event goes to whoever is in the slot of its descriptor, as Recipient says; the descriptor is disarmed if nobody is; IoDispatch.RecipientIsLive spells out who hears what |
| `IoLoop.Loop.Dispatch` | 3rd/libuv/src/unix/linux-core.c:343-411 | the callbacks, with their events, are exactly those that the single events lead to, each in the state that the calls of the callbacks before have made, and the loop ends in the state they make; IoDispatch.RecipientIsLive and IoLaws.EventActs say what a single event leads to |
| `IoDispatch.RecipientIsLive` | 3rd/libuv/src/unix/linux-core.c:345-391 | an event p leads to a callback exactly for the live watcher of its descriptor, if that has not been closed since the poll and p has a part in v + {Err, Hup}, where v are the events wanted; it reports exactly that part, and all of v as well if the part is just an error or just a hangup |
| `IoDispatch.NoneForClosed` | 3rd/libuv/src/unix/linux-core.c:136-151 | no callback is for a descriptor closed since the poll, even if the number has been reused |
| `IoDispatch.UntouchedHears` | 3rd/libuv/src/unix/linux-core.c:343-411 | an event for a live watcher that no callback touches does reach it, whatever the callbacks do to others; the report lies within v + {Err, Hup}, contains all of the event that does, and all of v if that is just an error or just a hangup |
| `IoDispatch.PerformedKeeps` | 3rd/libuv/src/unix/core.c:850-916 | no call of a callback breaks the registration invariant |
| `IoLaws.PerformedActs` | 3rd/libuv/src/unix/core.c:850-916 | what a start, a stop, a close and an init do to the fields of their watcher, to the queue and to the kernel, and that no other watcher changes |
| `IoLaws.CallbackActs` | 3rd/libuv/src/unix/core.c:850-916 | a callback makes all of its calls, one after the other, and nothing else happens to the watchers |
| `IoLaws.EventActs` | 3rd/libuv/src/unix/linux-core.c:343-411 | each event of a dispatch leads to nobody and at most disarms a descriptor that nobody watches, or to one callback with the next calls of the script |
| `IoWatchers.StartedKeeps` | 3rd/libuv/src/unix/core.c:850-876 | the invariant behind IoStart |
| `IoWatchers.StoppedKeeps` | 3rd/libuv/src/unix/core.c:878-907 | the invariant behind IoStop, and that the slot found is the watcher's own |
| `IoWatchers.ToldKeeps` | 3rd/libuv/src/unix/linux-core.c:222-255 | the invariant behind Register |
| `IoWatchers.NoneQueued` | 3rd/libuv/src/unix/linux-core.c:217-220 | with no slot in use the queue is empty |
| `Inotify.Loop.StartHandle` | 3rd/libuv/src/unix/linux-inotify.c:276-327 | the handle joins the one entry of its wd, a new one if need be |
| `Inotify.Loop.StopHandle` | 3rd/libuv/src/unix/linux-inotify.c:330-347 | finds its entry, leaves it, and frees it exactly if it was the last handle and no dispatch is under way |
| `Inotify.Loop.ReadEvent` | 3rd/libuv/src/unix/linux-inotify.c:194-268 | whatever the callbacks do: exactly those handles of the entry are called, once and in order, that no callback before has stopped; a stale event calls nobody, no freed entry is touched, and the loop ends in the state that these turns and calls lead to |
| `Inotify.PerformedLeaves` | 3rd/libuv/src/unix/linux-inotify.c:330-347 | a callback takes exactly those it stops off the turns to come, and adds nobody |
| `InotifyIndex.StopFinds` | 3rd/libuv/src/unix/linux-inotify.c:336-337 | the entry that uv_fs_event_stop asserts to find is there |
| `InotifyIndex.StartedKeeps` | 3rd/libuv/src/unix/linux-inotify.c:276-327 | each active handle belongs to exactly one entry, that of its wd |
| `InotifyIndex.StoppedKeeps` | 3rd/libuv/src/unix/linux-inotify.c:184-192 | an entry is freed when it has no handles and is not iterated, and only then |
| `InotifyIndex.EndedKeeps` | 3rd/libuv/src/unix/linux-inotify.c:261-264 | the same at the end of a dispatch |
| `InotifyLaws.PerformedActs` | 3rd/libuv/src/unix/linux-inotify.c:276-347 | a start puts its handle behind those that listen to its wd, a stop takes it off its list and frees the entry exactly with the last one outside of a dispatch, and all other lists and entries stay |
| `InotifyLaws.CallbackActs` | 3rd/libuv/src/unix/linux-inotify.c:276-347 | a callback makes all of its calls, one after the other, and nothing else happens to the handles |
| `InotifyLaws.EventActs` | 3rd/libuv/src/unix/linux-inotify.c:240-264 | an event for a path that somebody watches: all its handles wait, then one round after the other the first goes back to its list and its callback makes its calls, and in the end the entry is freed exactly if nobody is left |
| `InotifyLaws.QuietEvent` | 3rd/libuv/src/unix/linux-inotify.c:240-264 | where the callbacks do nothing, an event changes nothing, the order of the handles included |
| `HandleClosing.AccountsExactly` | 3rd/libuv/src/uv-common.h:237-253 | start and stop keep the account of active handles; ref and unref do exactly unless the handle is active while it is closing |
| `HandleClosing.StartWhileClosing` | 3rd/libuv/src/uv-common.h:221-253 | a handle closed, started and then unreferenced leaves active_handles at 1 with no handle that counts |
| `HandleClosing.Loop.CloseHandle` | 3rd/libuv/src/unix/core.c:116-186 | the handle is stopped, put in front of the closing list and stays referenced or not as it was; no other handle changes, and the account stays right |
| `HandleClosing.Loop.RunClosingHandles` | 3rd/libuv/src/unix/core.c:293-305 | every handle closed before gets its close callback exactly once, one closed in a callback waits for the next pass, and nothing but the callbacks' calls changes the handles in between |
| `HandleClosing.Loop.Finish` | 3rd/libuv/src/unix/core.c:243-290 | finishing keeps account and lists, and the next pointer of the rest of the list is still good |
| `ClosingLaws.CallbackActs` | 3rd/libuv/src/uv-common.h:221-253 | a callback makes all of its calls, one after the other: each changes just its flag of its handle, closing keeps the reference, a closing handle is not started; nothing else happens |
| `ClosingLaws.ClosingActs` | 3rd/libuv/src/unix/core.c:293-305 | uv__run_closing_handles takes one round for each handle of the list, in order: it is closed, not referenced any more and told once, and then its callback makes its calls |
| `HandleClosing.Loop.HandleStart` | 3rd/libuv/src/uv-common.h:221-227 | active_handles changes as the number of handles both active and referenced does, for any handle; only one that is closing must not be started |
| `HandleClosing.Loop.HandleStop` | 3rd/libuv/src/uv-common.h:229-235 | the same, and it does not become negative |
| `HandleClosing.Loop.HandleRef` | 3rd/libuv/src/uv-common.h:237-244 | the same, but for a handle that is closing active_handles stays, which is right for one that is not active; a valid loop stays valid at whatever point of its life the handle is |
| `HandleClosing.Loop.HandleUnref` | 3rd/libuv/src/uv-common.h:246-253 | the same |
| `HandleOwnership.Pool.Construct` | src/AsyncHandle.cpp:48-54 | a new wrapper and its block know each other |
| `HandleOwnership.Pool.MoveConstruct` | src/AsyncHandle.cpp:56-63 | the block goes to the new wrapper and the old one is left empty and closed; all other blocks and wrappers are untouched |
| `HandleOwnership.Pool.MoveAssign` | src/AsyncHandle.cpp:77-94 | frees nothing, hands the block over, and loses a block exactly if the overwritten wrapper had been closed already |
| `HandleOwnership.Pool.Destroy` | src/AsyncHandle.cpp:65-75 | frees a block that libuv has done with and leaves any other to libuv |
| `HandleOwnership.Pool.Close` | src/AsyncHandle.cpp:107-115 | starts closing exactly if the wrapper has a block that is not closing yet |
| `HandleOwnership.Pool.FinishClose` | src/AsyncHandle.cpp:31-46 | OnClose goes to the live wrapper that owns the block; exactly without one the block is freed; nothing else changes |
| `HandleOwnership.Pool.Free` | src/AsyncHandle.cpp:65-75 | memory is given back only once and only after libuv has closed the handle |
| `HandleOwnership.Pool.Perform` | src/AsyncHandle.cpp:31-115 | any sequence of these operations, of forced closes and of steps of the loop keeps all of this and has the history of HandleRuns.Run |
| `HandleRuns.RunLogged` | src/AsyncHandle.cpp:31-94 | over any run no block is freed twice, none before libuv has closed it, OnClose comes at most once for a block and never after it has been freed |
| `HandleRuns.FreesClosed` | src/AsyncHandle.cpp:31-94 | an operation frees exactly the blocks the history says, and only ones that libuv has closed and that were not free |
| `HandleRuns.FinishTells` | src/AsyncHandle.cpp:31-46 | OnClose goes to the wrapper that owns the block at that moment, and there is none exactly if the block is freed instead |
| `HandleRuns.ClosesOnce` | 3rd/libuv/src/unix/core.c:243-290 | a block becomes closed by uv__finish_close alone, and OnClose is told in that step |
| `OwnerLaws.PhaseLaw` | src/AsyncHandle.cpp:31-115 | an open handle starts to close exactly by a close, a move assignment or the end of its wrapper, or by force, a closing one ends exactly by uv__finish_close, and nothing else ever changes that |
| `OwnerLaws.OwnerLaw` | src/AsyncHandle.cpp:48-115 | who owns which handle after each operation: it stays with its wrapper except for a move, which passes it on, and for the overwriting or the end of the wrapper |
| `OwnerLaws.LivesUntilDestroyed` | src/AsyncHandle.cpp:48-75 | a wrapper is there from its construction to its destruction |
| `OwnerLaws.ConstructsOpen` | src/AsyncHandle.cpp:48-54 | a new handle is open and belongs to the new wrapper |
| `HandleRuns.LosesExactly` | src/AsyncHandle.cpp:77-94 | of all operations only a move assignment loses a block, exactly if it overwrites a wrapper that is closed and has one |
| `HandleRuns.LostForEver` | src/AsyncHandle.cpp:77-94 | the memory of a lost block is never given back |
| `HandleRuns.LeakReached` | src/AsyncHandle.cpp:77-94 | closing a wrapper, letting the close finish and assigning another wrapper to it loses a block |

## Left out

- ThreadPoolRuns.NeverStuck: says that somebody can go on, not that a fair scheduler lets everybody go on; there is no model of fairness. The end of all work is proved for the shutdown, where nothing new is begun.
- TimerLoop.Loop.StartTimer: start_id is unbounded here; in the source it wraps around after 2^64 starts.
- TimerLoop.Loop.RunTimers: a script is finite, so a pass that callbacks keep alive for ever is covered by its finite beginnings; the loop's time stays below the last millisecond that 64 bits can hold.
- IoLoop.Loop.MaybeResize: where the array cannot grow the model stops with a failure; what the source does from there on, a realloc of no bytes and writes behind its end, is not modelled.
- IoLoop.Loop.Dispatch: the signal watcher is called like any other, not last; callbacks make no call that an assertion of the source forbids, and start no watcher for which the array cannot grow.
- Inotify.Loop.ReadEvent: the names and masks of events are not modelled, and the red-black tree is a map by wd.
- HandleClosing.Loop.CloseHandle: stands for the handle types whose close function just stops the handle; streams and UDP, which stay active while requests are pending, and signals are not modelled.
- WatcherPasses.Watchers.Pass: handles initialized within a pass are not part of a script; they are not on the list.
- SPLAY_NEXT, SPLAY_MIN_MAX, RB_PREV and RB_MINMAX: the same loops with a fixed or mirrored comparison.
- QUEUE_ADD: not used by the parts modelled.
- uv_inet_pton's scope id, uv_inet_ntop's address families: argument checks.
- IPv6 through EndPoint's constructors: they do not store the address they parse.
- One client thread per loop submits, cancels and drains; a loop's thread is the only one that may, so this is no restriction.
- Memory ordering below sequential consistency, allocation failure, system calls, clocks, and processes that fork.
- EINTR and partial writes of one byte: a write that is interrupted is tried again, so it is no step of its own.
- StringUtils::IsDigit, IsHexDigit and HexDigitToNumber are not part of the repository; they are modelled on ASCII.
- Timers, watchers, file-event handles, handles and wrappers are values in a sequence that the methods update, known by their index; tree nodes, heap nodes and queue links are objects.
- UniquePooledObject and the object pool are not part of the repository; a block is given back by `Pool.Free`.

# Event loop, resolver and stream framing of shadowsocksr-libev, in Dafny

The repository vendors three bodies of C that rest on delicate invariants. This project models them and proves
what they are relied upon for.

**The libev event core.** `Wakeup` is the protocol by which any number of threads and signal handlers wake a loop
that may be about to block; its steps are single accesses to shared memory, interleaved in any way. `Watchers` has the
watchers of every kind in one store. `Heap` is the timer heap with its back-pointers, one description for the 2-heap
and the 4-heap and for timers and periodics. `Pending` holds the queues of pending events and, as a history of feeds,
clears and invocations, what every watcher is owed and which of two was queued later. `WatcherArray` has the arrays
that are compacted by moving the last entry, `ArraySize` their growth, `FdInterest` the lists of io watchers and the
fds that wait to be passed on to a backend. `LoopState` puts two heaps, the arrays, the lists of the fds, the queues and
the history together over the one store, as one invariant, and says what every operation does to it; `Expiry` does so
for a whole pass of `timers_reify` or `periodics_reify`, and `Periodics` finds the next time of a periodic.

`EventLoop` is the loop object itself. Its methods work in place as the source does, and all of them keep one invariant,
which implies what `ev_verify` asserts of the whole loop (`EventLoop.Loop.EvVerify`). Callbacks may feed, clear, set
up, start, stop and restart watchers of every kind, feed fds, and re-enter. `BeforeWait` and `AfterWait` are the two
halves of a turn of `ev_run`, from what the clocks and the backend say to who has been invoked with which events; `LoopFacts` has the lemmas that the methods need. The loop passes its interests on to
`PollBackend` or `SelectBackend`, which refine the same map from fds to events. `EpollBackend` runs on its own against
a kernel that may silently forget registrations or keep those of files that are closed here but open elsewhere.

**The udns stub resolver.** `DnsName` has names in wire form (section 3.1 of RFC 1035) and as text, with the printer
and the parser. `DnsPacket` expands and skips compressed names (section 4.1.4 of RFC 1035). `DnsParse` steps through
an answer section, following CNAMEs, and `DnsRecords` decodes MX, TXT and NAPTR answers in two passes, the first
sizing what the second fills. `Query` is what can happen to one query (servers, rounds, EDNS0, the search list),
`QueryList` the doubly linked list of active queries, and `Resolver` the context that keeps it sorted by deadline.

**The ShadowsocksR framing.** `Buffers` has buffers that are rewritten in place. `ChunkHash` is the one-time
authentication of a stream in chunks; `StreamCipher` the resumption of a keystream in the middle of a block;
`TableCipher` the substitution table made by repeated sorting; `Crc32` and `Adler32` the checksums; `Framing` the
frames of `auth_sha1_v4` and `auth_aes128_sha1`. Keyed hashes and keystreams are arbitrary functions, random choices
are arbitrary values. `Basics` has what several of these modules need.

Methods follow the source and are proved against functions (`Up`, `Feed`, `Parse`, `Fold`, `Send`, ...); what the
source promises is proved about those functions, for all inputs and all runs. Paths below begin at the root of the
repository.

## Model

| member | source | states |
|---|---|---|
| ArraySize.NextSize | shadowsocksr-libev/src/libev/ev.c:1924-1943 | the new size of an array holds at least the count asked for, and more than twice the old size, also where it is rounded to pages |
| Wakeup.StepInv | shadowsocksr-libev/src/libev/ev.c:2426-2539 | every single access of a sender or of the loop keeps the invariant: each mark is noticed by a flag, a scan or a sender; each flag is covered by the skip flag, a byte in the pipe, the loop or a sender; feeds never outnumber sends |
| Wakeup.RunInv | shadowsocksr-libev/src/libev/ev.c:2426-2539 | the invariant holds after any interleaving of any number of senders with the loop |
| Wakeup.BlockedOnlyByASender | shadowsocksr-libev/src/libev/ev.c:3602-3664 | a loop that sits in a blocking poll on an empty pipe although something was sent implies a sender inside evpipe_write |
| Wakeup.NoLostWakeup | shadowsocksr-libev/src/libev/ev.c:3602-3664 | in every reachable state with the loop in a blocking poll and no sender inside evpipe_write, anything sent makes the pipe readable |
| Wakeup.OneStepCloser | shadowsocksr-libev/src/libev/ev.c:2476-2539 | with the senders gone the loop is never stuck on something sent, and each of its steps feeds it or comes strictly closer to doing so |
| Wakeup.EverySendIsFed | shadowsocksr-libev/src/libev/ev.c:4902-4907 | from every state of the invariant, once the senders have returned, each watcher sent to is fed, once, within a bounded number of steps of the loop |
| Wakeup.FedOnTheWay | shadowsocksr-libev/src/libev/ev.c:2476-2539 | once pipecb finds the flag of an item, or has cleared it, the watcher is fed within a bounded number of steps of the loop, under any interleaving with any number of senders |
| Wakeup.FedWhileSending | shadowsocksr-libev/src/libev/ev.c:2426-2539 | an item that is noticed is fed within two passes of the loop although senders keep sending, as long as none of them takes back pipe_write_skipped in order to write to the pipe |
| Heap.RootIsMinimum | shadowsocksr-libev/src/libev/ev.c:3103-3115 | in a heap of either arity the root is not later than any node |
| Heap.RootIsDueFirst | shadowsocksr-libev/src/libev/ev.c:3325-3325 | the time cached at the root is the time of its watcher and the least of all watchers in the heap |
| Heap.UpSorts | shadowsocksr-libev/src/libev/ev.c:2319-2339 | upheap restores the order when only the node at k may be too early; for the 4-heap with its root being its own parent, as C division truncates |
| Heap.DownSorts | shadowsocksr-libev/src/libev/ev.c:2240-2316 | both versions of downheap restore the order when only the node at k may be too late |
| Heap.AdjustSorts | shadowsocksr-libev/src/libev/ev.c:2341-2348 | adjustheap restores the order around a node with an arbitrary new time |
| Heap.InsertWorks | shadowsocksr-libev/src/libev/ev.c:3884-3889 | insertion keeps order, indices and cached times, adds exactly the watcher, and changes nothing but indices |
| Heap.RemoveWorks | shadowsocksr-libev/src/libev/ev.c:3905-3918 | removal from anywhere keeps the heap, takes out exactly the watcher, and changes nothing but indices |
| Heap.RetimeWorks | shadowsocksr-libev/src/libev/ev.c:3934-3940 | a new time of an active watcher, cached and adjusted, gives a heap of the same watchers |
| Heap.RetimeRootWorks | shadowsocksr-libev/src/libev/ev.c:3334-3344 | the same for the root and downheap alone |
| Heap.RebuildWorks | shadowsocksr-libev/src/libev/ev.c:2351-2361 | reheap makes a heap of the same watchers, whatever their times have become |
| Pending.FeedKeeps | shadowsocksr-libev/src/libev/ev.c:1985-2002 | a feed keeps every watcher's pending at its entry and every entry's watcher pointing back, and changes pending fields only |
| Pending.FeedDueSelf | shadowsocksr-libev/src/libev/ev.c:1985-2002 | a feed adds its events to those the watcher is pending for already |
| Pending.FeedDueOther | shadowsocksr-libev/src/libev/ev.c:1985-2002 | what other watchers are pending for stays |
| Pending.ClearKeeps | shadowsocksr-libev/src/libev/ev.c:3774-3800 | a clear keeps the back-pointers of the queues |
| Pending.ClearDue | shadowsocksr-libev/src/libev/ev.c:3774-3800 | a cleared watcher is pending for nothing, the others for what they were |
| Pending.PopKeeps | shadowsocksr-libev/src/libev/ev.c:3274-3292 | taking the last entry of a queue keeps the back-pointers |
| Pending.PopDue | shadowsocksr-libev/src/libev/ev.c:3274-3292 | the entry taken is the dummy, or a watcher of that priority with all it was pending for, which then is pending no more |
| Pending.FeedAccounted | shadowsocksr-libev/src/libev/ev.c:1985-2002 | after a feed the queues hold exactly what the history leaves owed |
| Pending.ClearAccounted | shadowsocksr-libev/src/libev/ev.c:3774-3800 | after a clear the queues hold exactly what the history leaves owed |
| Pending.PopDeserved | shadowsocksr-libev/src/libev/ev.c:3274-3292 | an invocation gives a watcher exactly the OR of what it was fed since it was last invoked or cleared, while no watcher of a higher priority is owed anything, nor one of the same priority that was queued later |
| Pending.PopAccounted | shadowsocksr-libev/src/libev/ev.c:3274-3292 | after an invocation the queues hold exactly what the history leaves owed, and the history stays fair |
| Pending.FeedInTurn | shadowsocksr-libev/src/libev/ev.c:1985-2002 | a feed keeps the queues in turn: of two pending watchers of one priority the one further back was queued later |
| Pending.RemovedInTurn | shadowsocksr-libev/src/libev/ev.c:3274-3292 | so do clears and invocations, although places in the queues are not moved up |
| Pending.NotBefore | shadowsocksr-libev/src/libev/ev.c:3274-3292 | in every fair history, whatever is fed, cleared and invoked in between, a watcher is not invoked before one of its priority that was queued later, unless that one was invoked or cleared, or it was itself cleared |
| Pending.OwedAfterFeeds | shadowsocksr-libev/src/libev/ev.c:2019-2043 | several feeds of different watchers leave each owed its events on top of what it was owed |
| Pending.AllDelivered | shadowsocksr-libev/src/libev/ev.c:3274-3292 | with empty queues no watcher is owed anything |
| Pending.DrainAt | shadowsocksr-libev/src/libev/ev.c:3274-3292 | where in the order of invocations each queued entry comes: higher priorities first, the last entry of a queue first |
| Pending.NearerEndFirst | shadowsocksr-libev/src/libev/ev.c:3274-3292 | of two watchers of one priority the one nearer to the end of the queue is invoked first |
| Pending.OwedWasFed | shadowsocksr-libev/src/libev/ev.c:1985-2002 | whatever a watcher is owed was fed to it, and neither delivered nor cleared since |
| Pending.BothHas | shadowsocksr-libev/src/libev/ev.c:1989-1991 | merging keeps just the bits of both, so that nothing fed to a watcher that is pending already is lost or made up |
| Pending.OwedHas | shadowsocksr-libev/src/libev/ev.c:1985-2002 | a watcher is owed an event if and only if it was fed that and neither invoked nor cleared since |
| Pending.GetsAnswered | shadowsocksr-libev/src/libev/ev.c:3274-3292 | whatever was owed and is not owed any more was delivered with all its events, or cleared |
| Pending.DeliveredOnce | shadowsocksr-libev/src/libev/ev.c:3274-3292 | between two invocations of a watcher lies a new feed that was not cleared: no feed is delivered twice |
| Pending.AnsweredFeed | shadowsocksr-libev/src/libev/ev.c:3274-3292 | a feed that is not owed any more was delivered or cleared: no feed is lost |
| LoopState.StartWorks | shadowsocksr-libev/src/libev/ev.c:3873-3895 | starting a timer or periodic keeps the whole loop consistent (both heaps, the arrays, the fds, the queues and the history), adds exactly it to its heap with its time, and touches no watcher of another kind |
| LoopState.StopWorks | shadowsocksr-libev/src/libev/ev.c:3897-3925 | stopping keeps the whole loop consistent, removes exactly the watcher from its heap and leaves it inactive |
| LoopState.RetimedWorks | shadowsocksr-libev/src/libev/ev.c:3934-3940 | a new time of an active timer keeps the whole loop consistent, with the same watchers in the heap |
| LoopState.RetimedFirstWorks | shadowsocksr-libev/src/libev/ev.c:3334-3344 | the same for the first timer, moved down only |
| LoopState.RescheduledWorks | shadowsocksr-libev/src/libev/ev.c:3427-3446 | with all watchers of a heap given new times and reheap run, the whole loop is consistent, and the heap has the same watchers and just these times |
| LoopState.MovedWorks | shadowsocksr-libev/src/libev/ev.c:3450-3461 | moving all times by the same amount keeps the order without reheap |
| LoopState.ArrayStartWorks | shadowsocksr-libev/src/libev/ev.c:4598-4611 | a watcher put behind the others of its array keeps the whole loop consistent |
| LoopState.ArrayStopWorks | shadowsocksr-libev/src/libev/ev.c:4613-4633 | so does filling the place of a stopped one with the last of the array |
| LoopState.IoStartWorks | shadowsocksr-libev/src/libev/ev.c:3828-3852 | a watcher linked into the list of its fd, with the fd flagged, keeps the whole loop consistent |
| LoopState.IoStopWorks | shadowsocksr-libev/src/libev/ev.c:3854-3871 | so does unlinking one from anywhere in the list |
| LoopState.ReifiedWorks | shadowsocksr-libev/src/libev/ev.c:2094-2121 | so does noting what the watchers of the first flagged fd want and dropping its flag |
| LoopState.FeedWorks | shadowsocksr-libev/src/libev/ev.c:1985-2002 | a feed of any watcher keeps the whole loop consistent, with one event more in the history |
| LoopState.ClearWorks | shadowsocksr-libev/src/libev/ev.c:3774-3800 | so does a clear, which takes just what the watcher was owed |
| LoopState.PopWorks | shadowsocksr-libev/src/libev/ev.c:3274-3292 | so does taking the last entry of the highest queue |
| LoopState.ResetWorks | shadowsocksr-libev/src/libev/ev.h:693-695 | so does setting up a watcher that is not active |
| LoopState.Untouched | shadowsocksr-libev/src/libev/ev.c:3093-3212 | an operation on watchers of one kind keeps the places of all others: the other heap, the other arrays, the lists of the fds |
| LoopState.QueuesKept | shadowsocksr-libev/src/libev/ev.c:3093-3100 | an operation that leaves pending fields and priorities alone keeps the queues, what is owed, and the fairness of the history |
| Expiry.FirstIsNext | shadowsocksr-libev/src/libev/ev.c:3320-3348 | the first watcher, if due, has not fired in this pass and comes next in the order of expiry, as nothing is rescheduled to the past |
| Expiry.TimersRepeated | shadowsocksr-libev/src/libev/ev.c:3334-3346 | fired timers: the new time is the later of time plus repeat and now, or what is left of a timer that is stopped |
| Expiry.RepeatFires | shadowsocksr-libev/src/libev/ev.c:3334-3344 | a repeating watcher fires: it gets its new time, stays active and is noted once |
| Expiry.LastFires | shadowsocksr-libev/src/libev/ev.c:3345-3346 | a watcher that does not repeat fires: it is cleared, stopped and noted once |
| Expiry.PassDone | shadowsocksr-libev/src/libev/ev.c:3320-3355 | after a pass exactly the watchers that were due have fired, in order of expiry and once each; no active one is due; those stopped are exactly the fired ones that do not repeat |
| Expiry.RunInOrder | shadowsocksr-libev/src/libev/ev.c:2004-2017 | whatever happens after the pass, of watchers of one priority that were not pending before, none is invoked before one that expired earlier, unless that one was cleared or it was itself cleared meanwhile |
| Expiry.PassQueues | shadowsocksr-libev/src/libev/ev.c:2004-2017 | feeding in reverse queues the one that expired first last, so that it is on top |
| Expiry.BothRun | shadowsocksr-libev/src/libev/ev.c:3274-3292 | of two of which neither was cleared both run, the earlier one first, once nothing is owed any more |
| Expiry.AllRun | shadowsocksr-libev/src/libev/ev.c:3274-3292 | the same for all that fired in a pass |
| Expiry.FiredIsPending | shadowsocksr-libev/src/libev/ev.c:2004-2017 | everything that fired is pending after the pass |
| EventLoop.Loop.constructor | shadowsocksr-libev/src/libev/ev.c:2913-2913 | a new loop with stopped watchers satisfies the whole invariant |
| EventLoop.Loop.EvVerify | shadowsocksr-libev/src/libev/ev.c:3093-3212 | the invariant implies all that ev_verify asserts: of every list of an fd, both heaps, all queues and all arrays, with their sizes; activecnt apart |
| EventLoop.Loop.UpHeap | shadowsocksr-libev/src/libev/ev.c:2319-2339 | the loop that moves a hole up computes Up, indices included |
| EventLoop.Loop.EarliestOfFour | shadowsocksr-libev/src/libev/ev.c:2250-2268 | both paths of the 4-heap find the first of the earliest children |
| EventLoop.Loop.EarliestOfChildren | shadowsocksr-libev/src/libev/ev.c:2240-2316 | the earliest child, for either arity and any number of children |
| EventLoop.Loop.DownHeap | shadowsocksr-libev/src/libev/ev.c:2240-2316 | the loop that moves a hole down computes Down, indices included |
| EventLoop.Loop.AdjustHeap | shadowsocksr-libev/src/libev/ev.c:2341-2348 | adjustheap in place computes Adjust |
| EventLoop.Loop.ReHeap | shadowsocksr-libev/src/libev/ev.c:2351-2361 | reheap in place computes Rebuilt |
| EventLoop.Loop.FeedEvent | shadowsocksr-libev/src/libev/ev.c:1985-2002 | for a watcher of any kind: keeps the invariant, computes Feed, and makes the loop of ev_invoke_pending look at all priorities again |
| EventLoop.Loop.Enqueue | shadowsocksr-libev/src/libev/ev.c:1985-2002 | the queue part in place, with room made for a new entry, computes Feed |
| EventLoop.Loop.ClearPending | shadowsocksr-libev/src/libev/ev.c:3774-3800 | keeps the invariant and returns just the events the watcher was owed |
| EventLoop.Loop.TimerStart | shadowsocksr-libev/src/libev/ev.c:3873-3895 | does nothing to an active timer; otherwise adds exactly it, with its time relative to now, and room for it |
| EventLoop.Loop.TimerStop | shadowsocksr-libev/src/libev/ev.c:3897-3925 | clears what is pending and removes exactly the timer, leaving it the time it had still to wait |
| EventLoop.Loop.TimerAgain | shadowsocksr-libev/src/libev/ev.c:3927-3952 | for all four cases, active or not and repeating or not: which timers are active, their times and what is pending |
| EventLoop.Loop.PeriodicStart | shadowsocksr-libev/src/libev/ev.c:3960-3989 | a stopped periodic joins the heap with the first time after now of its interval, its offset, or whatever its callback returns |
| EventLoop.Loop.PeriodicStop | shadowsocksr-libev/src/libev/ev.c:3991-4018 | clears what is pending and removes exactly the periodic, whose time stays |
| EventLoop.Loop.PeriodicAgain | shadowsocksr-libev/src/libev/ev.c:4019-4025 | a periodic is cleared and active afterwards, whether it was before or not, with a time calculated anew |
| EventLoop.Loop.Reschedule | shadowsocksr-libev/src/libev/ev.c:3427-3446 | after a clock jump every periodic has the time that its callback returns, or the next one of its interval, or the one it had; the heap is in order, and no other field changed |
| EventLoop.Loop.Recalculate | shadowsocksr-libev/src/libev/ev.c:3427-3444 | the loop over the heap gives each periodic its own new time, in its node as well |
| EventLoop.Loop.TimersReschedule | shadowsocksr-libev/src/libev/ev.c:3450-3461 | every timer has moved by the adjustment and the invariant holds |
| EventLoop.Loop.NeedSlots | shadowsocksr-libev/src/libev/ev.c:1955-1962 | an array gets room for as many watchers as asked for, and keeps those it has |
| EventLoop.Loop.ArrayStart | shadowsocksr-libev/src/libev/ev.c:4598-4611 | does nothing to an active watcher; otherwise puts it behind the others of its kind; the whole invariant holds |
| EventLoop.Loop.ArrayStop | shadowsocksr-libev/src/libev/ev.c:4613-4633 | clears what is pending; of its array exactly the watcher leaves, also if it is the last one, which takes its place; the whole invariant holds |
| EventLoop.Loop.TakeOut | shadowsocksr-libev/src/libev/ev.c:4580-4593 | the same in place, for idle watchers with their total |
| EventLoop.Loop.QueueEvents | shadowsocksr-libev/src/libev/ev.c:2019-2026 | every active watcher of a kind is owed the events on top of what it was, and nobody else is |
| EventLoop.Loop.IdleReify | shadowsocksr-libev/src/libev/ev.c:3294-3317 | idle watchers are fed exactly if nothing of their priority or above is pending, and just those of the highest priority that has any |
| EventLoop.Loop.NeedAnfds | shadowsocksr-libev/src/libev/ev.c:3842-3842 | new, zeroed anfds keep the invariant and ask the backend for nothing |
| EventLoop.Loop.FdChange | shadowsocksr-libev/src/libev/ev.c:2125-2137 | flags are added, and the fd is appended unless it waits already, with room for it |
| EventLoop.Loop.IoStart | shadowsocksr-libev/src/libev/ev.c:3828-3852 | the watcher becomes active, nothing else changes, the backend is not told yet, and the whole invariant holds |
| EventLoop.Loop.WlistDel | shadowsocksr-libev/src/libev/ev.c:3758-3772 | unlinking in place changes one link, from wherever in the list |
| EventLoop.Loop.IoStop | shadowsocksr-libev/src/libev/ev.c:3854-3871 | the watcher is cleared and becomes inactive, no other one does, the backend is not told yet, and the whole invariant holds |
| EventLoop.Loop.BackendModify | shadowsocksr-libev/src/libev/ev.c:2117-2118 | either backend updates the same abstract map |
| EventLoop.Loop.ReifyOne | shadowsocksr-libev/src/libev/ev.c:2094-2121 | the backend is told of a change only if there may be one, and stays right |
| EventLoop.Loop.FdReify | shadowsocksr-libev/src/libev/ev.c:2065-2122 | afterwards nothing waits, and what the backend is asked for is, for every fd, exactly what its active watchers want |
| EventLoop.Loop.InSync | shadowsocksr-libev/src/libev/ev.c:2065-2122 | with nothing waiting, the backend and the active watchers agree |
| EventLoop.Loop.FdEventNocheck | shadowsocksr-libev/src/libev/ev.c:2030-2043 | walks the list and feeds the queues, in its order, for those concerned |
| LoopFacts.HitsOwed | shadowsocksr-libev/src/libev/ev.c:2030-2043 | of the watchers of the loop, just the active ones of the fd are owed what they wait for of what happened, each once |
| LoopFacts.BitsHas | shadowsocksr-libev/src/libev/ev.c:2030-2043 | read and write are the bits EV_READ and EV_WRITE of the events, and no other bit is set |
| LoopFacts.MoreBits | shadowsocksr-libev/src/libev/ev.c:2030-2043 | events of one fd that are reported one after the other add up |
| LoopFacts.OneReportMore | shadowsocksr-libev/src/libev/ev.c:2045-2054 | after one more reported fd every watcher of the loop is owed just what it waits for among all that was reported of its fd so far, and nothing if its interest changed since |
| EventLoop.Loop.FdEvent | shadowsocksr-libev/src/libev/ev.c:2045-2054 | every active watcher of the fd that waits for some of what happened is owed just that on top of what it was, and nobody else is; nothing happens while the fd waits to be passed on |
| EventLoop.Loop.FeedFdEvent | shadowsocksr-libev/src/libev/ev.c:2056-2061 | the same for any number, also one that is no fd of the loop, and without regard to the flag |
| EventLoop.Loop.FdKill | shadowsocksr-libev/src/libev/ev.c:2139-2151 | all watchers of the fd are stopped; they are owed the error and nothing else, and what others are owed stays |
| EventLoop.Loop.Set | shadowsocksr-libev/src/libev/ev.h:693-695 | a watcher that is not active is set up, and nothing else changes |
| EventLoop.Loop.FeedReverseDone | shadowsocksr-libev/src/libev/ev.c:2011-2017 | every noted watcher is fed, once, and the first noted ends up on top of its queue |
| EventLoop.Loop.ExpireFirst | shadowsocksr-libev/src/libev/ev.c:3327-3350 | one round of the loop keeps all that holds of the pass so far |
| EventLoop.Loop.TimersReify | shadowsocksr-libev/src/libev/ev.c:3320-3355 | terminates; fires exactly the timers due, in order, each once; leaves none due; repeating ones stay active with their time plus repeat, or now if that is over, the others are stopped; each is owed EV_TIMER on top of what repeating ones were pending for |
| EventLoop.Loop.PeriodicsReify | shadowsocksr-libev/src/libev/ev.c:3383-3422 | the same for periodics: those with an interval get the first of its times after now, the others whatever their callbacks return, which must not be in the past |
| EventLoop.Loop.Take | shadowsocksr-libev/src/libev/ev.c:3283-3287 | takes the last entry of the highest non-empty queue and keeps the invariant |
| EventLoop.Loop.RunCallback | shadowsocksr-libev/src/libev/ev.c:3288-3288 | whatever a callback does to watchers of whatever kind keeps the invariant and leaves nothing queued above the current priority; whatever is taken from the script is performed, once and in order, also by callbacks that are called from within |
| EventLoop.Loop.InvokePending | shadowsocksr-libev/src/libev/ev.c:3274-3292 | terminates with all queues empty, also with re-entering callbacks; every invocation is fair; with idle callbacks the order is that of Drain |
| EventLoop.Loop.Start | shadowsocksr-libev/src/libev/ev.c:3828-3895 | starting a watcher of any kind from a callback makes it active unless an assertion would fail, keeps the invariant, and no negative repeat gets into a heap |
| EventLoop.Loop.Stop | shadowsocksr-libev/src/libev/ev.c:3854-3925 | stopping one makes it inactive and not pending, and keeps the invariant |
| EventLoop.Loop.Again | shadowsocksr-libev/src/libev/ev.c:3927-4025 | so does starting one again: a repeating timer and any periodic are active afterwards, another timer is not |
| EventLoop.Loop.PerformOne | shadowsocksr-libev/src/libev/ev.c:1985-4025 | what each action of a callback does to the watcher, and that it was performed |
| EventLoop.Loop.ReadClocks | shadowsocksr-libev/src/libev/ev.c:3464-3504 | the monotonic time is that of the first reading, and the other time follows from it for half a second after the last look; else both are those of the first reading that keeps the difference of the clocks within a second, or of the fourth one after a jump |
| EventLoop.Loop.TimeUpdate | shadowsocksr-libev/src/libev/ev.c:3464-3510 | the times are those of the readings, as for EventLoop.Loop.ReadClocks; periodics get new times exactly if the difference of the two clocks has changed by a second or more; timers stay as they are |
| LoopFacts.NotBeforeFirst | shadowsocksr-libev/src/libev/ev.c:3464-3510 | with a clock that does not go back the time is never before the first reading |
| EventLoop.Loop.TimersPass | shadowsocksr-libev/src/libev/ev.c:3672-3672 | a pass over the timers: which have fired, their new times, who is owed what; periodics stay as they are |
| EventLoop.Loop.PeriodicsPass | shadowsocksr-libev/src/libev/ev.c:3673-3675 | the same for periodics |
| EventLoop.Loop.WaitTime | shadowsocksr-libev/src/libev/ev.c:3596-3629 | the loop does not wait if told so, with an active idle watcher or without any watcher; else until the first of all active timers and periodics, no longer than 59.743 seconds and no shorter than told |
| EventLoop.Loop.PassOne | shadowsocksr-libev/src/libev/ev.c:2045-2054 | one reported fd: its watchers are owed what they wait for, unless the interest changed |
| EventLoop.Loop.PassOn | shadowsocksr-libev/src/libev/ev.c:3654-3654 | all that the backend reports: every active io watcher whose fd is not flagged is owed just the events it waits for among those reported of its fd, everyone else what it was |
| EventLoop.Loop.QueueAll | shadowsocksr-libev/src/libev/ev.c:3572-3585 | all active prepare or check watchers, and nobody else, are owed EV_PREPARE or EV_CHECK more |
| EventLoop.Loop.FilledIs | shadowsocksr-libev/src/libev/ev.c:4597-4611 | the array of a kind holds just its active watchers |
| EventLoop.Loop.RunPrepared | shadowsocksr-libev/src/libev/ev.c:3572-3579 | every active prepare watcher is invoked with EV_PREPARE, unless it is cleared first |
| EventLoop.Loop.BeforeWait | shadowsocksr-libev/src/libev/ev.c:3571-3654 | before the loop waits, all active prepare watchers have run or been cleared, the clocks are read, the backend is asked for exactly what the active watchers want, whatever the prepare watchers did, and the time to wait is right |
| EventLoop.Loop.FeedTimed | shadowsocksr-libev/src/libev/ev.c:3669-3675 | the clocks are read; exactly the timers that were active and due by then have fired, then exactly the periodics, which were settled anew if the clock jumped; each is owed its event more, and nobody else |
| EventLoop.Loop.FeedAll | shadowsocksr-libev/src/libev/ev.c:3669-3686 | for every watcher of the loop, what it is owed after the fds, the timers, the periodics, the idle and the check watchers were fed in this order: just what has happened for it |
| LoopFacts.FdsGetAnswered | shadowsocksr-libev/src/libev/ev.c:3654-3688 | every io event that was passed on is delivered to its watcher, unless that is cleared |
| LoopFacts.TurnAnswered | shadowsocksr-libev/src/libev/ev.c:3654-3688 | all that has happened in a turn is delivered: io events, expired timers and periodics, idle watchers in their turn, and all active check watchers |
| LoopFacts.TimersAnswered | shadowsocksr-libev/src/libev/ev.c:3672-3688 | every timer that was active and due at the first reading of a rising clock has fired and was invoked or cleared |
| EventLoop.Loop.AfterWait | shadowsocksr-libev/src/libev/ev.c:3654-3688 | whatever the callbacks do, in the end nothing is owed to anyone, and everything that has happened was delivered to its watcher, unless that was cleared: io events reported by the backend, timers due by the clock, periodics, idle and check watchers; expired watchers of one priority that were not pending run in the order of their expiry |
| Periodics.NextIsLeast | shadowsocksr-libev/src/libev/ev.c:3359-3381 | a time that is at most one interval after now is the first one after now |
| Periodics.NthIs | shadowsocksr-libev/src/libev/ev.c:3359-3381 | the times of a periodic are its offset and every interval from there on |
| Periodics.Recalc | shadowsocksr-libev/src/libev/ev.c:3359-3381 | the first of the times offset + k * interval after now; for intervals below MIN_INTERVAL some time after now and at most one interval later |
| WatcherArray.ActiveIsMember | shadowsocksr-libev/src/libev/ev.c:3117-3125 | a watcher is in the array exactly if it is active, and at one place only |
| WatcherArray.StartWorks | shadowsocksr-libev/src/libev/ev.c:4598-4611 | a watcher put behind the others and told its position keeps array_verify true |
| WatcherArray.StopWorks | shadowsocksr-libev/src/libev/ev.c:4613-4633 | so does moving the last one to the place of a stopped one, also if they are the same |
| WatcherArray.ClosedMembers | shadowsocksr-libev/src/libev/ev.c:4613-4633 | of the watchers of the array just the stopped one is missing afterwards |
| PollBackend.OneEntryEach | shadowsocksr-libev/src/libev/ev_poll.c:51-86 | poll is given exactly one entry for each fd with an interest, with just its events, and none for the others |
| PollBackend.Poll.Modify | shadowsocksr-libev/src/libev/ev_poll.c:51-86 | the map of interests is updated at the fd and nowhere else, over allocation, change and removal |
| PollBackend.Poll.NeedIndexes | shadowsocksr-libev/src/libev/ev_poll.c:42-59 | new indices are -1 and no interest changes |
| PollBackend.Poll.Remove | shadowsocksr-libev/src/libev/ev_poll.c:76-85 | closing the gap with the last entry drops just one interest |
| SelectBackend.Update | shadowsocksr-libev/src/libev/ev_select.c:128-134 | setting or clearing the bit of an fd in a word changes no other fd's |
| SelectBackend.FoundAll | shadowsocksr-libev/src/libev/ev_select.c:246-269 | what the scan stands for reports every ready fd once, with its own events, in descending order |
| SelectBackend.Select.Modify | shadowsocksr-libev/src/libev/ev_select.c:70-137 | the map of interests is updated at the fd and nowhere else, the same refinement as for poll |
| SelectBackend.Select.Grow | shadowsocksr-libev/src/libev/ev_select.c:111-126 | growing the vectors changes no interest |
| SelectBackend.Select.ScanWord | shadowsocksr-libev/src/libev/ev_select.c:256-267 | the scan of one word finds just its part |
| SelectBackend.Select.Scan | shadowsocksr-libev/src/libev/ev_select.c:246-269 | the scan over all words, skipping those without bits, finds all that is ready |
| FdInterest.UnionIs | shadowsocksr-libev/src/libev/ev.c:2108-2111 | an event is in the mask exactly if some watcher of the list wants it |
| FdInterest.HitsAre | shadowsocksr-libev/src/libev/ev.c:2030-2043 | a watcher is fed, once, exactly if it waits for some of what happened, and just with that |
| FdInterest.FlaggedListed | shadowsocksr-libev/src/libev/ev.c:2125-2137 | fd_change keeps an fd waiting exactly once exactly if it is flagged |
| FdInterest.StartWorks | shadowsocksr-libev/src/libev/ev.c:3828-3852 | a started watcher is on the list of its fd; every fd that is not flagged is up to date |
| FdInterest.StopWorks | shadowsocksr-libev/src/libev/ev.c:3854-3871 | a stopped watcher is on no list; every fd that is not flagged is up to date |
| FdInterest.SetWorks | shadowsocksr-libev/src/libev/ev.h:693-693 | setting up an inactive watcher disturbs nothing |
| FdInterest.ReifiedWorks | shadowsocksr-libev/src/libev/ev.c:2094-2121 | one fd passed on: its flag is gone and its events are those its watchers want |
| FdInterest.GrownWorks | shadowsocksr-libev/src/libev/ev.c:3842-3842 | new, zeroed anfds are in order |
| EpollBackend.Registered | shadowsocksr-libev/src/libev/ev_epoll.c:87-97 | a registration with a generation of its own keeps leftovers distinguishable |
| EpollBackend.HandledSound | shadowsocksr-libev/src/libev/ev_epoll.c:164-212 | handling any event, whatever the kernel forgot, keeps libev's picture right |
| EpollBackend.HandledNext | shadowsocksr-libev/src/libev/ev_epoll.c:164-212 | one more event: interest that nobody wants is withdrawn from the kernel exactly if it was reported |
| EpollBackend.NoOutdatedEvent | shadowsocksr-libev/src/libev/ev_epoll.c:173-184 | while an fd is registered an event is passed on exactly if it has the present generation, and never if it is a leftover's |
| EpollBackend.Epoll.Close | shadowsocksr-libev/src/libev/ev_epoll.c:40-64 | a close that libev does not see keeps its picture sound |
| EpollBackend.Epoll.Modify | shadowsocksr-libev/src/libev/ev_epoll.c:70-139 | with events wanted the kernel ends up with exactly these and the present generation, over ADD, MOD, ENOENT, EEXIST and dec_egen; with none wanted it is left alone |
| EpollBackend.Epoll.Register | shadowsocksr-libev/src/libev/ev_epoll.c:87-138 | the same, and by how much the generation grows |
| EpollBackend.Epoll.Reify | shadowsocksr-libev/src/libev/ev_epoll.c:70-139 | together with fd_reify: what the kernel reports on an fd is what is wanted |
| EpollBackend.Epoll.InSync | shadowsocksr-libev/src/libev/ev_epoll.c:40-64 | as long as the file of an fd is the one last registered, the kernel has just what is wanted |
| EpollBackend.Epoll.PollEvent | shadowsocksr-libev/src/libev/ev_epoll.c:164-212 | what is made of one event: passed on or dropped, and what libev and the kernel then hold |
| EpollBackend.Epoll.PollEvents | shadowsocksr-libev/src/libev/ev_epoll.c:164-212 | of all events of one wait just those are passed on that have the present generation and, if more was reported than is wanted, a registration; the kernel is left with just the wanted interest in those fds and unchanged in the others; the state is recreated exactly if there was a stray event |
| Buffers.Copied | shadowsocksr-libev/src/server/encrypt.c:1557-1645 | a copy inside a buffer changes that part only |
| Buffers.Moved | shadowsocksr-libev/src/server/encrypt.c:1557-1645 | an overlapping move changes the target part only |
| Buffers.Buffer.Realloc | shadowsocksr-libev/src/server/encrypt.c:267-278 | contents stay, and the capacity is enough for both arguments |
| ChunkHash.ParseSplit | shadowsocksr-libev/src/server/encrypt.c:1557-1613 | receiving two pieces one after the other is receiving them joined |
| ChunkHash.AnyPieces | shadowsocksr-libev/src/server/encrypt.c:1557-1613 | however a stream is cut, the receiver gets the same |
| ChunkHash.ParseChunks | shadowsocksr-libev/src/server/encrypt.c:1616-1645 | a stream of chunks is read back completely, with the counters of both ends equal |
| ChunkHash.RoundTrip | shadowsocksr-libev/src/server/encrypt.c:1557-1645 | any payloads of at most 65535 bytes, sent as chunks and received in any pieces, arrive unchanged and both ends count alike, modulo 2^32 |
| ChunkHash.FitsExactly | shadowsocksr-libev/src/server/encrypt.c:1619-1643 | a payload comes back if and only if it is shorter than 65536 bytes, as the length field has 16 bits |
| ChunkHash.Compacted | shadowsocksr-libev/src/server/encrypt.c:1599-1606 | the two moves put the payload behind the output and keep what is still to be read |
| ChunkHash.GenHash | shadowsocksr-libev/src/server/encrypt.c:1616-1645 | the buffer becomes a chunk in place, byte by byte the length, the keyed hash and the payload, every copy inside the reallocated capacity |
| ChunkHash.ChunkIs | shadowsocksr-libev/src/server/encrypt.c:1616-1645 | a chunk is two bytes of length, the more significant one first, ten of hash, and the payload |
| ChunkHash.Receiver.CheckHash | shadowsocksr-libev/src/server/encrypt.c:1557-1613 | the byte-by-byte loop accepts exactly the streams that the parser does, and leaves in place exactly the payloads completed, the incomplete chunk and the counter |
| ChunkHash.Receiver.Finish | shadowsocksr-libev/src/server/encrypt.c:1576-1607 | a complete chunk is accepted exactly if its hash is right, and compacted within the buffer |
| ChunkHash.Receiver.Collect | shadowsocksr-libev/src/server/encrypt.c:1568-1574 | one more byte is stored within capacity; the second one gives the length and makes room for the chunk |
| StreamCipher.XorTwice | shadowsocksr-libev/src/server/encrypt.c:293-308 | exclusive or undoes itself |
| StreamCipher.XorExactly | shadowsocksr-libev/src/server/encrypt.c:293-308 | a byte is the exclusive or of two others if and only if its bits are those in which they differ |
| StreamCipher.XoredIs | shadowsocksr-libev/src/server/encrypt.c:1229-1235 | byte by byte the text is the exclusive or of the message and the keystream from its position on |
| StreamCipher.XoredSplit | shadowsocksr-libev/src/server/encrypt.c:293-308 | a text under the keystream is its parts under the keystream from where they begin |
| StreamCipher.PaddingSkips | shadowsocksr-libev/src/server/encrypt.c:1223-1240 | padding of counter % 64 bytes, dropped afterwards, realises the keystream at any offset |
| StreamCipher.EncryptAny | shadowsocksr-libev/src/server/encrypt.c:1200-1261 | however the plaintext is cut, the output is the IV once and then the plaintext under the keystream |
| StreamCipher.EncryptedAnyIs | shadowsocksr-libev/src/server/encrypt.c:1200-1261 | however the plaintext is cut: behind the IV, sent once, byte i of the output is the exclusive or of byte i of the plaintext and of the keystream, which goes on where it was |
| StreamCipher.DecryptAny | shadowsocksr-libev/src/server/encrypt.c:1348-1420 | however the ciphertext is cut, the first piece holding the IV, the output is the same |
| StreamCipher.DecryptedAnyIs | shadowsocksr-libev/src/server/encrypt.c:1348-1420 | however the ciphertext is cut: the IV is what comes first, and byte i of the output the exclusive or of byte i behind it and of the keystream |
| StreamCipher.RoundTrip | shadowsocksr-libev/src/server/encrypt.c:1200-1420 | cut by the sender in one way and by the network in another, the plaintext comes back |
| StreamCipher.Cipher.Encrypt | shadowsocksr-libev/src/server/encrypt.c:1200-1261 | in place, with padding, moves and reallocations: the output, byte by byte the IV if it is the first piece and the plaintext under the keystream, and the new counter |
| StreamCipher.Cipher.EncryptBody | shadowsocksr-libev/src/server/encrypt.c:1222-1240 | the ciphertext goes behind the IV, at the keystream offset of the counter |
| StreamCipher.Cipher.Pad | shadowsocksr-libev/src/server/encrypt.c:1223-1229 | the text is moved up behind zeros |
| StreamCipher.Cipher.Place | shadowsocksr-libev/src/server/encrypt.c:1230-1240 | the padding of the output is dropped by moving the rest down |
| StreamCipher.Cipher.Decrypt | shadowsocksr-libev/src/server/encrypt.c:1348-1420 | in place: refused exactly if it is the first piece and its IV was seen before, otherwise the plaintext, byte by byte what follows the IV under the keystream, the new counter and the IV remembered |
| StreamCipher.Cipher.DecryptBody | shadowsocksr-libev/src/server/encrypt.c:1380-1399 | the plaintext of what follows the IV |
| TableCipher.MergedRanked | shadowsocksr-libev/src/server/encrypt.c:319-365 | merging keeps the order among elements of equal rank, left before right |
| TableCipher.MergedSorted | shadowsocksr-libev/src/server/encrypt.c:319-365 | merging sorted parts gives a sorted whole |
| TableCipher.MergedMembers | shadowsocksr-libev/src/server/encrypt.c:319-365 | merging neither loses nor adds elements |
| TableCipher.SortStable | shadowsocksr-libev/src/server/encrypt.c:367-389 | the merge sort is a stable sorting permutation |
| TableCipher.StableUnique | shadowsocksr-libev/src/server/encrypt.c:367-389 | there is only one stable sorting, so any stable sort gives the same tables |
| TableCipher.Merge | shadowsocksr-libev/src/server/encrypt.c:319-365 | the loops over two copies write just the merge, in place |
| TableCipher.MergeSort | shadowsocksr-libev/src/server/encrypt.c:367-389 | sorts a part of the array in place, for every length whose half fits a byte |
| TableCipher.EncTablePermutes | shadowsocksr-libev/src/server/encrypt.c:428-450 | for every key the table holds every byte exactly once |
| TableCipher.RankedBefore | shadowsocksr-libev/src/server/encrypt.c:332-389 | elements of equal rank keep their order |
| TableCipher.RoundIs | shadowsocksr-libev/src/server/encrypt.c:310-389 | one round sorts by the key modulo byte plus round, and keeps the order of bytes for which that is the same |
| TableCipher.TableIs | shadowsocksr-libev/src/server/encrypt.c:428-450 | the table comes out of 1023 such rounds, which begin with the bytes in their order |
| TableCipher.TableInit | shadowsocksr-libev/src/server/encrypt.c:428-450 | the two tables undo each other, for every key |
| TableCipher.Substitute | shadowsocksr-libev/src/server/encrypt.c:1262-1270 | a message is substituted in place |
| TableCipher.MessageRoundTrip | shadowsocksr-libev/src/server/encrypt.c:1421-1429 | messages round trip, in both directions |
| Crc32.StepsLinear | shadowsocksr-libev/src/server/crc32.c:3-17 | shifting is linear over exclusive or |
| Crc32.TakeBitsAtOnce | shadowsocksr-libev/src/server/crc32.c:19-26 | taking bits in one at a time is taking them all in at once |
| Crc32.TableStep | shadowsocksr-libev/src/server/crc32.c:19-26 | one look into the table does the work of eight bits of the definition in section 8 of RFC 1952 |
| Crc32.Before | shadowsocksr-libev/src/server/crc32.c:41-53 | from which register a byte leads to a given one |
| Crc32.AcceptedExactly | shadowsocksr-libev/src/server/auth.c:193-198 | a message with four more bytes has the checksum 0xFFFFFFFF if and only if these are the register of the message |
| Crc32.CrcExample | shadowsocksr-libev/src/server/crc32.c:1-40 | the checksum of one letter and its four bytes |
| Crc32.InitTable | shadowsocksr-libev/src/server/crc32.c:3-17 | fills the table with the bit-serial values |
| Crc32.Run | shadowsocksr-libev/src/server/crc32.c:19-26 | the table-driven loop computes the bit-serial register |
| Crc32.Compute | shadowsocksr-libev/src/server/crc32.c:19-26 | crc32 is the CRC of section 8 of RFC 1952 |
| Crc32.Fill | shadowsocksr-libev/src/server/crc32.c:41-53 | a filled buffer passes the test of the unpacker, and only four bytes change |
| Adler32.NmaxIsGreatest | shadowsocksr-libev/src/server/crc32.c:55-63 | n bytes after a reduction, whatever they are and whatever the sums were, never make the sums overflow 32 bits, if and only if n is at most 5552 |
| Adler32.MostIsReached | shadowsocksr-libev/src/server/crc32.c:55-63 | from the greatest sums there are, bytes of 255 reach the bounds exactly |
| Adler32.DeferOne | shadowsocksr-libev/src/server/crc32.c:55-63 | one more 32-bit addition without a reduction stays exact |
| Adler32.SumConcat | shadowsocksr-libev/src/server/crc32.c:65-76 | the sums can be taken block by block |
| Adler32.Short | shadowsocksr-libev/src/server/crc32.c:55-63 | a block of up to 5552 bytes with one reduction equals reducing after every byte |
| Adler32.Compute | shadowsocksr-libev/src/server/crc32.c:65-76 | adler32 is the checksum of section 2.2 of RFC 1950 |
| Adler32.AdlerExample | shadowsocksr-libev/src/server/crc32.c:65-76 | the checksum of three letters and its four bytes |
| Adler32.PackedBytes | shadowsocksr-libev/src/server/crc32.c:78-96 | four bytes make up a word if and only if they are its bytes |
| Adler32.Fill | shadowsocksr-libev/src/server/crc32.c:78-86 | the last four bytes become the checksum of the others |
| Adler32.Check | shadowsocksr-libev/src/server/crc32.c:88-96 | accepts exactly what filladler32 fills in |
| DnsName.ReadIsGood | shadowsocksr-libev/src/libudns/udns_dn.c:66-145 | whatever is read is a well-formed name within its room |
| DnsName.RoundTrip | shadowsocksr-libev/src/libudns/udns_dn.c:250-334 | reading the printed form of any well-formed name gives that name |
| DnsName.ByteTextIs | shadowsocksr-libev/src/libudns/udns_dn.c:250-282 | six special characters are escaped as they are, and what is not printable by its three digits |
| DnsName.LabelTextJoins | shadowsocksr-libev/src/libudns/udns_dn.c:250-282 | the text of a label is put together byte by byte |
| DnsName.TextJoins | shadowsocksr-libev/src/libudns/udns_dn.c:250-282 | the text of a name is that of its labels with a dot between them |
| DnsName.TextFits | shadowsocksr-libev/src/libudns/udns_dn.c:250-282 | the text of a well-formed name with its end has at most DNS_MAXNAME bytes |
| DnsName.Escape | shadowsocksr-libev/src/libudns/udns_dn.c:105-131 | one escape, of up to three digits or one other byte, or a bad one |
| DnsName.UnitIs | shadowsocksr-libev/src/libudns/udns_dn.c:114-139 | what stands for a byte: itself, or itself behind a backslash if it is no digit, or one to three digits there, as many as there are, up to 255 |
| DnsName.PToDn | shadowsocksr-libev/src/libudns/udns_dn.c:66-145 | result and buffer for every text and every size: malformed, no room, or the wire form with its lengths filled in afterwards, and whether the name is absolute |
| DnsName.Finish | shadowsocksr-libev/src/libudns/udns_dn.c:134-144 | the last label and the terminating byte |
| DnsName.DnToPSize | shadowsocksr-libev/src/libudns/udns_dn.c:250-282 | exactly the size of the text with its end, or 0 beyond DNS_MAXNAME |
| DnsName.DnToP | shadowsocksr-libev/src/libudns/udns_dn.c:287-334 | prints the name if and only if the room is at least that size, and then returns that size; otherwise which error |
| DnsName.DotAndLabel | shadowsocksr-libev/src/libudns/udns_dn.c:287-334 | a label behind its dot, or not enough room |
| DnsName.LabelToP | shadowsocksr-libev/src/libudns/udns_dn.c:298-327 | a label with its escapes, or not enough room |
| DnsName.ByteToP | shadowsocksr-libev/src/libudns/udns_dn.c:301-326 | a byte, backslashed or as a number where needed |
| DnsName.DnLen | shadowsocksr-libev/src/libudns/udns_dn.c:27-32 | the length of a name in wire form |
| DnsName.DnEqual | shadowsocksr-libev/src/libudns/udns_dn.c:41-55 | not 0 if and only if the names have the same labels but for case, and then their length |
| DnsName.SameNameIs | shadowsocksr-libev/src/libudns/udns_dn.c:41-57 | names are the same exactly if they have as many labels, as long ones, and the same bytes but for the case of the 26 letters |
| DnsName.EqualBytes | shadowsocksr-libev/src/libudns/udns_dn.c:49-53 | compares two labels without case |
| DnsPacket.ExpandedIsGood | shadowsocksr-libev/src/libudns/udns_parse.c:42-89 | what is expanded has labels of 1 to 63 bytes, and the cursor goes on, within the packet |
| DnsPacket.OverrunExactly | shadowsocksr-libev/src/libudns/udns_parse.c:57-63 | the end of a name is stored behind its room if and only if there is some room and the name, expanded with one byte more of it, has labels that fill the room; with a buffer of size 0 the test stops it |
| DnsPacket.OverrunExample | shadowsocksr-libev/src/libudns/udns_parse.c:57-63 | a packet with such a name, whose labels take 255 bytes |
| DnsPacket.OneByteMore | shadowsocksr-libev/src/libudns/udns_parse.c:42-89 | a name that overruns is the name that one byte more of room would give, with the same cursor |
| DnsPacket.Uncompressed | shadowsocksr-libev/src/libudns/udns_parse.c:42-89 | a name that stands in the packet as it is, is read as it is, and overruns exactly if its labels fill the room |
| DnsPacket.ReadAsStands | shadowsocksr-libev/src/libudns/udns_parse.c:42-89 | a name is read as it stands, piece by piece, wherever its pointers lead, if it fits and has at most 100 pointers; more of them are refused |
| DnsPacket.PiecesOf | shadowsocksr-libev/src/libudns/udns_parse.c:42-89 | whatever is read does stand there |
| DnsPacket.ExpandedExactly | shadowsocksr-libev/src/libudns/udns_parse.c:42-89 | a name is expanded if and only if it stands there, with at most 100 pointers of 14 bits to places behind the header, and fits |
| DnsPacket.OnePointer | shadowsocksr-libev/src/libudns/udns_parse.c:64-73 | labels with a pointer behind them, and the name at its offset |
| DnsPacket.GetDn | shadowsocksr-libev/src/libudns/udns_parse.c:42-89 | terminates on every packet, also with jumps in circles, and for every size of the buffer; the buffer holds just the name that stands there, pointers followed, and the cursor is behind it or behind its first pointer; a store behind the room is reported, which with a buffer of more than 255 bytes stays inside it; a buffer of size 0 gives 0 |
| DnsPacket.SkipDn | shadowsocksr-libev/src/libudns/udns_parse.c:28-40 | terminates on every packet and skips what Skip says |
| DnsPacket.SkipExactly | shadowsocksr-libev/src/libudns/udns_parse.c:28-40 | a name is skipped if and only if it consists of labels up to its end, or up to a pointer that is not the end of the packet |
| DnsPacket.SkipAgrees | shadowsocksr-libev/src/libudns/udns_parse.c:28-89 | whenever a name can be both expanded and skipped, the cursor ends up at the same place |
| DnsParse.FoldIs | shadowsocksr-libev/src/libudns/udns_parse.c:114-151 | all records found belong to the final name and match, in the order of the packet; the CNAMEs followed lead from the name sought to the final one, each owned by the name before; after the first match none is followed; the TTL is the least of those used |
| DnsParse.NextIsFold | shadowsocksr-libev/src/libudns/udns_parse.c:114-151 | repeated dns_nextrr goes through one fold over the answer section |
| DnsParse.FoundAll | shadowsocksr-libev/src/libudns/udns_parse.c:114-151 | from the first match on, and without a name, all records that have the name and match are found, and no others |
| DnsParse.FoundBehind | shadowsocksr-libev/src/libudns/udns_parse.c:114-151 | from the beginning: of the records behind the last CNAME that was followed, exactly those that have the final name and match are found; a prefix of them, if a CNAME is malformed |
| DnsParse.FoundInPacket | shadowsocksr-libev/src/libudns/udns_parse.c:114-151 | the data of every record found lies in the packet |
| DnsParse.ReadRr | shadowsocksr-libev/src/libudns/udns_parse.c:117-130 | for every packet: the fixed part of a record, or that it is malformed, or that its name overruns |
| DnsParse.MinTtlIs | shadowsocksr-libev/src/libudns/udns_parse.c:131-149 | the TTL is that of some record used, and none has a smaller one |
| DnsParse.RrReadBack | shadowsocksr-libev/src/libudns/udns_parse.c:117-130 | a record that was encoded behind its owner, which may be compressed, is read back |
| DnsParse.SectionReadBack | shadowsocksr-libev/src/libudns/udns_parse.c:114-151 | so are all records of a section, in order |
| DnsParse.ReplyReadBack | shadowsocksr-libev/src/libudns/udns_parse.c:100-112 | an encoded packet is parsed as such: its question, what is asked for, the number of answers, and all of them |
| DnsParse.ReadTarget | shadowsocksr-libev/src/libudns/udns_parse.c:140-147 | for every record: the target of a CNAME, which must fill it, or that it is malformed or overruns |
| DnsParse.Parser.constructor | shadowsocksr-libev/src/libudns/udns_parse.c:99-112 | the first state: what is asked for and how many answers there are |
| DnsParse.Parser.Rewind | shadowsocksr-libev/src/libudns/udns_parse.c:91-97 | back to the first state, whatever was read |
| DnsParse.Parser.NextRr | shadowsocksr-libev/src/libudns/udns_parse.c:114-151 | in place, for every packet: the next record of the fold, its end, or an error or overrun, and the state after it |
| DnsRecords.SizeItem | shadowsocksr-libev/src/libudns/udns_rr_naptr.c:66-85 | the first pass accepts a record exactly if its data is well-formed, and counts just its bytes; a name that overruns is told apart |
| DnsRecords.MxReadBack | shadowsocksr-libev/src/libudns/udns_rr_mx.c:43-73 | an encoded MX record gives its priority and the text of its name |
| DnsRecords.StringsAre | shadowsocksr-libev/src/libudns/udns_rr_txt.c:46-80 | encoded strings of a TXT record are joined |
| DnsRecords.TxtReadBack | shadowsocksr-libev/src/libudns/udns_rr_txt.c:46-80 | an encoded TXT record gives its joined strings and their length |
| DnsRecords.NaptrReadBack | shadowsocksr-libev/src/libudns/udns_rr_naptr.c:66-110 | an encoded NAPTR record gives order, preference, three strings and the text of its name, each at its offset |
| DnsRecords.ItemPlaced | shadowsocksr-libev/src/libudns/udns_rr_naptr.c:94-111 | the strings of every record are in the area where its entry says |
| DnsRecords.TailPlaced | shadowsocksr-libev/src/libudns/udns_rr_txt.c:81-81 | the texts of the final name and of the question are where cname and qname point |
| DnsRecords.SizeStrings | shadowsocksr-libev/src/libudns/udns_rr_txt.c:44-53 | the same for the strings of a TXT record |
| DnsRecords.GetStr | shadowsocksr-libev/src/libudns/udns_rr_naptr.c:33-49 | a string or its absence, whatever byte stands behind the data |
| DnsRecords.FillItem | shadowsocksr-libev/src/libudns/udns_rr_mx.c:66-73 | the second pass writes just the bytes that were counted and an entry that points to them |
| DnsRecords.FillStrings | shadowsocksr-libev/src/libudns/udns_rr_txt.c:69-80 | the strings of a TXT record, joined and ended |
| DnsRecords.FillNaptr | shadowsocksr-libev/src/libudns/udns_rr_naptr.c:101-110 | three strings and a name, one behind the other |
| DnsRecords.FirstPass | shadowsocksr-libev/src/libudns/udns_rr_naptr.c:63-89 | for every packet: succeeds exactly if the answer and all its records are well-formed, with the size of all strings; else, whether a malformed record or a name that overruns comes first |
| DnsRecords.CheckedIs | shadowsocksr-libev/src/libudns/udns_rr_naptr.c:63-89 | no record fails exactly if all are well-formed |
| DnsRecords.FirstWrong | shadowsocksr-libev/src/libudns/udns_rr_naptr.c:66-88 | the first pass fails for the first record that is not well-formed, and says whether a name overran |
| DnsRecords.VerdictIs | shadowsocksr-libev/src/libudns/udns_rr_naptr.c:66-91 | if there is none, it ends like the search for records |
| DnsRecords.SecondPass | shadowsocksr-libev/src/libudns/udns_rr_naptr.c:99-111 | visits the same records and fills the area up to exactly that size |
| DnsRecords.TailSize | shadowsocksr-libev/src/libudns/udns_parse.c:153-158 | the size of the names put behind |
| DnsRecords.Finish | shadowsocksr-libev/src/libudns/udns_parse.c:160-169 | the names put behind fill the rest of the area exactly |
| DnsRecords.ParseAnswer | shadowsocksr-libev/src/libudns/udns_rr_txt.c:41-83 | which of the results for every answer, and exactly when a name overruns its buffer; if there are records, the area is exactly full, with every string where its entry says and the names where cname and qname say |
| Query.FindServ | shadowsocksr-libev/src/libudns/udns_resolver.c:755-762 | the first server that is not to be skipped |
| Query.NextSrchValid | shadowsocksr-libev/src/libudns/udns_resolver.c:728-748 | a new name comes later in the list and starts anew with its servers |
| Query.SendLowers | shadowsocksr-libev/src/libudns/udns_resolver.c:843-868 | a timeout ends the query or leaves strictly less to do |
| Query.SendThisIs | shadowsocksr-libev/src/libudns/udns_resolver.c:768-837 | a server is asked exactly if the query can be sent; then it has one second to reply if there is another one in this round that is not skipped, else the timeout, doubled for every round before |
| Query.SendIs | shadowsocksr-libev/src/libudns/udns_resolver.c:843-868 | a query goes on exactly if a server is left in this round, or in a next one that there is; it is sent to the first of them, with that deadline |
| Query.WaitsDouble | shadowsocksr-libev/src/libudns/udns_resolver.c:812-824 | with a single server the waits double from one timeout to the next |
| Query.FirstWait | shadowsocksr-libev/src/libudns/udns_resolver.c:812-824 | a new query gives its only server the timeout as it is |
| Query.RefusalIs | shadowsocksr-libev/src/libudns/udns_resolver.c:1143-1199 | a server that refuses EDNS0 is asked again without it; any other failure has the server skipped, and the next one asked if no reply is awaited |
| Query.DefinitiveIs | shadowsocksr-libev/src/libudns/udns_resolver.c:1073-1141 | a reply with answers ends the query; any other definitive one leads to the next planned name, with all servers available again, or to the end with the right status |
| Query.AnswerLowers | shadowsocksr-libev/src/libudns/udns_resolver.c:1073-1200 | every accepted reply ends the query or leaves strictly less to do, in the order of names, tries, servers, EDNS0 refusals, servers awaited |
| Query.EveryQueryEnds | shadowsocksr-libev/src/libudns/udns_resolver.c:963-1238 | no run of a query is longer than a bound known at its start |
| Query.SendCosts | shadowsocksr-libev/src/libudns/udns_resolver.c:768-868 | every sending uses up some of what is left for the name |
| Query.SentAtMost | shadowsocksr-libev/src/libudns/udns_resolver.c:768-868 | at most (ntries + 1) * nserv sendings for a name, and the names tried are a prefix of the order |
| Query.PlanSuffixes | shadowsocksr-libev/src/libudns/udns_resolver.c:728-748 | after the name as it is only the suffixes that fit follow, in the order of the list |
| Query.PlanAsIsOnce | shadowsocksr-libev/src/libudns/udns_resolver.c:728-748 | otherwise the name as it is comes exactly once, at an empty entry of the list or at its end |
| Query.NextIsPlanned | shadowsocksr-libev/src/libudns/udns_resolver.c:728-748 | the next name is the next one of the plan, and the search ends with it |
| Query.SubmittedTracks | shadowsocksr-libev/src/libudns/udns_resolver.c:883-934 | a new query stands at the first name of its order |
| Query.NextTracks | shadowsocksr-libev/src/libudns/udns_resolver.c:1099-1141 | a definitive reply leads to the next name of the order, or comes when all were tried |
| Query.AnswerTracks | shadowsocksr-libev/src/libudns/udns_resolver.c:1073-1200 | NXDOMAIN is reported only if every name of the order got NXDOMAIN; NODATA only if every name got a definitive reply and one had no data |
| Query.TimeoutTracks | shadowsocksr-libev/src/libudns/udns_resolver.c:1205-1238 | a timeout changes neither name nor verdicts |
| QueryList.RemovedWorks | shadowsocksr-libev/src/libudns/udns_resolver.c:99-104 | unlinking keeps both directions of the list right and takes out just the query |
| QueryList.InsertedAfterWorks | shadowsocksr-libev/src/libudns/udns_resolver.c:106-127 | linking in anywhere keeps both directions of the list right |
| QueryList.QList.Remove | shadowsocksr-libev/src/libudns/udns_resolver.c:99-104 | the same, in place |
| QueryList.QList.AddHead | shadowsocksr-libev/src/libudns/udns_resolver.c:106-113 | the same, in place |
| QueryList.QList.InsertAfter | shadowsocksr-libev/src/libudns/udns_resolver.c:115-127 | the same, in place |
| Resolver.PutFiled | shadowsocksr-libev/src/libudns/udns_resolver.c:823-834 | a query put between neighbours that fit keeps the list sorted by deadline |
| Resolver.CutFiled | shadowsocksr-libev/src/libudns/udns_resolver.c:605-626 | a query taken out keeps the list sorted and complete |
| Resolver.TotalLess | shadowsocksr-libev/src/libudns/udns_resolver.c:1205-1238 | a sending or an end lowers what is left for all queries together |
| Resolver.Final | shadowsocksr-libev/src/libudns/udns_resolver.c:1099-1141 | the status of a query whose search is over is the right one for its verdicts |
| Resolver.NewName | shadowsocksr-libev/src/libudns/udns_resolver.c:1099-1141 | a query under its next name keeps its account |
| Resolver.Context.FindServer | shadowsocksr-libev/src/libudns/udns_resolver.c:755-762 | the loop computes FindServ |
| Resolver.Context.NextName | shadowsocksr-libev/src/libudns/udns_resolver.c:728-748 | the loop computes NextSrch |
| Resolver.Context.FindPlace | shadowsocksr-libev/src/libudns/udns_resolver.c:823-834 | from the tail on, the place behind all earlier and equal deadlines |
| Resolver.Context.Reposition | shadowsocksr-libev/src/libudns/udns_resolver.c:823-834 | the query goes to its place, and list, count and order stay right |
| Resolver.Context.Cancel | shadowsocksr-libev/src/libudns/udns_resolver.c:1312-1324 | takes out just that query and reports nothing |
| Resolver.Context.EndQuery | shadowsocksr-libev/src/libudns/udns_resolver.c:605-626 | takes out just that query and reports a fair status, before a callback that may submit and cancel |
| Resolver.Context.SubmitDn | shadowsocksr-libev/src/libudns/udns_resolver.c:883-934 | adds just that query, in front, with its first name |
| Resolver.Context.SendThisServer | shadowsocksr-libev/src/libudns/udns_resolver.c:768-837 | computes SendThis and keeps the invariant of the context; the server is asked, with one second to reply if there are others left in this round, else the timeout of this round |
| Resolver.Context.SendQuery | shadowsocksr-libev/src/libudns/udns_resolver.c:843-868 | computes Send and keeps the invariant of the context; a query that goes on was sent to the first server that is left, with the deadline of its round |
| Resolver.Context.HandleReply | shadowsocksr-libev/src/libudns/udns_resolver.c:1073-1200 | a reply that is not awaited changes nothing; an accepted one has just the effect of Answer |
| Resolver.Context.Definitive | shadowsocksr-libev/src/libudns/udns_resolver.c:1099-1141 | no data or no such name: the next name, or the end |
| Resolver.Context.WithoutEdns | shadowsocksr-libev/src/libudns/udns_resolver.c:1143-1161 | the same server is asked again without EDNS0, with a deadline like for any other sending |
| Resolver.Context.SkipServer | shadowsocksr-libev/src/libudns/udns_resolver.c:1172-1199 | a failing server is skipped, and the next one is asked if no reply is awaited |
| Resolver.Context.IoEvent | shadowsocksr-libev/src/libudns/udns_resolver.c:963-1202 | any replies keep the invariant, and every status reported is fair; if callbacks do nothing, the queries are just those that the replies, one after the other, leave |
| Resolver.Context.Timeouts | shadowsocksr-libev/src/libudns/udns_resolver.c:1205-1238 | terminates; every remaining deadline is after now; the wait is that for the earliest of them, narrowed to an int, or maxwait if that is shorter; if callbacks do nothing, queries that were not due stay as they are, and each one that was due was sent again under its name with the deadline of its round, or is gone and was reported as failed |
| Resolver.NarrowExactly | shadowsocksr-libev/src/libudns/udns_resolver.c:1225-1225 | the narrowed wait is the wait if and only if that is shorter than 2^31 seconds; otherwise it is too short, and negative up to 2^32 seconds, as if no query were left |
| Resolver.NarrowExample | shadowsocksr-libev/src/libudns/udns_resolver.c:1225-1225 | a timeout of one second gives such a wait in the 32nd round |
| Resolver.Context.TimeOne | shadowsocksr-libev/src/libudns/udns_resolver.c:1230-1233 | one due query is sent again or ended, and less is left for all queries together |
| Resolver.SentOnce | shadowsocksr-libev/src/libudns/udns_resolver.c:843-868 | a query that is sent again keeps its name and has less left, and a new deadline |
| Resolver.Context.HeadOf | shadowsocksr-libev/src/libudns/udns_resolver.c:1205-1238 | the head of the list has the earliest deadline of all queries |
| Framing.ParseSplit | shadowsocksr-libev/src/server/auth.c:585-921 | receiving two pieces one after the other is receiving them joined, errors included |
| Framing.FrameHead | shadowsocksr-libev/src/server/auth.c:483-504 | a packed frame says its own length and the place of its data, and has the right checks |
| Framing.FrameIs | shadowsocksr-libev/src/server/auth.c:483-504 | a frame byte by byte: its length in the byte order of the protocol, the check of that, the padding that says its length, the data, and the trailer over all of it |
| Framing.FrameBounds | shadowsocksr-libev/src/server/auth.c:483-504 | no frame is longer than 2009 bytes or than its share of the output buffer |
| Framing.ParseFrame | shadowsocksr-libev/src/server/auth.c:585-645 | a packed frame is read back as its data, whatever follows it |
| Framing.ParseStream | shadowsocksr-libev/src/server/auth.c:841-921 | a stream of frames is read back completely, with the counters of both ends equal |
| Framing.ParsePrefix | shadowsocksr-libev/src/server/auth.c:585-921 | no prefix of a stream is refused, and what is kept of it is less than a frame |
| Framing.DeliverAll | shadowsocksr-libev/src/server/auth.c:585-921 | pieces of a stream never meet a full receive buffer and together give what the stream gives |
| Framing.RoundTrip | shadowsocksr-libev/src/server/auth.c:483-921 | whatever the padding and however the stream is cut into pieces of at most 14376 bytes, the receiver gets exactly the data, without an error, and its recv_id stays in step with pack_id |
| Framing.StreamConcat | shadowsocksr-libev/src/server/auth.c:547-583 | the output of one call of client_pre_encrypt goes on where the one before ended |
| Framing.Local.constructor | shadowsocksr-libev/src/server/auth.c:28-41 | both counters begin at 1, with nothing received |
| Framing.Local.Padding | shadowsocksr-libev/src/server/auth.c:491-500 | padding with its own length in its first one or three bytes |
| Framing.Local.PackData | shadowsocksr-libev/src/server/auth.c:648-691 | writes one frame within the room for it, with an allowed padding, and counts it |
| Framing.Local.PackAuthData | shadowsocksr-libev/src/server/auth.c:506-545 | the first packet byte by byte: length and its check, padding, time and ids, the data and the hash over all of it; at most 1059 bytes longer than the data |
| Framing.Local.RandLen | shadowsocksr-libev/src/server/auth.c:484-484 | the length of the padding is one of those that the data allows |
| Framing.Local.PackFirstV4 | shadowsocksr-libev/src/server/auth.c:506-545 | the first packet of auth_sha1_v4 |
| Framing.Local.PackFirstAes | shadowsocksr-libev/src/server/auth.c:693-801 | the first packet of auth_aes128_sha1 |
| Framing.HeadIsAddress | shadowsocksr-libev/src/server/obfsutil.c:1-12 | the head that goes into the first packet is the address, if and only if that is not a domain of 128 bytes or more; then its size is 256 bytes less, and negative exactly up to 251 bytes |
| Framing.NoAddress | shadowsocksr-libev/src/server/obfsutil.c:1-12 | what is no address has a head of the given size |
| Framing.HeadSizeExample | shadowsocksr-libev/src/server/obfsutil.c:9-10 | a domain of 130 bytes gives a head of -122 bytes |
| Framing.Local.SizeOfHead | shadowsocksr-libev/src/server/auth.c:555-558 | the size of the head, but no more than there is |
| Framing.Local.PreEncrypt | shadowsocksr-libev/src/server/auth.c:803-839 | for any input the output fits 2 * n + 4096 bytes and is the first packet with just the head of the data, if it was not sent, and then frames of exactly the rest; a head of negative size is a fault |
| Framing.Local.PackUnits | shadowsocksr-libev/src/server/auth.c:565-574 | units of 2000 bytes and a rest, each behind the other within the buffer |
| Framing.Local.PostDecrypt | shadowsocksr-libev/src/server/auth.c:841-921 | in place, for every stream: the data of all complete frames, the incomplete one and the counter; an error exactly if there is no room or a check is wrong; a fault exactly if a frame has a padding that reaches behind it |
| Framing.Local.FrameLength | shadowsocksr-libev/src/server/auth.c:597-617 | a frame is refused exactly if its check is wrong, its length out of bounds, or, once it is complete, its trailer wrong |
| Framing.Local.MoveDown | shadowsocksr-libev/src/server/auth.c:630-630 | what is behind a frame moves to the front |

## Left out

Where the code and its own documentation or evident intention differ, the code is followed:

- The context-wide DNS_NOSRCH setting of the resolver has no effect in the code, which tests the flags of the call only
  (shadowsocksr-libev/src/libudns/udns_resolver.c:911); neither has it in the model.
- DnsPacket.GetDn: what memory a store behind the buffer changes is not modelled; that it happens is reported, and
  DnsPacket.OverrunExactly says when. Decoders stop there, as the program's behaviour is not defined any more.
- DnsRecords.ParseAnswer: requires a question that is not compressed, as the code prints it from the packet.
- Resolver.Context.Timeouts: the code narrows the wait to an int, which Resolver.NarrowExactly shows to be right only
  for waits of less than 2^31 seconds.
- ChunkHash.RoundTrip: payloads of 65536 bytes and more do not come back; ChunkHash.FitsExactly says so exactly.

Event loop:

- Watchers are records in a store under their identity, which from the beginning has all that are ever used; reallocated
  arrays are sequences with a capacity. Aliasing of watcher memory is not captured.
- Times are reals, without rounding; so the way out of periodic_recalc when adding the interval changes nothing is
  not needed. Generations and array sizes do not wrap.
- Priorities are within their bounds (pri_adjust changes nothing) and do not change; ev_ref and ev_unref, which may let
  activecnt become anything, are not modelled.
- The heap functions take and return the sequence of nodes; whose heap it is, is with their callers.
- Signal, child, stat and embed watchers are there and may be fed and invoked, but are not started or stopped.
- The system calls, loop_fork and EV_FORK, io_blocktime, ev_break, time_update without a monotonic clock, the kqueue,
  event port and Windows backends, and destroying a loop.
- EventLoop.Loop.RunCallback: what callbacks do is a finite script of feeds, clears, settings, starts, stops, restarts
  and re-entries; starts that would fail an assertion are left out of it.
- EventLoop.Loop.AfterWait: what the backend reports is an argument; poll_poll's way through its array and POLLNVAL are
  not modelled, nor the FD_SET form of select, whose words have 64 bits here.
- EpollBackend.Epoll.Modify: does not model EPERM, the call of fd_kill (which is EventLoop.Loop.FdKill) and the
  rebuilding after a fork; attaching again a file that had been registered under the same fd number is outside the
  kernel described here.
- Wakeup.NoLostWakeup: assumes sequential consistency, which the source asks for by its fences.
- Wakeup.FedWhileSending: a sender that has taken back pipe_write_skipped and is not yet done writing may keep the
  loop from noticing for as long as it is held up, so no bound on the passes is stated for it.

Resolver:

- HandleReply is given the query that a reply belongs to: query IDs, the comparison of the question, addresses of
  servers, and the formatting of queries are not modelled. Sockets and user timers neither.
- The value of a shift by 32 bits or more, which C does not define, is an arbitrary one.
- Settings do not change while queries are active. `now == 0`, which stands for the present time, is not used.
- Query.AnswerTracks: a positive reply ends the query as Parsed; what its decoder then reports, which may be NODATA, is
  that of DnsRecords.ParseAnswer.
- The layout of results in memory and failing allocations; the A, AAAA, PTR and SRV decoders, which add easy members;
  reverse names; inet_XtoX.c.
- Resolver.Context.IoEvent: callbacks are a finite script of submissions and cancellations.

Framing and ciphers:

- Keyed hashes and keystreams are functions, random numbers arbitrary; that of a given cipher wraps its block counter
  is not modelled. Other ciphers and the whole-packet functions are left out.
- StreamCipher.Cipher.Decrypt: does not model eviction from the cache of IVs; the first piece must hold the whole IV, as
  the source assumes.
- ChunkHash.Receiver.CheckHash: requires a capacity of at least two bytes, which all callers pass; sizes do not overflow
  an int.
- TableCipher.TableInit: begins with the key, without its derivation from the password.
- Framing.Local.PackAuthData: the time and the ids, and for auth_aes128_sha1 their encryption, are arbitrary; the reader of
  this packet is not part of the repository.
- Framing.Local.PreEncrypt: what follows a head of negative size is not modelled; Framing.HeadIsAddress says exactly when
  there is one.
- Framing.Local.PostDecrypt: what follows a frame whose padding reaches behind it, which no packer makes, is not modelled.
- The other authentication variants have the same shape; UDP packets; the reallocation of the caller's buffer.
- server.c, cache.c, acl.c, rule.c, list.c, base64.c, jconf.c and the HTTP and TLS scanners.

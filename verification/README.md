# Verification of the queue, RCU, wait-queue and device code

This project models the concurrent and stateful code of a collection of Linux kernel modules and proves what that code
keeps over every run. It has one module per file; `dafny verify dfyconfig.toml` checks all of them.

- **`ku_ipc`, concurrent** (`IpcProtocol`, `IpcFifo`, `IpcAccounts`, `IpcVolume`, `IpcWakeups`, `IpcProgress`,
  `IpcReach`, `IpcLimits`, `IpcOverlap`, `IpcClose`). One queue as a step machine: any number of processes open and close it and run
  `message_send` and `message_receive`, and each test, each change of a counter, each copy, each list operation and each
  `wake_up` is one step; the spin lock keeps other processes out between the two counter updates it covers, and a signal
  ends a sleep with a close, unless the condition waited for has come true. Results are about every reachable state:
  order per type, exactly-once delivery, valid entries, the meaning of `queue_count` and `queue_vol`, how far they can
  pass their limits, wake-ups, and what a call goes on to do. The bound on `queue_count` and the receivers' wake-ups need
  no condition. What does need one is settled as a bound on the sends and
  receives in flight and on the users, and that bound is proved to be exact: within it the property holds in every run,
  and beyond it a run of the machine is built in which it fails.
- **`ku_ipc`, sequential** (`Messages`, `Registry`, `IpcMailbox`, `IpcKernel`, `IpcLibrary`, `IpcSolo`). The abstract mailbox, the
  kernel entry points as a class with the pid array, the counters and the list changed in place, and the library on top
  of ten such queues. `IpcSolo` closes the triangle: a call of the step machine that nobody interrupts does what the
  mailbox says, so the concurrent and the sequential model are about the same code.
- **RCU list and RCU cell** (`RcuList`, `RcuListDevice`, `RcuCell`). Readers walk or dereference without a lock while a
  writer replaces, waits for a grace period and frees. Memory is a map from addresses, so a use after free is visible.
- **Wait-queue counter** (`WaitCounter`): test and decrement as separate steps, ordinary and exclusive sleepers.
- **DHT11** (`Dht11`, `Dht11Frame`): the decoding loops over an arbitrary wire, and the frames they decode.
- **Stepper motor** (`Stepper`) and **ultrasonic echo** (`Echo`).
- `Tally` holds the sums over processes that the counting arguments share, `CInt` the integer arithmetic of C.

Assumptions that the statements carry:

- A step of a machine is atomic. The spin lock of `ku_ipc` is part of its machine, so the runs built for the failing
  and sharp cases respect it.
- A process that uses an entry which another receiver has unlinked and freed, or the null entry, stops the machine of
  `ku_ipc`: the code is undefined from there on. A message counts as delivered when it was copied to the receiver.
  The runs built for the failing cases contain no such use before the failure they show.
- The results about order, delivery and valid entries are stated for runs in which at most one receiver of the queue
  stands between finding its entry and unlinking it (`OneHolder`), however many sleep; the code does not enforce this.
  `DeliveryExactly` and `PointersExactly` say the same in receives in flight: at most one.
- A process of the step machine is its own pid, and an open or a close changes the registry in one step. A close while
  all 16 slots are in use writes the slot after `using_pid`, which is `queue_count`, and wakes nobody. With fewer than 16
  users that cannot happen; `AccountsExactly`, `WakeupsExactly`, `VolumeTestExactlyInert`, `VolumeExactlyBounded` and
  `SequentialLimits` say that 16 users are exactly what breaks the accounts, the senders' wake-ups and the limits.
- The 32-bit product in the stepper's loop bound wraps around, as in a kernel built with `-fno-strict-overflow`.
- A negative receive type picks the first message with a type strictly below its absolute value, as the code does. This
  is not the rule of `msgrcv()` in POSIX.1-2017, System Interfaces, section 3, which takes the lowest type that is at
  most that value.
- Copies from and to the caller, signals, the order in which an exclusive waiter is picked, addresses returned by the
  allocator, clock readings and the level of a pin are inputs, so results hold for all of them.

## Model

| member | source | states |
|---|---|---|
| Messages.FirstWanted | Challenge1/ku_ipc.c:216-233 | the position returned is wanted and no earlier entry is; the length when nothing is wanted |
| Messages.SelectionRule | Challenge1/ku_ipc.c:216-244 | a receive of 0 selects the first entry, of t the first entry of type t, of -t the first entry of a type strictly below t, and nothing exactly when there is no such entry |
| IpcProtocol.LockExcludes | Challenge1/ku_ipc.c:185-188 | a check of the model rather than of the code: the machine's runs respect the spin lock, so that in no reachable state two processes are between the counter updates it covers |
| IpcProtocol.LockIsReleased | Challenge1/ku_ipc.c:185-202 | in every reachable state a process that spins on the lock is let go by the next step of the one that holds it |
| IpcFifo.SelectionLeads | Challenge1/ku_ipc.c:216-244 | whatever the type argument, the entry selected is the oldest of its own type |
| IpcFifo.UnlinkKeepsOrder | Challenge1/ku_ipc.c:309 | unlinking the oldest entry of a type takes it from the front of that type's queue and leaves every other type's queue alone |
| IpcFifo.OwnStepSound | Challenge1/ku_ipc.c:242-309 | a receiver's entry stays queued and the oldest of its type at each of its own steps up to the unlink |
| IpcFifo.OtherStepSound | Challenge1/ku_ipc.c:162-315 | no step of another process spoils the entry a receiver relies on while it is the only holder |
| IpcFifo.PerTypeFifo | Challenge1/ku_ipc.c:210-309 | in every run with one holder at a time the appended entries of a type are the delivered ones followed by those not yet delivered, in order |
| IpcFifo.ExactlyOnce | Challenge1/ku_ipc.c:210-314 | in those runs every appended entry is either delivered once or waiting once |
| IpcFifo.NothingUndefined | Challenge1/ku_ipc.c:280-311 | in those runs no freed or null entry is ever used |
| IpcFifo.EntriesAreValid | Challenge1/ku_ipc.c:242-311 | in those runs no process is about to use one: a woken type 0 receive finds an entry, and an entry found stays queued until its receiver unlinks it |
| IpcOverlap.OverlappingReceivesDeliverTwice | Challenge1/ku_ipc.c:242-307 | any two receives that want one queued message and have room for it can both deliver it and bring `queue_count` to -1 with the message still queued |
| IpcOverlap.OverlapUsesFreedEntry | Challenge1/ku_ipc.c:305-311 | the second of them then unlinks an entry that is already freed |
| IpcOverlap.OverlapSelectsNull | Challenge1/ku_ipc.c:252-280 | any waiting type 0 receive can select the null entry when another receive takes the message that woke it |
| IpcOverlap.DeliveryExactly | Challenge1/ku_ipc.c:235-315 | order in each type holds in every run with at most N receives in flight if and only if N is at most 1, and so does delivery exactly once |
| IpcOverlap.PointersExactly | Challenge1/ku_ipc.c:252-311 | no freed entry is used in any run with at most N receives in flight if and only if N is at most 1, and no null entry is selected if and only if N is at most 1 |
| IpcAccounts.LocalShares | Challenge1/ku_ipc.c:185-206 | each step moves the counters and its process's share of them by the same amounts, list changes included |
| IpcAccounts.AccountedStep | Challenge1/ku_ipc.c:185-309 | with fewer than 16 users every step keeps the equations for both counters, whoever else sends, receives or closes |
| IpcAccounts.ConcurrentAccounting | Challenge1/ku_ipc.c:185-309 | in every reachable state, with any number of senders and receivers and fewer than 16 users, `queue_count` is the list length plus the sends that counted and did not append or roll back, minus the receives that un-counted and did not unlink; `queue_vol` is the matching sum of sizes |
| IpcAccounts.CountOvershoot | Challenge1/ku_ipc.c:168-187 | with at most N sends in flight `queue_count` never exceeds KUIPC_MAXMSG + N, whatever receivers and closes do |
| IpcVolume.StaleStep | Challenge1/ku_ipc.c:304-311 | of at most R receives in flight never all rely on entries that others have unlinked |
| IpcVolume.VolumePerMessage | Challenge1/ku_ipc.c:185-188 | where the accounts are exact, sizes are the library's and at most R receives are in flight, `queue_vol` is at most 128 for each message counted or about to be counted and for each receive but one |
| IpcVolume.VolumeOvershoot | Challenge1/ku_ipc.c:168-188 | with at most N sends and R receives in flight and fewer than 16 users `queue_vol` is at most 128 * (KUIPC_MAXMSG + N + max(R, 1) - 1) |
| IpcVolume.NeverRefused | Challenge1/ku_ipc.c:168-172 | with N + max(R, 1) at most 10 and fewer than 16 users the volume test refuses no library-sized message in any reachable state |
| IpcVolume.StaysBelow | Challenge1/ku_ipc.c:168-186 | with N + max(R, 1) at most 10 and fewer than 16 users, or one send at a time, `queue_vol` stays below KUIPC_MAXVOL in every reachable state |
| IpcLimits.CountOvershootIsReached | Challenge1/ku_ipc.c:168-188 | the count bound is sharp: for each N there is a run with N sends in flight that brings `queue_count` to KUIPC_MAXMSG + N |
| IpcLimits.RefusalIsReached | Challenge1/ku_ipc.c:168-187 | for each N from 1 to 10 a run with N sends and 11 - N receives in flight, none for N = 10, and no users, in which a library-sized message is refused for its volume; one send at a time is enough |
| IpcLimits.VolumeLimitIsReached | Challenge1/ku_ipc.c:168-187 | for each N from 2 to 10 such a run in which `queue_vol` is KUIPC_MAXVOL |
| IpcLimits.CloseLeadsToRefusal | Challenge1/ku_ipc.c:158-172 | with 16 users a close leads to such a refusal with one send at a time and no receive |
| IpcLimits.CloseLeadsToVolumeLimit | Challenge1/ku_ipc.c:158-187 | and with two sends to a `queue_vol` of KUIPC_MAXVOL |
| IpcLimits.VolumeTestExactlyInert | Challenge1/ku_ipc.c:158-172 | the volume test decides nothing in any run with at most N sends and R receives in flight and U users if and only if N is 0, or N + max(R, 1) is at most 10 and U is below 16 |
| IpcLimits.VolumeExactlyBounded | Challenge1/ku_ipc.c:158-187 | `queue_vol` stays below KUIPC_MAXVOL in every such run if and only if N is at most 1, or N + max(R, 1) is at most 10 and U is below 16 |
| IpcClose.CloseSpoilsAccounts | Challenge1/ku_ipc.c:158 | a run with 16 users after which a message is queued, nothing is in flight and `queue_count` reads 0 |
| IpcClose.CloseForgetsSender | Challenge1/ku_ipc.c:158-172 | a run with 16 users after which a sender sleeps, not woken, although it would be admitted, and no process is on its way to wake it |
| IpcClose.AccountsExactly | Challenge1/ku_ipc.c:135-309 | the accounts are exact in every run with at most U users if and only if U is below 16 |
| IpcClose.WakeupsExactly | Challenge1/ku_ipc.c:135-312 | no sender is left asleep without a process on its way to wake it in any run with at most U users if and only if U is below 16 |
| IpcWakeups.StepKeepsPromises | Challenge1/ku_ipc.c:168-312 | room appears only on the way to waking senders, an entry only on the way to waking receivers, and a process sleeps only on a condition it found false |
| IpcWakeups.WakeReaches | Challenge1/ku_ipc.c:206-312 | a `wake_up` marks every waiter on its queue as woken, and no step changes anything else of another process |
| IpcWakeups.NoLostSenderWakeup | Challenge1/ku_ipc.c:158-206 | with fewer than 16 users, a sleeping sender that would be admitted and is not woken has another process on its way to its wake-up, the failed copy included |
| IpcWakeups.NoLostReceiverWakeup | Challenge1/ku_ipc.c:210-266 | a sleeping receiver with a wanted message queued that is not woken has a sender about to wake it |
| IpcProgress.CourseGoesOn | Challenge1/ku_ipc.c:185-314 | in every run, whatever others do meanwhile, an admitted send appends its message with the fourth of its next five steps and then returns, a failed copy leaves the accounts and wakes the senders in three, and a receive that has delivered its entry unlinks it and returns in four; each own step is the next one |
| IpcMailbox.SendThenReceive | Challenge1/ku_ipc.c:162-315 | a message sent and received by a call that wants it comes back cut to the caller's buffer, and the queue is as before: the whole message and its full size leave; without NOERROR a short buffer leaves the queue with the message in it |
| IpcMailbox.SendReplies | Challenge1/ku_ipc.c:162-214 | a send replies 0 exactly when count and volume leave room and the copy succeeds, and then its message is the last one and counted; else it replies -1 and changes nothing, except that a wait ends with a close |
| IpcMailbox.ReceiveReplies | Challenge1/ku_ipc.c:235-315 | a receive replies the number of bytes copied and takes its entry out exactly when it finds one that fits or may be cut and the copy succeeds; else it replies -1 and changes nothing, except that a wait ends with a close |
| IpcMailbox.CloseRemovesCaller | Challenge1/ku_ipc.c:135-160 | close takes out the caller's slot and keeps the order of the rest, replies 0 exactly for registered callers, keeps messages and volume, and zeroes the count exactly with 16 users |
| IpcMailbox.RegistryAlways | Challenge1/ku_ipc.c:93-178 | after every run of calls the used slots are free of duplicates and at most 16, closes forced by signals included |
| IpcMailbox.BalanceKeptExactly | Challenge1/ku_ipc.c:158 | a call keeps `queue_count` and `queue_vol` exact if and only if it is not a close by a user of a queue with 16 users and messages |
| IpcMailbox.CountCanBeClobbered | Challenge1/ku_ipc.c:158 | a run of calls after which a message is queued and `queue_count` reads 0 |
| IpcMailbox.SequentialLimits | Challenge1/ku_ipc.c:158-188 | called one after the other, library sends are refused exactly at KUIPC_MAXMSG + 1 messages, whatever their sizes, with the accounts exact, in every run with at most U users registered if and only if U is below 16 |
| IpcMailbox.LimitIsPassed | Challenge1/ku_ipc.c:158-188 | sixteen users, a full queue, a close and one more send leave KUIPC_MAXMSG + 2 messages |
| IpcKernel.MsgQueue.constructor | Challenge1/ku_ipc.c:74-81 | a queue starts without users, messages and volume |
| IpcKernel.MsgQueue.CheckPid | Challenge1/ku_ipc.c:93-104 | the scan answers whether the caller is not among the users |
| IpcKernel.MsgQueue.GetCreate | Challenge1/ku_ipc.c:106-120 | the queue id and one more user for a caller that is not registered while fewer than 16 are, and -1 and no change else: the mailbox's create |
| IpcKernel.MsgQueue.GetExcl | Challenge1/ku_ipc.c:122-133 | reply and new state are the mailbox's exclusive create: it succeeds exactly on an unused queue, and then the caller is its only user |
| IpcKernel.MsgQueue.LastSlot | Challenge1/ku_ipc.c:140-146 | the scan keeps the last slot of the caller, -1 when there is none |
| IpcKernel.MsgQueue.ShiftDown | Challenge1/ku_ipc.c:153-156 | the shift takes one slot out of the used ones, in order |
| IpcKernel.MsgQueue.MessageClose | Challenge1/ku_ipc.c:135-160 | reply and new state are the mailbox's close: 0 exactly for registered callers, whose last slot is taken out, and a count of 0 after a close with 16 users |
| IpcKernel.MsgQueue.MessageSend | Challenge1/ku_ipc.c:162-214 | reply and new state are the mailbox's send: 0 exactly when the list grew by the caller's message, which is when count and volume leave room and the copy succeeds, and -1 else; rollback of a failed copy and the close by a signal; a negative size fails its copy |
| IpcKernel.MsgQueue.FindCurrentList | Challenge1/ku_ipc.c:216-244 | the loop finds the first entry for the type argument, in terms of the types: any for 0, type t for t, a type strictly below t for -t, and -1 exactly when there is none |
| IpcKernel.MsgQueue.Deliver | Challenge1/ku_ipc.c:287-309 | the caller gets the bytes, the entry leaves the list and its whole size leaves the accounts |
| IpcKernel.MsgQueue.MessageReceive | Challenge1/ku_ipc.c:235-315 | the entry taken is the first one for the type argument, in terms of the types; the reply is its size or the buffer's, and -1 with the list as it was when there is none, it does not fit or the copy fails; reply, new state and the caller's buffer are the mailbox's receive: a message that fits overwrites one byte more than it has and the rest of the buffer is unchanged |
| IpcLibrary.Device.constructor | Challenge1/ku_ipc.c:356-364 | ten empty queues that share nothing |
| IpcLibrary.Client.MsgGet | Challenge1/ku_ipc_lib.c:70-103 | checks, registration and `fd` for every combination of arguments and every result of `open()`, descriptor 0 included; other queues untouched |
| IpcLibrary.Client.MsgClose | Challenge1/ku_ipc_lib.c:105-113 | refused for a bad queue or without `fd`, and else the mailbox's close; other queues untouched |
| IpcLibrary.Client.MsgSnd | Challenge1/ku_ipc_lib.c:116-150 | accepted exactly for good arguments, and then the mailbox's send of the first `msgsz` bytes: it replies 0 exactly when the list grew by the message; other queues untouched |
| IpcLibrary.Client.MsgRcv | Challenge1/ku_ipc_lib.c:153-186 | accepted exactly for good arguments, and then the mailbox's receive into the caller's buffer, the byte after a message that fits included; other queues untouched |
| IpcLibrary.Exchange | Challenge1/ku_ipc_lib.c:116-186 | one process's send replies 0 and another's matching receive returns the first bytes and their number, and all ten queues end as they began |
| IpcSolo.AdmittedSend | Challenge1/ku_ipc.c:168-213 | a send that finds room at any of its tests, called, waiting, woken or after a signal, ends by its own steps with its message appended and counted, or with nothing changed when its copy fails |
| IpcSolo.RefusedSleeps | Challenge1/ku_ipc.c:172 | a waiting send without room falls asleep and keeps a wake-up that came meanwhile |
| IpcSolo.ResumedSend | Challenge1/ku_ipc.c:172-213 | a sleeping send that is woken goes through when there are at most 10 messages and less than 2560 bytes with its own, and sleeps again else; after a signal it goes through as well, or closes the queue |
| IpcSolo.FoundReceive | Challenge1/ku_ipc.c:242-314 | a receive whose entry is there at any of its searches, called, waiting, woken or after a signal, ends by its own steps with that entry delivered and out of list and accounts, or with nothing changed when it does not fit or its copy fails |
| IpcSolo.MissedSleeps | Challenge1/ku_ipc.c:252-266 | a waiting receive without an entry falls asleep and keeps a wake-up that came meanwhile |
| IpcSolo.ResumedReceive | Challenge1/ku_ipc.c:252-314 | a sleeping receive that is woken takes the first wanted entry when there is one and sleeps again else; after a signal it takes it as well, or closes the queue |
| IpcSolo.SoloSend | Challenge1/ku_ipc.c:162-214 | a send of the step machine that nobody interrupts leaves the queue and registry the mailbox's send leaves; one that has to sleep, after the signal and the close it forces |
| IpcSolo.SoloReceive | Challenge1/ku_ipc.c:235-315 | a receive of the step machine that nobody interrupts leaves the queue and registry the mailbox's receive leaves; one that has to sleep, after the signal and the close it forces |
| IpcSolo.SoloRegistry | Challenge1/ku_ipc.c:106-160 | an open, exclusive or not, and a close of the step machine are the mailbox's |
| RcuList.StepInv | Lab10/simple_rculist/simple_rculist.c:39-76 | every step of a reader or the writer keeps the list, the one node beside it, the grace period and every reader sound |
| RcuList.ReadersStandOnLiveNodes | Lab10/simple_rculist/simple_rculist.c:40-66 | in every reachable state each reader stands on the head, a list node or the one retired node, that node is allocated and leads back into the list, and at most one node exists beside the list |
| RcuList.FreeOnlyUnread | Lab10/simple_rculist/simple_rculist.c:64-66 | `kfree` takes a node that is out of the list and that no reader stands on |
| RcuList.ListContents | Lab10/simple_rculist/simple_rculist.c:61-63 | the list keeps its ids in order for ever, each with 100 plus the number of its updates, modulo unsigned wrap |
| RcuList.WalkOrder | Lab10/simple_rculist/simple_rculist.c:43-49 | a walk visits the ids in list order, each once, up to the first match, and all of them when there is none |
| RcuList.ReadEnds | Lab10/simple_rculist/simple_rculist.c:43-51 | a read over n ids is over after 2n + 1 of its own steps, whatever the writer does |
| RcuList.EveryVersionWasCurrent | Lab10/simple_rculist/simple_rculist.c:59-63 | every version of an id between two states was the current one at some state in between |
| RcuList.ReadIsLinearizable | Lab10/simple_rculist/simple_rculist.c:40-63 | the data a read returns for an id was that id's data in the list at some instant of the read |
| RcuList.ReadFindsExactly | Lab10/simple_rculist/simple_rculist.c:41-51 | a read that is over has found its id exactly when the list carries it, whatever the writer did |
| RcuList.StepsAreLocal | Lab10/simple_rculist/simple_rculist.c:39-72 | no step of the writer or of another reader moves a reader, and no step of a reader changes the list or moves the writer on |
| RcuList.UpdateChangesItsId | Lab10/simple_rculist/simple_rculist.c:54-72 | from lock to unlock, with any readers in between, an update of an id counts one update more for the first slot with that id, puts a new node there and changes nothing else; an id that is not listed changes nothing; nothing but the list stays allocated |
| RcuList.UpdateReachesGrace | Lab10/simple_rculist/simple_rculist.c:54-72 | whatever readers do, a writer on n ids is in its grace period or done within n + 3 of its own steps |
| RcuList.GracePeriodExactly | Lab10/simple_rculist/simple_rculist.c:63-66 | the grace period ends, and the old node is freed, if and only if no reader has been inside ever since it began |
| RcuListDevice.TestList.constructor | Lab10/simple_rculist/simple_rculist.c:105-112 | the list as built is the start of the step machine |
| RcuListDevice.TestList.ReadId | Lab10/simple_rculist/simple_rculist.c:41-52 | found exactly when the id is in the list, with the data of its first node, 100 plus its updates; the call is one READ of that id by a reader of the step machine |
| RcuListDevice.TestList.SwapNode | Lab10/simple_rculist/simple_rculist.c:58-64 | allocation, copy, replacement and free of one node compose to the machine's three changes and keep the list sound |
| RcuListDevice.TestList.UpdateId | Lab10/simple_rculist/simple_rculist.c:53-72 | one more update for the first node with the id and nothing else changed; the call is a run of the step machine that locks for that id and then takes writer steps only |
| RcuCell.HeldCellIsLive | Lab10/simple_rcu/simple_rcu.c:34-39 | in every reachable state a reader's pointer is allocated, and after the first print its value has not changed |
| RcuCell.ReadIsLinearizable | Lab10/simple_rcu/simple_rcu.c:33-40 | both dereferences of a read give one value, which was the published one at some instant of the read |
| RcuCell.ReadEnds | Lab10/simple_rcu/simple_rcu.c:34-39 | a read is over with its third own step and not before, whatever the writer does |
| RcuCell.StepsAreLocal | Lab10/simple_rcu/simple_rcu.c:33-51 | no step of the writer or of another reader moves a reader, and no step of a reader changes the memory or moves the writer on |
| RcuCell.LiveCells | Lab10/simple_rcu/simple_rcu.c:41-51 | one or two cells are allocated, and just the published one when no writer is active |
| RcuCell.WriteAppendsItsArgument | Lab10/simple_rcu/simple_rcu.c:41-51 | a write, from lock to unlock and whatever readers do meanwhile, appends exactly its argument to the published values, and only its cell is left |
| RcuCell.WriteAdvances | Lab10/simple_rcu/simple_rcu.c:42-48 | whatever readers do, the first own step of a write publishes its argument, the second begins its grace period, and nothing else is published until it ends |
| RcuCell.GracePeriodExactly | Lab10/simple_rcu/simple_rcu.c:48-50 | the grace period ends, and the old cell is freed, if and only if no reader has been inside ever since it began |
| RcuCell.Device.constructor | Lab10/simple_rcu/simple_rcu.c:80-82 | the cell as loaded is the start of the step machine |
| RcuCell.Device.ReadData | Lab10/simple_rcu/simple_rcu.c:33-40 | both prints show the value last written, as a run of an undisturbed reader |
| RcuCell.Device.WriteData | Lab10/simple_rcu/simple_rcu.c:41-51 | only the new cell with the argument remains, as a run of the writer's four steps |
| WaitCounter.Conserved | Lab5/block2/simple_block_2.c:37-57 | in every run of any commands `my_data` is the sum of the producer calls' arguments without those not yet added, minus the consumer calls begun, not ended by a signal and not under way |
| WaitCounter.LowerBound | Lab5/block2/simple_block_2.c:25-60 | with the four commands, non-negative arguments and at most N >= 1 consumers in flight, `my_data` never falls below 1 - N |
| WaitCounter.LowerBoundIsReached | Lab5/block2/simple_block_2.c:25-60 | the bound is sharp for every N |
| WaitCounter.BoundHoldsExactly | Lab5/block2/simple_block_2.c:23-57 | the bound holds in every run if and only if no negative argument and no undefined command, which falls through to the decrement, is used |
| WaitCounter.WakeupsGuaranteedExactly | Lab5/block2/simple_block_2.c:27-52 | no waiter of a kind is left asleep on a positive counter, in every run, if and only if it is an ordinary waiter or every producer wakes all |
| WaitCounter.WakeReaches | Lab5/block2/simple_block_2.c:44-51 | a wake-up marks every ordinary waiter, and all exclusive ones or else exactly one that was not woken yet, if there is any, and any of them; it changes nothing else |
| WaitCounter.WokenGetsUp | Lab5/block2/simple_block_2.c:27-57 | a woken waiter takes a unit and is through with three steps of its own when there is one and sleeps again, not woken, when there is none; an unwoken one sleeps on; a wake-up during the test is kept |
| WaitCounter.SignalEndsWait | Lab5/block2/simple_block_2.c:29-57 | a signal ends a sleep: with a unit there the waiter still takes it, and else the counter stays |
| WaitCounter.WaitGoes | Lab5/block2/simple_block_2.c:27-57 | a wait that is called takes a unit when there is one and else sleeps as the kind of waiter it is |
| WaitCounter.ProducerGoes | Lab5/block2/simple_block_2.c:39-57 | a producer adds its argument before it wakes as it was told; an undefined command takes a unit at once |
| WaitCounter.OthersKept | Lab5/block2/simple_block_2.c:27-58 | no step but a wake-up changes where another process stands |
| WaitCounter.ForgottenExclusive | Lab5/block2/simple_block_2.c:33-44 | a run in which an exclusive waiter sleeps beside an available unit and nobody is left to wake it |
| WaitCounter.Device.constructor | Lab5/block2/simple_block_2.c:15 | the counter starts at 0, the start of the step machine |
| WaitCounter.Device.Ioctl | Lab5/block2/simple_block_2.c:21-61 | an undisturbed call is a run of the step machine: a producer adds its argument, a wait on a positive counter and an undefined command take a unit, and a wait that cannot pass leaves the counter alone until a signal ends it |
| Dht11.Sensor.CountRun | Lab12/dht/dht11.c:29-36 | the inner loop counts the run of the level, up to the timeout |
| Dht11.Sensor.PushBit | Lab12/dht/dht11.c:44-47 | one bit shifted into the byte it belongs to |
| Dht11.Sensor.Decode | Lab12/dht/dht11.c:28-50 | when a round times out, the loops leave every other run from the fifth on as bits in the five bytes, within the array |
| Dht11.Sensor.Read | Lab12/dht/dht11.c:14-58 | bytes, bit count and acceptance, which is 40 bits and the sum of the first four bytes modulo 256 in the fifth, for every wire that ends: fewer than 85 runs, then an idle level for a whole timeout |
| Dht11.ReadOut | Lab12/dht/dht11.c:43-48 | shifting bits in one by one gives the same bytes as reading the bit list in groups of eight |
| Dht11.EndsExactly | Lab12/dht/dht11.c:28-41 | the wire ends, in that sense, if and only if one of the 85 rounds of the decoder times out |
| Dht11.ScanCarried | Lab12/dht/dht11.c:28-41 | the rounds of the decoder see exactly the runs on the wire and stop at the idle level |
| Dht11Frame.DecodeEncode | Lab12/dht/dht11.c:43-48 | reading back the 40 bits of five bytes gives the five bytes |
| Dht11Frame.BitOrder | Lab12/dht/dht11.c:43-48 | the bits are those of the bytes in order, each from its most significant bit down |
| Dht11Frame.WireBits | Lab12/dht/dht11.c:28-50 | on any wire with at most 84 runs, frame or not, the bits are the high runs from the fifth run on, 0 for up to 16 ticks and 1 for more |
| Dht11Frame.RoundTrip | Lab12/dht/dht11.c:19-52 | a frame of five bytes in any timing within the limits, every run below 255 ticks, high runs of up to 16 for a 0 and of 17 or more for a 1, gives those bytes and 40 bits, and is accepted exactly when the fifth byte is the sum of the others modulo 256 |
| Dht11Frame.ReadFrame | Lab12/dht/dht11.c:14-58 | the loops on a frame end with the bytes sent in the array |
| Dht11Frame.FrameExists | Lab12/dht/dht11.c:28-50 | every five bytes have such a frame |
| Dht11Frame.MisreadByteRejected | Lab12/dht/dht11.c:43-52 | a valid frame with any misread bits within one byte is rejected |
| Dht11Frame.MisreadBitRejected | Lab12/dht/dht11.c:45-52 | a valid frame with one data or checksum bit on the wrong side of the threshold is rejected |
| Dht11Frame.BufferExactly | Lab12/dht/dht11.c:28-49 | at most 40 bits are stored if and only if the wire ends, and 41 otherwise |
| Dht11Frame.RestlessWireOverruns | Lab12/dht/dht11.c:28-49 | a wire on which a 41st bit is stored |
| Stepper.RowsAreHalfSteps | Lab11/ch11/ch11_201511292.c:20-23 | from row to row, around the cycle, one coil changes, some coil is on and no row repeats |
| Stepper.RowPins | Lab11/ch11/ch11_201511292.c:20-23 | which of the four pins are on in which row |
| Stepper.RowsInOrder | Lab11/ch11/ch11_201511292.c:36-49 | n forward turns energise rows 0 to 7 in order n times, n backward turns rows 7 to 0 |
| Stepper.Motor.SetStep | Lab11/ch11/ch11_201511292.c:26-31 | the coils show the arguments, and the rotor follows a row that is energised |
| Stepper.Motor.Forward | Lab11/ch11/ch11_201511292.c:45-55 | the loops energise rows 0 to 7 once per cycle of the truncated, wrapped bound and switch the coils off |
| Stepper.Motor.Backward | Lab11/ch11/ch11_201511292.c:33-43 | the loops energise rows 7 to 0 once per cycle of the truncated, wrapped bound and switch the coils off |
| Stepper.Motor.MoveDegree | Lab11/ch11/ch11_201511292.c:57-65 | the rows of the direction, and none for any other direction |
| Stepper.Motor.Perform | Lab11/ch11/ch11_201511292.c:57-79 | after any run of moves the rotor is where the no-drift law puts it |
| Stepper.NoDrift | Lab11/ch11/ch11_201511292.c:33-65 | every run of moves leaves the rotor at 8 per net cycle, minus 1 when the last move with a cycle was forward or there was none, and no row moves it by more than one half-step |
| Stepper.LostPart | Lab11/ch11/ch11_201511292.c:36 | a rotation loses less than one cycle, and nothing when it is a multiple of 45 degrees; the first holds if and only if `512 * degree` fits a 32-bit int |
| Stepper.NoTurn | Lab11/ch11/ch11_201511292.c:36-48 | a rotation by no angle or a negative one runs no cycle, as long as the product fits a 32-bit int |
| Stepper.SplitRotation | Lab11/ch11/ch11_201511292.c:33-82 | n non-negative moves whose products fit an int run at most 512 * D / 360 cycles and more than that minus n, exactly that when each is a multiple of 45 degrees |
| Stepper.Init | Lab11/ch11/ch11_201511292.c:67-82 | the moves at load time are one full round |
| Echo.TriggersAnswered | Challenge2/src/driver/ku_driver.c:97-203 | in every run, with the handler's clock reading and its action as separate steps, triggers minus measurements is 0 or 1, and between timer calls it is 0 exactly when the flag is 3 |
| Echo.ExplainedAlways | Challenge2/src/driver/ku_driver.c:95-203 | in every reachable state the last trigger, the handler's pending clock reading, the rise being timed and the echo the distance came from are identified events of the run |
| Echo.EdgesIgnored | Challenge2/src/driver/ku_driver.c:97-107 | a handler that acts while the timer function runs changes nothing else, so the function is as good as atomic |
| Echo.DistanceIsMeasured | Challenge2/src/driver/ku_driver.c:186-199 | on a monotone clock a distance other than 0 is the time between the clock readings of a rise and a later fall in units of 58 microseconds, both accepted after the last trigger before that fall |
| Echo.OverlapTimesEarlyRise | Challenge2/src/driver/ku_driver.c:102-191 | a handler on another processor that reads the clock before the pulse ends and acts after it times a rise older than its trigger |
| Echo.RiseFollowsTriggerExactly | Challenge2/src/driver/ku_driver.c:102-203 | the rise is read no earlier than its trigger ends in every run if and only if no handler overlaps a step of the timer function |
| Echo.Driver.SensorTimerFunc | Challenge2/src/driver/ku_driver.c:95-108 | an idle machine sends a trigger, the last one of the run, and has one outstanding; any other state is left alone |
| Echo.Driver.UltraIsr | Challenge2/src/driver/ku_driver.c:181-209 | after a trigger a rise sets the start and the flag to 2; then a fall gives the distance from that rise in units of 58 microseconds, which follows the last trigger, and clears the outstanding trigger with flag 3; every other edge changes nothing |
| Echo.Driver.SensorStart | Challenge2/src/driver/ku_driver.c:257-260 | the distance is reset and what is outstanding stays so |

## Left out

- IpcFifo.PerTypeFifo: assumes one receiver at a time between select and unlink, because the order fails without it (IpcOverlap.DeliveryExactly).
- IpcFifo.ExactlyOnce: makes the same assumption, for the same reason.
- IpcFifo.NothingUndefined: makes the same assumption (IpcOverlap.PointersExactly).
- IpcFifo.EntriesAreValid: makes the same assumption (IpcOverlap.PointersExactly).
- IpcFifo.OtherStepSound: is about states with one such receiver.
- IpcAccounts.AccountedStep: is about fewer than 16 users, because a close with 16 overwrites `queue_count`.
- IpcAccounts.ConcurrentAccounting: assumes fewer than 16 users, because it fails with 16 (IpcClose.AccountsExactly).
- IpcVolume.VolumeOvershoot: assumes the same, because the volume limit fails with 16 (IpcLimits.VolumeExactlyBounded).
- IpcVolume.NeverRefused: assumes the same, and so many calls in flight, because it fails beyond (IpcLimits.VolumeTestExactlyInert).
- IpcVolume.StaysBelow: assumes the same, because it fails beyond (IpcLimits.VolumeExactlyBounded).
- IpcWakeups.NoLostSenderWakeup: assumes fewer than 16 users, because it fails with 16 (IpcClose.WakeupsExactly).
- IpcLimits.VolumeTestExactlyInert: is about library-sized messages.
- IpcLimits.VolumeExactlyBounded: is about library-sized messages.
- IpcKernel.MsgQueue.MessageReceive: the byte after a message of the buffer's own length lands past the caller's array and is not modelled; a failed copy is taken to leave the buffer alone.
- IpcLibrary.Client.MsgRcv: leaves out the same byte past the caller's array.
- IpcKernel.MsgQueue.MessageSend: takes a size up to the sender's buffer; a larger one given to the ioctl directly, past the library's check, is not modelled.
- IpcLibrary.Client.MsgClose: leaves `fd` set, as the code does, so a later `ku_msgget` of the same process is refused.
- IpcSolo.SoloSend: the lock is free when the call starts.
- IpcSolo.SoloReceive: the same.
- IpcSolo.AdmittedSend: the lock is free and nobody else steps from there on; with others the call goes on as IpcProgress.CourseGoesOn says.
- IpcSolo.FoundReceive: the same.
- IpcSolo.ResumedSend: the same.
- IpcSolo.ResumedReceive: the same.
- IpcProgress.CourseGoesOn: counts steps that use no bad entry; whether a receive comes to use one is in IpcOverlap.PointersExactly.
- RcuList.UpdateReachesGrace: kmalloc finds memory whenever the writer asks for it.
- WaitCounter.WokenGetsUp: is about steps that no other process interrupts; WaitCounter.Conserved and WaitCounter.WakeupsGuaranteedExactly are about all runs.
- Dht11.Sensor.Decode: needs one of the 85 rounds to time out; otherwise the code stores a 41st bit past the array (Dht11Frame.BufferExactly, Dht11Frame.RestlessWireOverruns).
- Dht11.Sensor.Read: needs the wire to end, which is the same (Dht11.EndsExactly).
- Stepper.SplitRotation: needs each `512 * degree` to fit a 32-bit int, because the bounds fail beyond (Stepper.LostPart).
- Stepper.NoDrift: the rotor is idealised; exactly opposite an energised row it is taken to stay, which no run of moves meets.
- Echo.DistanceIsMeasured: gives the quotient for pulses below 2^31 microseconds; the cast to int of longer ones is in the model, its storage in an unsigned long is not. That the rise itself follows the trigger needs a handler that does not overlap the timer function (Echo.RiseFollowsTriggerExactly).
- Integer widths of `queue_count`, `queue_vol` and `my_data`, and the negation of LONG_MIN as a receive type, are unbounded here.
- The type of a received message: `ku_msgrcv` stores the requested type in the caller's buffer and the kernel returns bytes only.
- `list.h`, wait queues, spin locks and RCU themselves: list operations are atomic, also the append outside the lock, `wake_up` marks sleepers runnable, `synchronize_rcu` waits for the readers present at its start.
- The step machines of RCU and of the wait counter are on values, because their point is interleaving, which a method body cannot show; the classes `Device`, `TestList` and `MsgQueue` tie undisturbed calls to them.
- IpcClose.AccountsExactly: takes each open and close as one step, and so leaves out opens that race for the last slot, which can bring more than 16 users.
- IpcClose.WakeupsExactly: the same.
- Opens and closes that race for a registry slot: `check_pid`, the shift and the index are changed without a lock in the code and in one step in the model.
- Ten queues in one step machine: queues share nothing but the lock.
- Allocation failure, the second `vfree` at Challenge1/ku_ipc.c:203, sleeping under a spin lock, and repeated reads of the caller's memory during one call.
- Registration, open and release, module exit, `printk`, the numbers of the ioctl commands, delays, and the start signal of the DHT11.
- The rest of `Challenge2/src/driver/ku_driver.c` (speaker, motor and switch threads) and the re-arming of its timer: a timer step may come at any time.
- Lab5/block1, whose timeout path decrements without a test, Lab11/simple_motor, Lab11/simple_ultra, Lab4/ch3, Lab10/simple_rwlock and the remaining labs, which are simpler forms of the code above or single-branch demonstrations.

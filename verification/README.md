# kSTEP, verified

kSTEP drives the Linux scheduler deterministically: a kernel module on CPU 0 tells tasks on the other CPUs what to
do, waits until every CPU has acted, and shows the host the machine's state. This project models the parts of
kSTEP that are its own logic rather than the kernel's, in Dafny, and proves what they promise. `dafny verify
dfyconfig.toml` checks all of it.

Where the source changes things in place the model does: a ring, a table, masks or a dict are fields and arrays of a
class, and each method is proved against a function of the old state; the properties are then proved about that
function. Where several actors run at once the model is a state machine over their steps, and the properties are
about every run.

## What is modelled

**The control and settle protocol** (`ring.dfy`, `control.dfy`, `settle*.dfy`). The controller queues an action in a
task's ring and lets the task out of its halt; `kstep_settle` spins until each test CPU tests settled. The model
interleaves single steps of one controller, any number of CPUs and tasks, and the kernel. The scheduler is
nondeterministic: what a CPU picks, where a woken task goes and whether it preempts are free, and a CPU changes its
task only on a reschedule, a sleep, a yield or an exit. `settle_safety.dfy` has the lost-wakeup argument and
exactly-once delivery, `settle_spin.dfy` the measure that ends the spin, `settle_pass.dfy` what "settled" is worth and
which puts are safe. `settle_calm.dfy` and `settle_calls.dfy` say when one pass of `kstep_settle` leaves every CPU
settled at once, as conditions on the state before the call. Between calls that is exact: an action does unless it is
a write that wakes a sleeping reader, a wakeup does unless it lands on a CPU that runs another task, and a tick does
only where every test CPU idles. `settle_runs.dfy` has two runs from boot, in the order in which the code calls things,
that go wrong:

- the settled flag is cleared only after the halt has ended, so the poll behind a tick's interrupt can pass in the
  instant in between. The task then goes round its loop while the controller is between steps, and the next action can
  fall between its take and its halt: the wakeup is lost and the following spin never ends;
- `kstep_settle` is one pass, so a wakeup across CPUs behind it leaves a CPU unsettled when it returns.

**The old fuzzer's mirrored cgroups** (`mirror*.dfy`, `gen_state.dfy`, `executor.dfy`, `simulation.dfy`,
`cgroup_names.dfy`, `report.dfy`). The generator's forest, caches, leaf index and task map, its recursive refresh, the
executor's tables and their checks, and the simulation between the two along whole runs. The mirror is changed before an
operation is answered, so a refused fork or FIFO switch of a task in a cgroup breaks the agreement, and only that does.
The executor's check for a cgroup name that is too long is dead, since `scnprintf` never reports more than it wrote:
such a name is cut in silence, and from 255 characters on a cgroup has its parent's name. The state report says task ids
in one shifted byte, so it is true exactly while every id is below 245.

**The coverage dump and its parser** (`records.dfy`, `coverage.dfy`). The linear-probe table, the chunked flush, the
byte stream and the host's regrouping.

**The channel** (`lines.dfy`, `receiver.dfy`, `tx_pool.dfy`, `session.dfy`, `channel.dfy`). The receive ring and line
framing for every chunking and interleaving, the transmit pool, the one-reply-per-command protocol between host and
cli, and all of them together: over bytes and buffers the protocol still holds, and in lock step the ring never
overflows.

**The topology spec** (`topology*.dfy`). What a spec's text means, the in-place interpreter, and that every level stays
a partition over any calls. Three places where the code and its comments part: a level not named keeps the *previous*
masks, which differ from the machine's own once a call has named the level or made one of its CPUs spare
(`kmod/cpu.c:188-189`); a refused spec does change the test CPU count and the masks that the next rebuild reads, though
nothing that the kernel has already read; and a group with CPU 0 in it refuses the spec, which is what `bugs.yaml:68`
and `bugs.yaml:105` ask for in a fuzzer's setup.

**The shared region** (`shm*.dfy`). The writer with its capacities, the decoder, and that nothing is dropped within the
module's limits.

**Small kernels.** The PELT rule's floor (`pelt.dfy`), the augmented-tree check (`min_deadline.dfy`), the CPU list
parser and printer (`cpu_list.dfy`), the newc archive (`cpio.dfy`), and the fuzzer's decoder against the cli's argument
checks (`cli_args.dfy`, `fuzz_decode.dfy`).

`lists.dfy`, `text.dfy` and `digits.dfy` are shared helpers. `cpulist_parse`, `kstrtoint` and Python's `int` are
parameters, required only to read back what the code prints where that matters.

## Model

| member | source | states |
|---|---|---|
| Ring.Ring.Take | kmod/task.c:34-38 | A take hands over the oldest element and removes exactly it, or nothing from an empty ring, wherever the 32-bit indices have got to. |
| Ring.Ring.Put | kmod/task.c:41-45 | A put adds behind everything that waits and overwrites none of it; it is refused (the panic) exactly when the ring is full. |
| Ring.WindowTail | kmod/task.c:34-38 | Advancing the head, also past 2^32, leaves every waiting element where it was. |
| Ring.WindowSnoc | kmod/task.c:41-45 | Writing at the tail's slot with room left disturbs no waiting element, also when the tail has wrapped and the head has not. |
| Ring.WrapKeepsSlot | kmod/io.c:96-98 | Reducing an index modulo 2^32 before selecting a slot selects the same slot, because the capacity divides 2^32. |
| Control.TaskRecord.constructor | kmod/task.c:48-60 | A new task's record is unsettled and its queue says one thing: park. |
| Control.TaskRecord.Take | kmod/task.c:34-38 | NONE exactly from an empty queue; otherwise the oldest action, once. |
| Control.TaskRecord.Put | kmod/task.c:41-45 | At most eight outstanding: the ninth is the panic, and changes nothing. |
| Settle.TakenKeepsHistory | kmod/task.c:34-38 | What the loop has taken, followed by the queue, stays the history of what was put. |
| Settle.TaskStepKeeps | kmod/task.c:80-119 | The loop's own steps (back to user mode, the signal handler, the read, the check with interrupts off, the halt's end) keep the protocol's invariant. |
| Settle.CallSleepKeeps | user/user.c:115-135 | So do the system calls that put the task to sleep, end it or yield. |
| Settle.PutKeeps | kmod/task.c:198-205 | And queueing an action, when its target is not between an empty take and its halt. |
| Settle.KickKeeps | kmod/task.c:205-211 | And the look at the target's halt that follows, with its interrupt or without. |
| Settle.StepKeepsInv | kmod/task.c:80-211 | Every step of the controller, of the tasks and of the kernel underneath keeps the invariant: in particular whoever has an action, a signal or a reschedule waiting is not in the halt, unless an interrupt is on its way or the controller is about to look. |
| SettleSafety.RunKeepsInv | kmod/task.c:80-211 | So does every run in which no action is put in its target's window. |
| SettleSafety.NoLostWakeup | kmod/task.c:104-118 | On every such run from boot, of any number of CPUs and tasks, no task is ever halted with an action queued, a signal or a reschedule pending and no wake still owed to it. |
| SettleSafety.StepKeepsHistory | kmod/task.c:34-45 | Every step, in or out of the window, keeps the taken actions and the queue in step with what was put. |
| SettleSafety.HistoryOf | kmod/task.c:34-45 | Along every run a task's history grows by exactly the actions put for it, in the order put. |
| SettleSafety.DeliveredOnceInOrder | kmod/task.c:34-56 | On every run from boot, for every task: the actions taken followed by the queue are the actions asked for, park first, in order and once each, and never more than eight wait. |
| SettleSpin.OnlyThere | kmod/tick.c:95-108 | A task is current on its own CPU and on no other. |
| SettleSpin.TaskStepSpends | kmod/task.c:80-119 | Every step of a task's loop lowers the measure: actions queued, then distance to the halt. |
| SettleSpin.CallWakeSpends | user/user.c:129-131 | Even a channel write that wakes a reader on another CPU lowers it: the action it uses up pays for the reader's way back to the halt. |
| SettleSpin.InternalStepSpends | kmod/task.c:80-119 | No step that needs no controller action leaves the measure as it was. |
| SettleSpin.UnsettledCanStep | kmod/tick.c:95-108 | A test CPU that does not test settled always has a step of its own to take. |
| SettleSpin.InternalRunsAreShort | kmod/tick.c:113-116 | Between controller actions a run is no longer than the measure at its start. |
| SettleSpin.SpinEnds | kmod/tick.c:113-116 | While the controller polls, any schedule is bounded by the measure, and the polled CPU is settled or has a step to take: the spin ends. |
| SettleSpin.SettledIsReached | kmod/tick.c:110-116 | From every state the controller polls in, some schedule leaves every test CPU settled. |
| SettlePass.QuietStays | kmod/tick.c:95-108 | A CPU that is settled, really halted and without an interrupt in flight stays so under every step of any CPU but a wakeup onto it. |
| SettlePass.SettledStaysExactlyWhenQuiet | kmod/task.c:106-116 | A CPU that tests settled stays so, short of such a wakeup or a controller action, if and only if its task is really in the halt with no interrupt in flight: the flag is still up for an instant after the halt has ended. |
| SettlePass.OnePassSettlesAll | kmod/tick.c:110-116 | Along a pass in which each CPU is quiet when its poll passes and no CPU already passed is woken onto, the CPUs passed stay quiet, and it returns with all test CPUs settled at the same time. |
| SettlePass.SettledIsOutsideTheWindow | kmod/task.c:62-70 | Putting an action while the target's CPU tests settled is safe, in the halt or just after it. |
| SettlePass.SettledPutsLoseNothing | kmod/task.c:80-119 | So on every run from boot that puts actions only while the target's CPU tests settled, no reachable state has a task halted with something to do and no wake owed. |
| SettlePass.QuietKeepsPutsSafe | kmod/task.c:40-40 | And stays safe from a quiet moment on, until something wakes a task onto that CPU. |
| SettlePass.PutLosesExactlyInTheWindow | kmod/task.c:198-216 | A put can end in a task that halts with the action queued and nobody to wake it if and only if it falls between the target's empty take and its halt with nothing else pending there. |
| SettlePass.LostHangsTheSpin | kmod/tick.c:113-116 | A wakeup once lost hangs the spin: on every run from there in which nothing wakes a task onto that CPU, the task stays in its halt, the CPU never tests settled and the controller never gets past it. |
| SettlePass.LoneLostHangs | kmod/tick.c:113-116 | With no other task in the session that is so on every run whatever. |
| SettleCalm.CalmStays | kmod/task.c:80-119 | Calm is a condition on one state: no task leaves its halt with nothing to do, no interrupt is in flight to such a halt, a waking task finds an idle CPU and comes alone, and nobody can write to a sleeping reader. Every internal step of any CPU keeps it. |
| SettleCalm.CalmPassSettlesAll | kmod/tick.c:110-118 | From a calm state, with the call's kick still to come or its pass under way, every run on which kstep_settle returns has all test CPUs settled at the same time. |
| SettleCalm.CallReturns | kmod/tick.c:113-116 | And some run does return from every such state. |
| SettleCalm.UnquietPassFails | kmod/tick.c:110-118 | From any state in which a CPU not yet polled tests settled without being quiet (its task has left the halt with an empty queue, or has an interrupt in flight to it), the pass can return with that CPU unsettled. |
| SettleCalls.AskSettlesExactly | kmod/task.c:198-216 | Between calls, with every CPU quiet and no write of the channel owed, asking a task for an action returns with all test CPUs settled at once on every run, if and only if the action is not a write, by a task at its read, while a reader sleeps. |
| SettleCalls.WakeupSettlesExactly | kmod/task.c:246-252 | A wakeup does if and only if a sleeping target does not wake onto a CPU that runs another task. |
| SettleCalls.TickSettlesExactly | kmod/tick.c:80-90 | A tick does if and only if every test CPU idles: a tick's interrupt ends a halt before the flag that says so is cleared. |
| SettleCalls.HarmlessIsExact | kmod/tick.c:80-118 | Where nobody owes a write, harmless is exact for every call: from a state at rest the call settles every test CPU on every run if and only if it is one of those. |
| SettleCalls.CallRests | kmod/task.c:198-252 | A harmless call (action, write of the channel, wakeup, tick or settle) returns with everything at rest again, and with no write owed if none was and the call did not leave one to a task that is not at its read. |
| SettleCalls.SessionRests | kmod/task.c:21-23 | So along any session of harmless calls, writes and ticks among them, all CPUs are settled at once at every return, and no task is ever between its take and its halt when an action is put. |
| SettleRuns.TheCodesOrderCanLoseAWakeup | kmod/tick.c:80-90 | The code's own order reaches that: a run from boot, in which actions are put only straight behind a completed kstep_settle and ticks come only between two of them, loses a wakeup; and from there no run whatever lets the call return. |
| SettleRuns.OnePassIsNotEnough | kmod/tick.c:110-118 | One pass over the CPUs is not a simultaneous claim: a state reached from boot in the code's order with every CPU quiet, and a call from it whose own steps, its polls and internal steps bring kstep_settle to its return with CPU 1 unsettled. |
| Mirror.CacheIsDefinition | docs/archive/old_fuzzer/scripts/gen_input_state.py:99-121 | Between operations every cached effective cpuset is its recursive definition, and a nonempty range inside its parent's. |
| Mirror.SomeLeaf | docs/archive/old_fuzzer/scripts/gen_input_state.py:152-155 | While there are cgroups there is a leaf among them, so choosing a leaf never falls back to a cgroup that is not one. |
| Mirror.BelowAtMostOneChild | docs/archive/old_fuzzer/scripts/gen_input_state.py:114-121 | The subtrees of two children are disjoint, so the recursive refresh visits each cgroup at most once. |
| MirrorOps.AddedIsGood | docs/archive/old_fuzzer/scripts/gen_input_state.py:174-190 | Adding a cgroup under the root or any cgroup keeps the forest, the caches, the leaf index (exactly the childless, each once) and tasks in leaves only. |
| MirrorOps.RecutIsGood | docs/archive/old_fuzzer/scripts/gen_input_state.py:192-194 | So does changing a cpuset, whatever the range. |
| MirrorOps.RemovedIsGood | docs/archive/old_fuzzer/scripts/gen_input_state.py:211-227 | So does removing a leaf, whose parent may become one. |
| MirrorOps.PlacedIsGood | docs/archive/old_fuzzer/scripts/gen_input_state.py:205-206 | So does putting a task into a leaf. |
| MirrorOps.UnplacedIsGood | docs/archive/old_fuzzer/scripts/gen_input_state.py:208-209 | So does taking one out. |
| GenState.GenState.RefreshEffective | docs/archive/old_fuzzer/scripts/gen_input_state.py:114-121 | The recursion over the dict terminates, makes every cache in the subtree its definition, and touches nothing but caches and nothing outside the subtree. |
| GenState.GenState.AddCgroup | docs/archive/old_fuzzer/scripts/gen_input_state.py:174-190 | The dict, lists and task map after the in-place edits are those of the operation, and good. |
| GenState.GenState.SetCgroupCpuset | docs/archive/old_fuzzer/scripts/gen_input_state.py:192-194 | After the edit and the refresh every cache is its definition under the new cpuset, and the rest is untouched. |
| GenState.GenState.RemoveCgroup | docs/archive/old_fuzzer/scripts/gen_input_state.py:211-227 | The in-place removal is the operation's, and leaves a good mirror. |
| GenState.GenState.CgroupAddTask | docs/archive/old_fuzzer/scripts/gen_input_state.py:205-206 | Placing a task in a leaf, in place. |
| GenState.OthersStayFresh | docs/archive/old_fuzzer/scripts/gen_input_state.py:114-121 | Refreshing one child's subtree makes no cache outside it stale. |
| GenState.FreshIsDefinition | docs/archive/old_fuzzer/scripts/gen_input_state.py:99-121 | Caches that each agree with their parent's cache are, all of them, the recursive definition. |
| Executor.Executor.CgroupIsLeaf | docs/archive/old_fuzzer/kmod/handler_cgroup.c:6-12 | True exactly of an id that is no existing cgroup's parent. |
| Executor.Executor.MoveTasksToRoot | docs/archive/old_fuzzer/kmod/handler_cgroup.c:37-55 | Exactly the live tasks of that cgroup are moved, and no table entry else changes. |
| Executor.Executor.BuildCgroupName | docs/archive/old_fuzzer/kmod/handler.c:14-33 | Succeeds exactly when the chain of parents reaches the root inside the table; the name is the chain's path cut to 255 characters, the check for a longer one never firing. |
| Executor.Executor.CgroupCreate | docs/archive/old_fuzzer/kmod/handler_cgroup.c:57-82 | Tables and answer for every pair of ids, including the entry that a refusal after the name leaves behind, and the panic where the kernel has no task group for it. |
| Executor.Executor.CgroupSetCpuset | docs/archive/old_fuzzer/kmod/handler_cgroup.c:84-100 | Accepts exactly an existing, nameable cgroup and a range within 1..N-1. |
| Executor.Executor.CgroupAddTask | docs/archive/old_fuzzer/kmod/handler_cgroup.c:116-132 | Tables and answer for every cgroup and task id. |
| Executor.Executor.CgroupDestroy | docs/archive/old_fuzzer/kmod/handler_cgroup.c:134-150 | Tables and answer for every id: a leaf goes, its tasks return to the root. |
| Executor.Executor.CgroupMoveTaskRoot | docs/archive/old_fuzzer/kmod/handler_cgroup.c:152-162 | Tables and answer: only a task of that very cgroup moves. |
| Executor.Executor.EnterChild | docs/archive/old_fuzzer/kmod/handler_task.c:56-72 | A forked child is entered with its parent's cgroup; a parent not on a CPU is the panic, once the ids are in order. |
| Simulation.LeavesAgree | docs/archive/old_fuzzer/kmod/handler_cgroup.c:6-12 | The generator's leaf list is the executor's own test of a leaf. |
| Simulation.NameBuilds | docs/archive/old_fuzzer/kmod/handler.c:14-33 | Under the simulation the walk to the root always ends within the table, at any depth. |
| Simulation.CreateSimulates | docs/archive/old_fuzzer/scripts/gen_input_ops.py:156-162 | Creating a cgroup under any offered parent is accepted and keeps the simulation. |
| Simulation.DestroySimulates | docs/archive/old_fuzzer/scripts/gen_input_ops.py:185-188 | So is destroying an offered leaf. |
| Simulation.AddSimulates | docs/archive/old_fuzzer/scripts/gen_input_ops.py:178-182 | So is adding any live task to an offered leaf. |
| Simulation.MoveRootSimulates | docs/archive/old_fuzzer/scripts/gen_input_ops.py:191-194 | So is moving to the root any task the generator believes in a cgroup. |
| Simulation.StepSimulates | docs/archive/old_fuzzer/scripts/gen_input_ops.py:88-194 | Every operation offered, its task ready, is accepted by the executor's own checks and leaves mirror and tables in agreement. |
| Simulation.SimulatesExactlyWhenHarmless | docs/archive/old_fuzzer/kmod/handler.c:205-219 | The mirror is changed before the executor answers: a refused fork or FIFO switch breaks the agreement if and only if its task is in a cgroup. |
| Simulation.RefusedForkMisleads | docs/archive/old_fuzzer/scripts/gen_input_ops.py:96-103 | After such a refused fork the generator may offer to move a child that never was, and the executor refuses it. |
| Simulation.RunSimulates | docs/archive/old_fuzzer/scripts/gen_input_ops.py:88-194 | Along every run in which no such refusal happens the two states agree, and whatever operation is offered next is accepted. |
| Simulation.StartSimulates | docs/archive/old_fuzzer/scripts/gen_input_state.py:30-35 | An empty mirror and an executor in which nothing exists agree. |
| CgroupNames.ShortNamesTell | docs/archive/old_fuzzer/kmod/handler.c:14-33 | A cgroup's name is its path exactly when the path is under 256 characters, and cgroups with such paths have different names. |
| CgroupNames.ChildSharesExactly | docs/archive/old_fuzzer/kmod/handler.c:14-33 | A cgroup has the very name of its parent if and only if the parent's path has 255 characters or more. |
| CgroupNames.OfferedChildMayShare | docs/archive/old_fuzzer/scripts/gen_input_ops.py:156-162 | The generator offers such a child, the executor accepts it, and the simulation holds on. |
| CgroupNames.DeepNamesClash | docs/archive/old_fuzzer/kmod/handler_cgroup.c:57-82 | From empty tables every next cgroup inside the last is accepted, up to the 1024th, and the 64th and 65th have one name. |
| Report.ReportReadsBack | docs/archive/old_fuzzer/kmod/handler.c:161-191 | Reading a written report gives the executed steps and exactly the live tasks with their states. |
| Report.ReportIsTrueExactly | docs/archive/old_fuzzer/scripts/fuzz_worker.py:137-176 | It does so if and only if no live task has an id of 245 or more, out of the 1024 the executor has room for. |
| Records.RecordReadsBack | docs/archive/old_fuzzer/scripts/cov.py:18-22 | The 16 little-endian bytes of a record read back as its command, pid and PC. |
| Records.WriteAdds | docs/archive/old_fuzzer/kmod/cov.c:158-175 | One write of several records adds, under each command and pid, exactly its PCs in order, and nothing under any other. |
| Records.CovParse | docs/archive/old_fuzzer/scripts/cov.py:9-24 | For every payload of whole records, looking up a command and pid gives its PCs in stream order; any other size is the error. |
| Coverage.FreeMeansAbsent | docs/archive/old_fuzzer/kmod/cov.c:142-156 | The first free slot on a pid's way is proof that the pid is nowhere in the table. |
| Coverage.ClaimKeepsTable | docs/archive/old_fuzzer/kmod/cov.c:142-156 | Claiming it keeps one slot per pid and no hole before any pid. |
| Coverage.FullExactly | docs/archive/old_fuzzer/kmod/cov.c:142-156 | The table is full exactly when it holds 2048 pids. |
| Coverage.FlushAccounts | docs/archive/old_fuzzer/kmod/cov.c:158-175 | A flush moves a slot's PCs into the stream without losing, doubling or reordering any. |
| Coverage.StashAccounts | docs/archive/old_fuzzer/kmod/cov.c:189-195 | Buffering one more PC is accounted to its pid and to no other. |
| Coverage.FewPidsFit | docs/archive/old_fuzzer/kmod/cov.c:142-156 | Buffers of one command with at most 2048 distinct pids, none the sentinel, never overflow the table. |
| Coverage.Coverage.GetSlot | docs/archive/old_fuzzer/kmod/cov.c:142-156 | Finds the pid's slot or claims a free one, and fails only in a full table that lacks the pid. |
| Coverage.Coverage.Record | docs/archive/old_fuzzer/kmod/cov.c:62-83 | Records exactly where the mode and the CPU say so, and overflows at 32768 entries. |
| Coverage.Coverage.Dump | docs/archive/old_fuzzer/kmod/cov.c:177-207 | Panics exactly where an entry is of another command or finds no slot; otherwise the stream gains, per pid, that pid's PCs once and in CPU-then-time order, and table and buffers are empty again. |
| Coverage.RunReadsBack | docs/archive/old_fuzzer/kmod/cov.c:177-207 | After any run of dumps under different command ids the parser gives, per command and pid, exactly that pid's PCs. |
| Coverage.FreePidIsLost | docs/archive/old_fuzzer/kmod/cov.c:146-150 | A pid equal to the free slot's sentinel loses all its PCs, always. |
| Lines.SplitIsFaithful | kmod/io.c:109-123 | The lines of a stream and its unfinished rest are the whole stream, and no line holds a newline. |
| Lines.SplitOfJoin | kmod/io.c:109-123 | And it is the only way to take the stream apart. |
| Receiver.Receiver.RxDone | kmod/io.c:88-105 | A buffer's bytes join the stream in order; overflow exactly past 4096 unread. |
| Receiver.Receiver.ReadByte | kmod/io.c:114-121 | One turn of the reader's loop takes the oldest unread byte, or sleeps for want of one. |
| Receiver.Receiver.Run | kmod/io.c:88-123 | For every chunking and every interleaving: it overflows exactly where the turns taken have not made room for what comes; else the reader has had the oldest byte at each turn that found one, the rest waits, and the lines returned are the newline-split of what it has had, each cut to max - 1. |
| Receiver.PlayedKeepsBytes | kmod/io.c:88-123 | What those turns take, followed by what they leave, is what waited followed by what came, and never more than 4096 of it waits. |
| TxPool.NoneIsLost | kmod/io.c:41-47 | Free, in flight and read-but-unreclaimed buffers always make up the 256. |
| TxPool.TxPool.HostReads | kmod/io.c:57-58 | The host reads the records in the order written, each as it was written. |
| TxPool.TxPool.Reclaim | kmod/io.c:41-47 | Afterwards every buffer that is not in flight is free. |
| TxPool.TxPool.Write | kmod/io.c:59-78 | Rewrites no buffer in flight; panics exactly for a record over 512 bytes or with 256 in flight. |
| TxPool.WriteKeeps | kmod/io.c:71-75 | The buffer taken for a record is not one that the host may still read. |
| Session.PlainLine | kmod/cli.c:407-412 | A line without a newline is answered once exactly when, cut and trimmed, it is neither blank nor a comment. |
| Session.BytesMeanLines | crates/kstep/src/session.rs:163-166 | What the cli reads from the bytes written is what the host's lines mean, one after another. |
| Session.StepKeepsInv | crates/kstep/src/session.rs:234-256 | Every step of either side keeps the records of the replies to come, in order, between the two. |
| Session.AnswersFollowCommands | kmod/cli.c:407-419 | For any lines and any interleaving, the k-th answer is the reply to the k-th command in the bytes sent, with exactly the typed records sent since the reply before. |
| Session.LockStep | crates/kstep/src/session.rs:163-166 | When every line is answered once, the k-th answer is the k-th line's. |
| Session.BetweenCommands | crates/kstep/src/session.rs:168-175 | And between commands the cli is idle with no command unread, and the region is the one the last command left. |
| Session.UnansweredHangs | kmod/cli.c:412-414 | Sent where every line before was answered, a line that holds no command is never answered, on any run: only the host's read timeout ends the wait. |
| Session.SecondCommandAnswersTheNextLine | crates/kstep/src/session.rs:163-166 | A line with two commands makes the second one's reply the answer to the next line. |
| Channel.MoveFollows | kmod/io.c:41-123 | Host, bytes in flight, ring, cli and buffer pool together: every move over bytes and buffers that is no panic is one step of that protocol, or invisible to it. |
| Channel.RunIsASession | crates/kstep/src/session.rs:163-175 | So every run of the whole channel is a run of the protocol. |
| Channel.ChannelLockStep | crates/kstep/src/session.rs:163-166 | On every run of the whole channel from boot, lines answered once get each its own answer, with exactly the records written since the reply before. |
| Channel.ChannelBetweenCommands | crates/kstep/src/session.rs:168-175 | And between commands the region is what the last line's command left. |
| Channel.AnsweredIsDrained | kmod/cli.c:407-419 | When a host of plain lines has its answer, the ring and the wire towards the guest are empty. |
| Channel.PanicsExactly | kmod/io.c:59-105 | In lock step the channel panics exactly for a record over 512 bytes or with 256 unread by the host: the receive ring never overflows. |
| Channel.RunsStayInStep | crates/kstep/src/session.rs:163-166 | And a host whose lines are single commands shorter than the ring stays in lock step on every run. |
| Topology.InitIsGood | kmod/cpu.c:157-178 | Cutting a partition to the test CPUs leaves a partition, with CPU 0 and every spare CPU alone. |
| Topology.PlaceAllIsGood | kmod/cpu.c:250-271 | Placing a key's groups, all of them or up to an error, leaves a partition. |
| Topology.ReadGroupsAreValid | kmod/cpu.c:229-237 | The groups let through, up to the first that is wrong, are test CPUs and name none twice. |
| Topology.LastOccurrenceWins | kmod/cpu.c:239-272 | A level named has for each test CPU the group that its last occurrence puts it in, or itself alone. |
| Topology.UnnamedKeeps | kmod/cpu.c:239-272 | A level not named is not touched by the spec. |
| Topology.LastScaleWins | kmod/cpu.c:255-268 | A CPU named under CAP has the last scale that names it. |
| TopologySet.CpuCountMeans | kmod/cpu.c:274-289 | Any malformed CPUS refuses the spec; otherwise the last one counts, wherever it stands, and N-1 without any. |
| TopologySet.SetKeepsGood | kmod/cpu.c:327-347 | A call, accepted or refused anywhere, leaves every level of the kernel's table a partition, with CPU 0 and every spare CPU alone. |
| TopologySet.SetsKeepGood | kmod/cpu.c:327-375 | So does every sequence of calls. |
| TopologySet.RefusedChangesNoCapacity | kmod/cpu.c:322-375 | A refused spec changes no capacity and no sibling mask and triggers no rebuild; an accepted one sets the siblings to the SMT masks and rebuilds once. |
| TopologySet.AcceptedMasks | kmod/cpu.c:182-196 | What an accepted spec means for a level: the groups of its last occurrence, or the previous masks cut to the test CPUs. |
| TopologySet.AcceptedCapacity | kmod/cpu.c:182-196 | And for a capacity: the last scale naming the CPU, or 1024. |
| TopologySet.AcceptedNamesTestCpus | kmod/cpu.c:222-232 | An accepted spec puts CPU 0 in no group, not even by itself. |
| TopologySet.CapacityAfterCalls | kmod/cpu.c:327-375 | After any calls a CPU's capacity is what the last accepted one to test it meant, and there were as many rebuilds as accepted calls: refused ones leave no trace, also not through a later one. |
| TopologySet.SharesIs | kmod/cpu.c:157-178 | Whether two CPUs share a level in the kernel's table after any calls, as the calls' texts say it: the last call to name the level decides, or the machine, and every later call that spares one of them parts them. |
| TopologySet.UnnamedIsTheMachinesOwnExactly | kmod/cpu.c:188-189 | "A level not named keeps the machine's own" holds of an accepted spec after any calls if and only if those calls' texts leave every two of its test CPUs sharing the level exactly where the machine has them share it. |
| TopologySet.UnnamedPartsTheSpare | kmod/cpu.c:157-178 | Where no call before named the level: exactly if no two that share it has one been spare. |
| TopologySet.NamingOutlivesItsCall | kmod/cpu.c:188-189 | With the same CPUs throughout, CLS=1-2 followed by a spec that does not name CLS leaves CPUs 1 and 2 clustered on a machine where they are not. |
| TopologyKernel.Topo.TopoCpus | kmod/cpu.c:276-289 | The loop over the entries computes that count. |
| TopologyKernel.Topo.TopoInit | kmod/cpu.c:157-178 | The loop over levels and CPUs, overwriting the masks it reads, cuts every level in the table and no other. |
| TopologyKernel.Topo.SetLevel | kmod/cpu.c:239-272 | The loop over a level's groups leaves the masks of the groups read and returns the first error. |
| TopologyKernel.Topo.SetCaps | kmod/cpu.c:239-272 | And over CAP's groups the capacities. |
| TopologyKernel.Topo.Set | kmod/cpu.c:327-375 | The whole call on the masks in place is the one that the properties above are about. |
| Shm.MembersFit | kmod/shm.c:407-451 | No class table outgrows its capacity, whatever the tasks. |
| Shm.AllDomainsFit | kmod/shm.c:263-350 | Nor do the domain and group tables. |
| ShmState.DecodeReadsBack | crates/core/src/shm.rs:218-353 | Decoding a written region succeeds and gives what was written, whatever the unused rest of the tables holds. |
| ShmState.NumbersAreDistinct | kmod/shm.c:407-418 | Task numbers come out strictly increasing, each that of a task picked. |
| ShmState.NumbersAreAll | kmod/shm.c:407-418 | And every task picked is there. |
| ShmState.WalkKeepsAll | kmod/shm.c:211-250 | Up to 16 cgroups, the table holds every live one in tree order and every one of their entities, at most 31 for each but the root. |
| ShmState.MembersAreAll | kmod/shm.c:440-449 | The task table numbers the live tasks, the entity table the fair ones after the cgroups', the real-time table the real-time ones. |
| ShmState.DomainsAreAll | kmod/shm.c:263-350 | Each recorded domain reads back with its own groups, and the group table is all of them end to end. |
| ShmState.NothingIsDropped | kmod/shm.c:354-461 | Within the module's limits the decoded state is the machine, record for record: every test CPU with the session's task it runs, every live task with its own cgroup's path, every fair or real-time one once in its class's table, every cgroup's entities under its path and every domain with all its groups. |
| ShmState.ShownOnce | kmod/shm.c:407-449 | Those records are of exactly the tasks picked, each once and in order. |
| ShmState.RowHasThePath | kmod/shm.c:430-438 | A task's cgroup decodes to its own path, or to the root's where the walk did not keep it. |
| ShmState.AllRunsTile | kmod/shm.c:328-345 | Beyond the limits too, the recorded domains' runs lie end to end and cover the group table. |
| ShmWriter.ShmWriter.WriteCgroups | kmod/shm.c:211-250 | The counters and tables after the walk, capacities included. |
| ShmWriter.ShmWriter.WriteTasks | kmod/shm.c:407-451 | The counters and tables after the loop over the tasks. |
| ShmWriter.ShmWriter.WriteDomains | kmod/shm.c:263-350 | The counters and tables after the loops over CPUs, domains and groups. |
| ShmWriter.ShmWriter.Update | kmod/shm.c:354-461 | The region after an update is one that decodes to the machine. |
| Pelt.ChordUnderDecay | kmod/checkers/pelt.c:31-31 | (p - r)^p * 2^r <= p^p: the chord lies under the decay, over the integers. |
| Pelt.SlackAbsorbsRounding | kmod/checkers/pelt.c:28-32 | The slack of 16 and a sixteenth covers what the chord's rounding adds, and a wrapped product only lowers the floor. |
| Pelt.NoFalseWarning | kmod/checkers/pelt.c:9-12 | A signal with a half-life of at least p draws no warning, for every p, every previous value and every gap. |
| Pelt.NoFalseWarningInWords | kmod/checkers/pelt.c:32-32 | Computed in 64-bit words the rule is the same for every utilization below 2^63, and draws no false warning there. |
| Pelt.Checker.Check | kmod/checkers/pelt.c:19-37 | Warns exactly by that rule, in 64-bit words, on a CPU that was saturated and whose clock has moved, and keeps the observation. |
| MinDeadline.ExpectedIsLeast | kmod/drivers/min_deadline.c:39-51 | With correct children, what a node is checked against is the least of all its subtree's deadlines. |
| MinDeadline.CheckExactlyWhenLeast | kmod/drivers/min_deadline.c:31-61 | With all deadlines in one half of the 64-bit circle, the local check is true exactly when every node's min_deadline is the wrapping-order minimum of its whole subtree. |
| MinDeadline.LeastExactlyInHalfCircle | kmod/drivers/min_deadline.c:31-61 | On any tree, whatever its deadlines: every node's min_deadline is the least of its subtree if and only if the check accepts and the deadlines lie in the half circle from the root's min_deadline on. The check never refuses a right tree. |
| MinDeadline.CheckBeyondHalfTheCircle | kmod/drivers/min_deadline.c:31-61 | There are trees that it accepts beyond that: one with no least deadline. |
| CpuList.SortedSetIs | docs/archive/old_fuzzer/scripts/fuzz_manager.py:630-630 | Strictly increasing, with exactly the members given. |
| CpuList.ParseCpuList | docs/archive/old_fuzzer/scripts/fuzz_manager.py:613-633 | The parser's result or first error. |
| CpuList.SpansAreTheList | docs/archive/old_fuzzer/scripts/fuzz_manager.py:636-648 | The printed runs, expanded, are the list. |
| CpuList.FormatCpuList | docs/archive/old_fuzzer/scripts/fuzz_manager.py:636-648 | The printer's loop prints those runs. |
| CpuList.FormatReadsBack | docs/archive/old_fuzzer/scripts/fuzz_manager.py:613-648 | Parsing the formatted form of a nonempty, strictly increasing list of CPUs gives the list back. |
| CpuList.FormatIsCanonical | docs/archive/old_fuzzer/scripts/fuzz_manager.py:613-648 | Whatever parses formats to a text that parses to the same. |
| CpuList.SlicesPartition | docs/archive/old_fuzzer/scripts/fuzz_manager.py:253-273 | The QEMU slices end to end, and the manager's rest, are the parsed set. |
| CpuList.ConfigureCpuPinning | docs/archive/old_fuzzer/scripts/fuzz_manager.py:253-273 | Refuses exactly when no CPU would be left for the manager; else each instance's text parses to its own slice. |
| Cpio.HeadReadsBack | crates/kstep/src/build.rs:358-369 | A reader of the format recovers name, mode and size from a header. |
| Cpio.EntryReadsBack | crates/kstep/src/build.rs:252-262 | Headers and bodies are multiples of four long, and the next file read is the one written. |
| Cpio.ArchiveReadsBack | crates/kstep/src/build.rs:252-265 | The reader recovers exactly the names and contents written and stops at the trailer. |
| Cpio.ReadsBackExactlyWhenSmall | crates/kstep/src/build.rs:358-369 | It does so exactly when every size fits in eight hexadecimal digits. |
| Cpio.BuildRootfs | crates/kstep/src/build.rs:252-265 | The loop writes that archive. |
| CliArgs.Dispatch | kmod/cli.c:337-366 | A printed verb and argument reach that verb's own check. |
| FuzzDecode.AliveIsOk | crates/fuzz/src/main.rs:165-169 | The tasks believed alive are always distinct numbers of tasks created. |
| FuzzDecode.SoundIsAccepted | kmod/cli.c:84-162 | The text of a line that names a live task and values in range is read whole and gets past the cli's checks, for any kstrtoint that reads printed ints back and any cpulist_parse that reads printed ascending lists of test CPUs. |
| FuzzDecode.EveryLineAccepted | crates/fuzz/src/main.rs:107-195 | For every program, at most 64 tasks and at most 31 test CPUs, every record's line is read whole, gets past the cli's own checks, and names no task that an earlier line killed. |
| FuzzDecode.ReadersExist | kmod/cpu.c:222-226 | There are such parsers that refuse whatever does not fit a C int. |
| FuzzDecode.MutationIsLocal | crates/fuzz/src/main.rs:63-69 | Without kill, changing one record changes that record's line and no other. |
| FuzzDecode.MutationNeverReachesBack | crates/fuzz/src/main.rs:107-195 | With kill it may change later lines, never an earlier one. |
| FuzzDecode.Decode | crates/fuzz/src/main.rs:78-198 | The loop over at most 64 whole records computes those lines, and three ticks after them. |
| Pelt.FallIsWarned | kmod/checkers/pelt.c:27-34 | A signal that has fallen under fifteen sixteenths of the chord, less 18, draws a warning, so the rule is not empty. |
| FuzzDecode.ChosenAre | crates/fuzz/src/main.rs:154-163 | An affinity line lists a test CPU exactly when its bit of the argument is set, unless no bit is. |
| FuzzDecode.EveryTaskCanBeNamed | crates/fuzz/src/main.rs:118-118 | Every task still alive is some argument byte's choice. |
| Executor.Executor.CgroupSetWeight | docs/archive/old_fuzzer/kmod/handler_cgroup.c:102-114 | Accepts exactly an existing, nameable cgroup and a weight within 1..10000. |
| Executor.Executor.EnterTask | docs/archive/old_fuzzer/kmod/handler_task.c:48-54 | A created task is entered live and in the root; any other id is the panic. |
| Executor.Executor.ToFifo | docs/archive/old_fuzzer/kmod/handler_task.c:83-93 | A FIFO switch returns its task to the root; a task not on a CPU is the panic. |
| Executor.Executor.Lineage | docs/archive/old_fuzzer/kmod/handler.c:17-23 | The walk gives the chain of parents, or fails where it leaves the table or exceeds it. |
| GenState.GenState.CgroupRemoveTask | docs/archive/old_fuzzer/scripts/gen_input_state.py:208-209 | Only that task's entry goes. |
| Simulation.TasksSimulate | docs/archive/old_fuzzer/scripts/gen_input_ops.py:88-118 | Creating, forking and FIFO switching keep the simulation: a child inherits its parent's cgroup on both sides. |
| Simulation.SettingsSimulate | docs/archive/old_fuzzer/scripts/gen_input_ops.py:165-175 | Cpusets and weights that the generator picks pass the executor's ranges. |
| Report.WriteState | docs/archive/old_fuzzer/kmod/handler.c:161-191 | The loop over the task table writes that frame. |
| Coverage.Coverage.Gather | docs/archive/old_fuzzer/kmod/cov.c:185-197 | One buffered entry is accounted for, or refused exactly for a foreign command or a full table. |
| Coverage.Coverage.NextCommand | docs/archive/old_fuzzer/kmod/cov.c:128-133 | A new id after a dump leaves nothing buffered under an old one. |
| TxPool.TxPool.constructor | kmod/io.c:141-146 | All 256 buffers start free. |
| TopologyKernel.Topo.constructor | kmod/cpu.c:146-151 | A machine whose own levels are partitions starts in a state that every call keeps good. |
| TopologyKernel.Topo.SetEntries | kmod/cpu.c:339-348 | The loop over the entries stops at the first that is wrong, with all before it applied. |
| TopologyKernel.Topo.Commit | kmod/cpu.c:348-371 | Only test CPUs' capacities are set; the siblings are the SMT masks. |
| ShmWriter.ShmWriter.WriteCpus | kmod/shm.c:362-406 | One record for each test CPU in order, with the session's task it runs. |
| CpuList.FormatSlices | docs/archive/old_fuzzer/scripts/fuzz_manager.py:264-267 | Each instance's printed list parses to its slice. |
| Cpio.CpioHeader | crates/kstep/src/build.rs:358-369 | The header that the loop over the fields writes. |

## Left out

- The Linux scheduler itself (EEVDF, load balancing, the freezer, bandwidth throttling, cgroup core): nondeterministic steps in `settle.dfy`, uninterpreted inputs elsewhere.
- Settle: a running task's affinity change is a migration of a task that is not current; wakeups come from signals, the channel and the controller only, and the lazy reschedule flag is one with the reschedule flag.
- Settle: real-time throttling, which can leave a CPU idle with tasks queued, is not modelled; the settle test of such a CPU is not either.
- Settle.PutKeeps: asks for a put outside the target's window; what happens inside it is PutLosesExactlyInTheWindow.
- SettlePass.OnePassSettlesAll: is about the run; the conditions on the state before it are SettleCalm.CalmPassSettlesAll and the three of SettleCalls.
- SettleCalls.AskSettlesExactly: exact between calls where no task owes a write of the channel; from other states CalmPassSettlesAll and UnquietPassFails are one direction each.
- SettleCalls.SessionRests: no task is created or migrated within the session; where a write is owed, wakeups and actions of running tasks are harmless only while nobody reads the channel.
- GenState.GenState.SetCgroupCpuset: ties the new state to the operation cgroup by cgroup, not as one equal map.
- Executor.Executor.CgroupCreate: does not model the file system calls.
- Executor.Executor.EnterChild: says where a new task is entered, not what it runs.
- Simulation.RunSimulates: takes for granted that live tasks of the executor stay live and that operations which touch neither cgroups nor tasks (ticks, pins, priorities) do not change the tables.
- The old fuzzer's replay functions, random choice, seed weights and rarity scores: any offered operation may be picked.
- Report.ReportReadsBack: reads the first frame of a stream; the terminal's echo before it is not modelled.
- Coverage.Coverage.GetSlot: a slot's PCs are a sequence as long as its count, so stale PCs behind the count are not modelled.
- Coverage: the preemption of a recording hook by another on the same CPU.
- Coverage.RunReadsBack: asks for different command ids, so it does not model the id's wrap after 2^32 commands.
- Receiver.Receiver.Run: the reader's sleep is a step that does nothing; the virtqueue delivers bytes in order.
- TxPool.TxPool.Write: memcpy and the queue are one step under the lock; a failing virtqueue_add_outbuf is not modelled.
- Session: `exit` ends the session and is not modelled; JSON is not either, and the read timeout that ends a wait for a reply is the end of a run; NUL bytes inside a line are ordinary characters.
- Channel.MoveFollows: the virtqueue's own limit on a buffer's size is any size here, and a buffer is delivered or written at one step.
- TopologyKernel.Topo.SetLevel: topo_set_key's two halves, levels and CAP, are two methods here.
- Topology: each level stands once in the kernel's table; slice scaling and frequency are not modelled, nor the panic where a kernel cannot set capacities.
- Topology.UnnamedKeeps: about a level in the kernel's table or out of it; siblings taken from an SMT level out of the table are the empty masks it starts with.
- Shm.MembersFit: what a record says beyond what holds the tables together is one opaque body; the per-CPU class tables are part of the CPU record; the local copies before the final memcpy are not modelled.
- Pelt.NoFalseWarning: between its decay and FallIsWarned's bound the rule may warn or not.
- Pelt.NoFalseWarningInWords: utilizations of 2^63 and more, which no two signals add up to, may wrap into a warning.
- MinDeadline: the driver's script around the check.
- CpuList.ParseCpuList: strips ASCII space and 0xa0 only.
- FuzzDecode.EveryLineAccepted: for verbs that create no task and name no cgroup, as a type; the setup lines are taken as the number of tasks they made; sched_setaffinity's own refusal is not an argument check.
- FuzzDecode.Decode: gives lines with their text a function of them, and leaves out the check lines before the setup.
- Kernel symbol lookup, trace hooks, clock patching, runqueue reset, QEMU and build plumbing, the website, plots and REPL: I/O and user interface.
- The heuristic checkers and the other reproducer drivers: single-branch tests and scripts over kernel code not in the repository.

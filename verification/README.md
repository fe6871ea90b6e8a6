# Verified models of the yellow-zone vLLM stack

This project models the parts of the repository in which correctness depends on how several
pieces work together, and proves what those pieces promise. It is written in Dafny 4.11;
`dafny verify dfyconfig.toml` checks everything.

| file | what it models |
|---|---|
| `PairScheduler.dfy` | the shared-memory protocol by which two vLLM instances take turns running execution rounds, one atomic operation per step |
| `Probe.dfy`, `ProbeBatches.dfy` | the operator probe: one coordinator and `tp` ranks in lock step over tasks, and the exit code over all batches |
| `Phases.dfy`, `SingleHost.dfy`, `TwoContainer.dfy`, `OperationLog.dfy` | the two deadlock reproducers as refinements of one phase machine, what their message counts prove, and the two coordinators' event records |
| `TraceRing.dfy`, `TraceDump.dfy` | the lock-free trace ring with concurrent writers, its decoder, and the raw-memory decoder against the structured one |
| `Annotator.dfy`, `Window.dfy` | the layer and phase labels of trace records, and the window of unresolved kernels |
| `Dispatch.dfy` | the host loops of the expert-parallel prefill dispatch, over all ranks together |
| `Framing.dfy`, `Handshake.dfy` | newline-delimited control messages over a chunked byte stream, and the admission of roles |
| `CpuBinding.dfy`, `CpuMask.dfy` | dividing a cpuset among NPUs across processes, and the kernel's affinity mask |
| `Commands.dfy`, `Paths.dfy` | the command and path parsers of the documentation linter and its comparison |
| `Matrix.dfy`, `TokenPadding.dfy` | the scenario hand-over of the operator matrix, and MC2 capacity against padded token counts |
| `Basics.dfy` | small facts about arithmetic and finite sets |

## How the models are built

Protocols are step machines: a `Step` names who moves, `Enabled` says when it may, `Do` says
what it changes, and `Reaches` is any finite interleaving. Timeouts, heartbeats and crashes
are steps that may happen at any point. Message queues keep the order of each sender and
nothing else. Theorems are about every state of every run, for any number of ranks, tasks,
layers, slots and chunks; the repository's own constants (8 ranks, 1 MiB messages, 5 CPUs per
NPU, 16 + 16 listed kernels) are instances or are used as they stand.

Loops that update lists, dictionaries or arrays are methods with invariants, proved equal to
a specification function; objects updated in place are classes. Pure code is functions and
lemmas.

## What was found

Several promises turned out to hold only under a condition. In each case the model keeps what
the code does, one lemma gives an input on which the promise fails, and another states exactly
when it holds.

- The single-host reproducer's cleanup sets all three events before it breaks the barriers
  (`scripts/repro-tp8-xlite-xccl-deadlock.py:550-556`). After an early give-up this lets model B
  start building before A is ready, or lets a forward start before its turn. Witness
  `SingleHost.EarlyCleanupHappens`; condition, on the state in which the cleanup begins,
  `SingleHost.EarlyCleanup`. The warm-ups stay apart regardless, and the two-container version
  has no such gap.
- A worker of the pair scheduler that opens after its instance has begun its first round takes
  that round's number for its own past. Witness `PairScheduler.LateOpenerFails`, condition
  `PairScheduler.FailsIffLate`. The late worker's calls to enter never succeed
  (`PairScheduler.LateOpenerNeverEnters`), though it may wait rather than fail the pair.
- A scheduler synchronisation that ended after the active one began makes the unresolved window
  contain kernels known to be complete. Witness `Window.LateSyncHappens`, condition
  `Window.NoneKnownComplete`.
- The 32-bit `recv_count` entries are the true prefix sums only while a rank's total fits.
  Witness `Dispatch.StoredSumWraps`, condition `Dispatch.StoredExactly`.
- Global CPU slices of different processes overlap when neither the mapping nor the topology is
  known and they see different numbers of NPUs, although the docstring promises
  non-overlapping partitions. Witness `CpuBinding.FallbackOverlaps`, condition
  `CpuBinding.SlicesNeverOverlap`.
- NPUs sharing a pool can share a CPU if an affinity list over several nodes names it twice.
  Witness `CpuBinding.RepeatedCpuShared`, condition `CpuBinding.SharersApartIff`.
- The documentation linter can miss a difference when one flag is another one continued after a
  space. Witness `Commands.SpaceHidesDifference`, condition `Commands.CompareExact`.
- A quoted name in a YAML path does not come back if it is padded or looks like a number.
  Witness `Paths.QuotedNumberIsIndex`, condition `Paths.QuotedComesBack`.
- A HELLO whose role is a list or a mapping ends the coordinator with an uncaught error. Witness
  `Handshake.CompoundRoleEndsIt`, condition `Handshake.CoordinatorServer.AcceptRoles`.

## Model

| member | source | states |
|---|---|---|
| PairScheduler.RunKeeps | scheduler/src/vllm_pair_scheduler/native/pair_sched.c:313-436 | every interleaving of worker, coordinator and failure steps keeps the protocol invariant: grants, masks, sequence numbers and owner agree |
| PairScheduler.MutualExclusion | scheduler/src/vllm_pair_scheduler/native/pair_sched.c:722-992 | in every run, failed or not, two workers inside a forward belong to the same instance, and that instance is the owner |
| PairScheduler.LockStepRound | scheduler/src/vllm_pair_scheduler/native/pair_sched.c:722-992 | a worker inside a forward holds the newest grant, its whole instance posted READY for that very sequence, the other instance is not granted, and no live peer has moved past the round without completing it |
| PairScheduler.WorkerStepKeepsWorkers | scheduler/src/vllm_pair_scheduler/native/pair_sched.c:722-992 | after any atomic operation of a worker's enter or leave call, every worker of both instances still fits its group's round, sequence and masks, and single-worker sections stay single |
| PairScheduler.CoordStepKeepsWorkers | scheduler/src/vllm_pair_scheduler/native/pair_sched.c:313-416 | no store of the coordinator changes anything a worker inside its section relies on |
| PairScheduler.StepKeeps | scheduler/src/vllm_pair_scheduler/native/pair_sched.c:207-436 | one atomic operation of a worker or the coordinator, or a failure at any point, keeps the invariant: exactly the owner's group is running or complete under the newest grant, and nobody else is inside |
| PairScheduler.CalmRun | scheduler/src/vllm_pair_scheduler/native/pair_sched.c:722-992 | without trips, each group's sequence and each worker's local counter stay in step over the whole run |
| PairScheduler.NoSpuriousFailure | scheduler/src/vllm_pair_scheduler/native/pair_sched.c:653-992 | a run in which no deadline or validation trips and every worker opens before its instance begins never fails the pair and never returns an error from a call |
| PairScheduler.FailsIffLate | scheduler/src/vllm_pair_scheduler/native/pair_sched.c:653-794 | after a timely run without trips, a worker's opening leaves a continuation that fails the pair, without a trip and with everybody else in time, if and only if its instance had already begun its first round |
| PairScheduler.LateOpenerNeverEnters | scheduler/src/vllm_pair_scheduler/native/pair_sched.c:653-794 | once a worker has opened later than that, in every continuation it only waits or is fenced off, and its instance never executes a round |
| PairScheduler.LateOpenerFails | scheduler/src/vllm_pair_scheduler/native/pair_sched.c:653-794 | with two workers an instance, a run in which nothing trips, one worker opens late, that worker is fenced off and the pair fails |
| Probe.RunKeeps | scripts/probe-xccl-hold-vs-qwen3-ops.py:491-762 | every interleaving of ranks, coordinator, deaths and timeouts keeps the order of each rank's messages tied to the events set |
| Probe.LockStep | scripts/probe-xccl-hold-vs-qwen3-ops.py:515-566 | once any rank has entered task i, every rank has prepared i and is through with every earlier task, skipping exactly those whose warm-up failed |
| Probe.SkipAgreement | scripts/probe-xccl-hold-vs-qwen3-ops.py:702-762 | ranks never disagree on skipping a task, and a SKIPPED, PASS or BLOCKED result means every rank said so, was done, or was prepared |
| Probe.FailedIsFrozen | scripts/probe-xccl-hold-vs-qwen3-ops.py:515-534 | after all ranks have reported READY the set of failed warm-ups never changes in any continuation |
| Probe.EveryoneHeard | scripts/probe-xccl-hold-vs-qwen3-ops.py:627-641 | a wait that has heard from as many ranks as there are has heard the wanted answer about the wanted task from every rank |
| Probe.OutcomeShape | scripts/probe-xccl-hold-vs-qwen3-ops.py:690-762 | a finished run has exactly one result per task: passes and skips, then at most one BLOCKED or SETUP_FAILED, then only NOT_RUN |
| Probe.PassWhileHeld | scripts/probe-xccl-hold-vs-qwen3-ops.py:746-762 | a task is judged PASS only with every rank done and A's collective still not returned |
| ProbeBatches.RunIsPossible | scripts/probe-xccl-hold-vs-qwen3-ops.py:650-762 | what the batch loop relies on is what every finished protocol run delivers |
| ProbeBatches.MarkNotRun | scripts/probe-xccl-hold-vs-qwen3-ops.py:644-647 | results so far are kept and every remaining task is NOT_RUN |
| ProbeBatches.BatchResults | scripts/probe-xccl-hold-vs-qwen3-ops.py:846-869 | a batch yields one result per task in order; one that raised has a SETUP_FAILED; without a bad status all are PASS |
| ProbeBatches.ExitCode | scripts/probe-xccl-hold-vs-qwen3-ops.py:822-881 | over all batches there is one result per selected case and attempt in order, and the exit code is 0 if and only if all are PASS, 2 if and only if something was skipped or failed in setup |
| Phases.PhaseRunKeeps | scripts/repro-tp8-xlite-xccl-deadlock.py:254-328 | every run of the phase machine is in phase: A built before B, both built before warm-up, A warmed before B, all armed before any forward, first wave submitted before the second |
| Phases.NoOverlap | scripts/repro-tp8-xlite-xccl-deadlock.py:278-288 | in every state of every run of the phase machine no warm-up forward of A overlaps one of B, and B builds nothing before A is ready |
| Phases.SecondAfterFirst | scripts/repro-tp8-xlite-xccl-deadlock.py:58-59 | in every state of every run of the phase machine a second-wave forward is entered only when every first-wave one has been submitted |
| Phases.WaveSizes | scripts/repro-tp8-xlite-xccl-deadlock.py:58-59 | each wave has exactly tp workers |
| Phases.CountsAnother | scripts/repro-tp8-xlite-xccl-deadlock.py:347-366 | counting messages is counting distinct workers, because each kind is sent at most once per worker |
| Phases.ReadyFromA | scripts/repro-tp8-xlite-xccl-deadlock.py:488-493 | tp READY messages before B is released come from all of A, although the count does not look at the sender |
| Phases.CountWave | scripts/repro-tp8-xlite-xccl-deadlock-two-container.py:477-490 | tp messages of one wave's kind come from the whole wave |
| Phases.DoneAfterModelDone | scripts/repro-tp8-xlite-xccl-deadlock.py:300-328 | received DONE never exceeds received MODEL_DONE |
| Phases.VerdictMeans | scripts/repro-tp8-xlite-xccl-deadlock-two-container.py:491-514 | DEADLOCK_REPRODUCED implies all of the first wave submitted, all of the second entered and no completion received; NO_DEADLOCK implies everyone finished |
| SingleHost.ArriveKeeps | scripts/repro-tp8-xlite-xccl-deadlock.py:278-288 | the cyclic barrier, which only counts, opens exactly when every worker has arrived as often as it has opened |
| SingleHost.Refines | scripts/repro-tp8-xlite-xccl-deadlock.py:254-328 | every run that cleans up only in a state from which that is safe goes through a run of the phase machine state by state |
| SingleHost.OrderlyInPhase | scripts/repro-tp8-xlite-xccl-deadlock.py:486-524 | every state of every such run is in phase |
| SingleHost.ReleasedIsSafe | scripts/repro-tp8-xlite-xccl-deadlock.py:524-556 | cleaning up after the last release is always safe |
| SingleHost.NoWarmOverlap | scripts/repro-tp8-xlite-xccl-deadlock.py:278-288 | on all runs, cleaned up early or not, the warm-ups of A and B never overlap |
| SingleHost.EarlyCleanup | scripts/repro-tp8-xlite-xccl-deadlock.py:550-562 | the parent cleans up in any reachable state: some continuation leaves the phase machine if and only if in that state a live worker of B could start building with A not ready, or the cyclic barrier can still be passed and a live worker would enter too early |
| SingleHost.OpenBarrier | scripts/repro-tp8-xlite-xccl-deadlock.py:278-288 | as long as every worker not through with the barrier is alive, some run opens it to the end |
| SingleHost.EarlyCleanupHappens | scripts/repro-tp8-xlite-xccl-deadlock.py:550-562 | a two-step run in which B starts building with A not ready |
| SingleHost.VerdictHolds | scripts/repro-tp8-xlite-xccl-deadlock.py:524-549 | the verdicts mean what Phases.VerdictMeans says, in every reachable state |
| TwoContainer.Refines | scripts/repro-tp8-xlite-xccl-deadlock-two-container.py:134-181 | every run, however far participants lag behind, goes through a run of the same phase machine |
| TwoContainer.AlwaysInPhase | scripts/repro-tp8-xlite-xccl-deadlock-two-container.py:435-490 | every state of every run is in phase, stopping included |
| TwoContainer.NoControlError | scripts/repro-tp8-xlite-xccl-deadlock-two-container.py:268-318 | no participant ever receives a duplicate INIT or a command before INIT |
| TwoContainer.VerdictHolds | scripts/repro-tp8-xlite-xccl-deadlock-two-container.py:477-514 | the verdicts mean what Phases.VerdictMeans says, in every reachable state |
| OperationLog.OperationStates.Add | scripts/repro-tp8-xlite-xccl-deadlock-two-container.py:342-354 | an acceptable event is recorded even when it is an ERROR, which is then refused; others leave no trace |
| OperationLog.OperationStates.Tally | scripts/repro-tp8-xlite-xccl-deadlock-two-container.py:356-360 | counts the records of a kind, of one model or of both |
| OperationLog.LatestIsLast | scripts/repro-tp8-xlite-xccl-deadlock-two-container.py:342-354 | the state kept per worker is its last event, said without the order of updates |
| OperationLog.TallyIsCount | scripts/repro-tp8-xlite-xccl-deadlock-two-container.py:356-360 | the tallies of records are the message counts the protocol is reasoned about with |
| OperationLog.CollectUntil | scripts/repro-tp8-xlite-xccl-deadlock-two-container.py:370-394 | the wait takes the shortest prefix of messages that reaches the count, ends at the first bad one, and fails only when messages run out |
| OperationLog.StatusCollector.Until | scripts/repro-tp8-xlite-xccl-deadlock.py:353-367 | the wait takes whole rounds of ready connections exactly while the count is short, no error is reported and somebody is connected, and says whether the count was reached |
| TraceRing.RunKeeps | vcann-rt/ubs-virt-enpu/vcann-rt/src/deadlock_trace.c:149-184 | any number of concurrent writers keep every slot's sequence words and record consistent |
| TraceRing.WindowExact | vcann-rt/ubs-virt-enpu/vcann-rt/src/deadlock_trace.c:149-184 | in every reachable state a slot passes the decoder's test for a sequence exactly when that record is committed there and not overwritten |
| TraceRing.Decode | scripts/deadlock-diagnostics/collect_vcann_deadlock.py:387-436 | the decoding loop computes the specification over the last min(limit, capacity) sequences |
| TraceRing.DecodeExact | scripts/deadlock-diagnostics/collect_vcann_deadlock.py:387-436 | the decoded records are exactly the published, un-overwritten ones of the window, each as it was committed under its number |
| TraceRing.PublishedOrdered | scripts/deadlock-diagnostics/collect_vcann_deadlock.py:387-436 | decoded records are strictly increasing in sequence |
| TraceDump.LittleEndianRoundTrip | scripts/deadlock-diagnostics/collect_vcann_deadlock.py:41-52 | decoding the little-endian bytes of a number gives the number back |
| TraceDump.UnpackPacked | scripts/deadlock-diagnostics/collect_vcann_deadlock.py:41-52 | unpacking a packed row anywhere in a buffer gives the row back |
| TraceDump.RowAt | scripts/deadlock-diagnostics/collect_vcann_deadlock.py:387-436 | the k-th row of an array of packed structures is found at k times the structure size |
| TraceDump.DumpStructures | scripts/deadlock-diagnostics/vcann_trace_gdb.py:106-260 | the structured decoder reports the registrations and records the memory describes |
| TraceDump.DecodeRawRecords | scripts/deadlock-diagnostics/collect_vcann_deadlock.py:387-436 | the raw record loop decodes what the unpacked slots describe, with every offset inside the size-checked buffer |
| TraceDump.DecodeRawRegistrations | scripts/deadlock-diagnostics/collect_vcann_deadlock.py:357-386 | the raw registration loop decodes what the unpacked registry describes |
| TraceDump.DecodeRaw | scripts/deadlock-diagnostics/collect_vcann_deadlock.py:285-480 | the raw decoder reports what the unpacked images describe, or that sizes or versions do not match |
| TraceDump.RawRefinesStructured | scripts/deadlock-diagnostics/collect_vcann_deadlock.py:285-480 | on the byte image of any valid memory the raw decoder and the structured decoder report the same sequences, fields and on_sync_stream flags |
| TraceDump.FrozenProcessReport | scripts/deadlock-diagnostics/vcann_trace_gdb.py:106-260 | decoding a process stopped in any reachable state of the ring reports exactly its published records |
| Annotator.Annotate | scripts/deadlock-diagnostics/collect_vcann_deadlock.py:750-807 | the in-place pass leaves every record labelled as the closed form says |
| Annotator.SameStream | scripts/deadlock-diagnostics/collect_vcann_deadlock.py:771-807 | the per-stream state always agrees with the count of collectives since the last device synchronisation and with whether a matrix product came since the last collective |
| Annotator.CollectivesCount | scripts/deadlock-diagnostics/collect_vcann_deadlock.py:782-792 | the count in the closed form is the number of positions holding a collective of that stream |
| Annotator.StreamsIndependent | scripts/deadlock-diagnostics/collect_vcann_deadlock.py:775-780 | records of other streams do not change a record's labels |
| Annotator.Idempotent | scripts/deadlock-diagnostics/collect_vcann_deadlock.py:750-807 | labelling again changes nothing |
| Window.WindowExact | scripts/deadlock-diagnostics/collect_vcann_deadlock.py:842-861 | the window is exactly the visible named kernels submitted before the active synchronisation that no earlier one completed |
| Window.NoneKnownComplete | scripts/deadlock-diagnostics/collect_vcann_deadlock.py:842-861 | the window holds no kernel known complete if and only if no visible kernel is unresolved or no completed synchronisation is visible from the active one's beginning on |
| Window.LateSyncHappens | scripts/deadlock-diagnostics/collect_vcann_deadlock.py:842-861 | a trace in which a reported kernel is known complete |
| Window.BlockedMeans | scripts/deadlock-diagnostics/collect_vcann_deadlock.py:840-890 | the kernel reported is the earliest unresolved one of the scheduler's stream, or else the latest of the device, and is missing only if there is none |
| Window.BoundedAccounts | scripts/deadlock-diagnostics/collect_vcann_deadlock.py:822-829 | a shortened listing accounts for every element |
| Window.BoundedEnds | scripts/deadlock-diagnostics/collect_vcann_deadlock.py:822-829 | its first and last 16 entries are those of the window |
| Dispatch.NumberChoices | vllm-ascend/csrc/torch_binding.cpp:645-660 | each choice is numbered by the choices of the same expert before it, and the accumulator ends with the counts per expert |
| Dispatch.LayOut | vllm-ascend/csrc/torch_binding.cpp:662-693 | the receive loop stores the inclusive prefix sums over (local expert, source) cut to 32 bits, the offsets, the totals per local expert, the grand total and the largest sender |
| Dispatch.StoredExactly | vllm-ascend/csrc/torch_binding.cpp:676-688 | the stored sums are the true ones if and only if the rank's total fits 32 bits |
| Dispatch.StoredSumWraps | vllm-ascend/csrc/torch_binding.cpp:676-688 | two ranks sending 2^30 tokens each to one expert make the stored total negative |
| Dispatch.PrefixIsBase | vllm-ascend/csrc/torch_binding.cpp:676-688 | with the counts delivered transposed, the prefix sums are the block bases of the whole system |
| Dispatch.OwnerOfSlot | vllm-ascend/csrc/torch_binding.cpp:645-693 | every choice gets a slot inside its destination's total, and no two share one |
| Dispatch.SlotOfOwner | vllm-ascend/csrc/torch_binding.cpp:645-693 | every slot below a destination's total is the slot of some choice |
| Dispatch.SlotFromLoops | vllm-ascend/csrc/torch_binding.cpp:645-693 | the slot can be read off the outputs of the two loops when the total fits |
| Dispatch.Conservation | vllm-ascend/csrc/torch_binding.cpp:645-693 | the totals over all destinations are the non-negative choices over all sources |
| Framing.Drain | scripts/two_container_control.py:57-77 | the inner loop takes the complete lines up to the first bad one and leaves the unfinished line |
| Framing.ReadLoop | scripts/two_container_control.py:46-80 | the messages depend only on the bytes, for every chunking; with chunks within the size limit so does the error, and the buffer never exceeds the limit |
| Framing.SplitConcat | scripts/two_container_control.py:46-80 | splitting a stream at newlines can be resumed at any point |
| Framing.SentArrives | scripts/two_container_control.py:82-99 | messages accepted for sending arrive in order up to the first without a string type, so all arrive if and only if all have one |
| Handshake.CoordinatorServer.Reject | scripts/two_container_control.py:246-262 | a HELLO is welcome if and only if all its fields match and its role is wanted and free, a list or mapping as role ends the program, and otherwise the reason given is the first check that fails |
| Handshake.CoordinatorServer.AcceptRoles | scripts/two_container_control.py:215-244 | each role is held by the first connection that properly asked for it, none is taken once all are held, and the wait succeeds if and only if all roles are properly asked for before a connection whose role cannot be looked up ends the program |
| Handshake.CompoundRoleEndsIt | scripts/two_container_control.py:235-262 | the role is asked for properly, but after a HELLO whose role is a list, and the wait cannot succeed |
| CpuMask.CpuToMask | vllm-ascend/vllm_ascend/cpu_binding.py:168-175 | the comma-separated 32-bit hexadecimal words denote exactly two to the power of the CPU |
| CpuBinding.SlicesCover | vllm-ascend/vllm_ascend/cpu_binding.py:306-311 | every CPU of the cpuset is in some global slice |
| CpuBinding.SlicesDisjoint | vllm-ascend/vllm_ascend/cpu_binding.py:306-311 | and in no other |
| CpuBinding.SliceFor | vllm-ascend/vllm_ascend/cpu_binding.py:279-311 | slice sizes differ by at most one |
| CpuBinding.SortedSetOfSame | vllm-ascend/vllm_ascend/cpu_binding.py:265-265 | how the cpuset is listed makes no difference |
| CpuBinding.OnePurpose | vllm-ascend/vllm_ascend/cpu_binding.py:373-385 | over all NPUs of all processes that agree on the cpuset and the number of NPUs, a CPU has at most one NPU and one role |
| CpuBinding.RolesApart | vllm-ascend/vllm_ascend/cpu_binding.py:373-385 | within a pool no CPU serves two of the interrupt, main, acl and release roles |
| CpuBinding.RolesDivide | vllm-ascend/vllm_ascend/cpu_binding.py:373-385 | those roles together are the pool, with main not empty |
| CpuBinding.SlicesNeverOverlap | vllm-ascend/vllm_ascend/cpu_binding.py:246-317 | two processes on one machine that both get their slices never hand one CPU to different NPUs, if and only if a mapping or a topology is known or they see equally many NPUs |
| CpuBinding.FallbackOverlaps | vllm-ascend/vllm_ascend/cpu_binding.py:270-276 | two such processes that hand one CPU to different NPUs |
| CpuBinding.CpuAlloc.BuildGlobalSlice | vllm-ascend/vllm_ascend/cpu_binding.py:246-317 | every visible NPU gets its global slice; fails exactly on too few CPUs per NPU or an NPU out of range |
| CpuBinding.AverageDistribute | vllm-ascend/vllm_ascend/cpu_binding.py:207-216 | each sharer gets its part of the sorted pool |
| CpuBinding.CpuAlloc.BuildTopo | vllm-ascend/vllm_ascend/cpu_binding.py:341-371 | every visible NPU ends with its share of the plan made for all NPUs concerned, or the exact reason why there is none |
| CpuBinding.ExtendIs | vllm-ascend/vllm_ascend/cpu_binding.py:218-230 | extending keeps the CPUs that were there and adds only allowed CPUs of the next node |
| CpuBinding.PlanInCpuset | vllm-ascend/vllm_ascend/cpu_binding.py:343-354 | every planned pool holds the NPU's own allowed CPUs and nothing outside the cpuset |
| CpuBinding.ShareInPool | vllm-ascend/vllm_ascend/cpu_binding.py:356-371 | an NPU's final share is part of its pool |
| CpuBinding.ProcessesAgree | vllm-ascend/vllm_ascend/cpu_binding.py:341-371 | two processes that see different NPUs and both find a plan find the same plan for the same NPUs |
| CpuBinding.SharersCover | vllm-ascend/vllm_ascend/cpu_binding.py:207-216 | every CPU of a pool is in the final share of some NPU with that pool |
| CpuBinding.DisjointIffClean | vllm-ascend/vllm_ascend/cpu_binding.py:207-216 | the parts share no CPU if and only if no CPU listed twice sits across a cut |
| CpuBinding.OneNodeApart | vllm-ascend/vllm_ascend/cpu_binding.py:218-230 | if an NPU's own CPUs lie on one node, its pool lists no CPU twice and its sharers' shares are disjoint |
| CpuBinding.RepeatedCpuShared | vllm-ascend/vllm_ascend/cpu_binding.py:341-371 | a machine whose plan succeeds with five CPUs for each of two NPUs, both of which get CPU 4 |
| CpuBinding.SharersApartIff | vllm-ascend/vllm_ascend/cpu_binding.py:356-371 | the final shares of all NPUs with one pool are disjoint if and only if no CPU listed twice sits across a cut of the sorted pool |
| CpuBinding.SharingAcrossProcesses | vllm-ascend/vllm_ascend/cpu_binding.py:341-371 | two processes that see different NPUs and both find a plan agree on all pools; the sharers of a pool, whoever sees them, cover it, and get disjoint shares exactly under that condition, always if its CPUs lie on one node |
| CpuBinding.CpuAlloc.Allocate | vllm-ascend/vllm_ascend/cpu_binding.py:373-385 | succeeds if and only if every pool has five CPUs, and then hands every pool to its roles |
| Commands.ParseTokens | vllm-ascend/tools/check_docs_yaml_sync.py:476-507 | the index-and-set loop computes the recursive specification, error cases included |
| Commands.ParseUndoesWrite | vllm-ascend/tools/check_docs_yaml_sync.py:476-507 | parsing undoes writing for every command with distinct flags and values that are no flags |
| Commands.WriteUndoesParse | vllm-ascend/tools/check_docs_yaml_sync.py:476-507 | whitespace-normal tokens parse if and only if they are what some valid command is written as, and writing gives them back |
| Commands.NormalIdempotent | vllm-ascend/tools/check_docs_yaml_sync.py:497-505 | normalising whitespace twice is normalising once |
| Commands.FragmentsParse | vllm-ascend/tools/check_docs_yaml_sync.py:540-553 | a command spread over several targets parses as the whole |
| Commands.JoinFragments | vllm-ascend/tools/check_docs_yaml_sync.py:549-552 | the loop puts the fragments together after the fixed beginning |
| Commands.CompareExact | vllm-ascend/tools/check_docs_yaml_sync.py:561-571 | over a set of flag names, the comparison finds a difference exactly when models or parameter multisets differ, for all commands with those flags, if and only if no name is another one continued after a space |
| Commands.SpaceFreeExact | vllm-ascend/tools/check_docs_yaml_sync.py:561-571 | in particular for all names without spaces |
| Commands.SpaceHidesDifference | vllm-ascend/tools/check_docs_yaml_sync.py:106-118 | two different commands between which the comparison sees no difference |
| Paths.ParseSegments | vllm-ascend/tools/check_docs_yaml_sync.py:312-363 | the character loop computes the automaton, error cases included |
| Paths.ParseUndoesWrite | vllm-ascend/tools/check_docs_yaml_sync.py:312-363 | parsing undoes every valid way of writing a list of segments: dotted, quoted or indexed |
| Paths.CanWrite | vllm-ascend/tools/check_docs_yaml_sync.py:312-363 | every list of indices and of trimmed, non-numeric names without an apostrophe can be written |
| Paths.QuotedComesBack | vllm-ascend/tools/check_docs_yaml_sync.py:321-341 | a quoted name comes back if and only if it is not empty, not padded and not all digits, and comes back as an index exactly when its stripped text is all digits |
| Paths.QuotedNumberIsIndex | vllm-ascend/tools/check_docs_yaml_sync.py:334-341 | the key 7 as a witness: quoted it is an index, dotted a name |
| Paths.ResolveConcat | vllm-ascend/tools/check_docs_yaml_sync.py:365-387 | resolving a concatenated path is resolving the prefix and then the suffix, errors included |
| Paths.ResolveText | vllm-ascend/tools/check_docs_yaml_sync.py:312-387 | the same from the text of the two paths |
| Matrix.LoadConfig | scripts/xccl_allreduce_x.py:217-303 | loading succeeds if and only if ids are unique and no entry lacks shapes, and then expands every entry |
| Matrix.Handoff | scripts/run-xccl-allreduce-x-matrix.py:222-228 | for every configuration and filter the worker picks the very scenario the driver selected |
| Matrix.HandoffIff | scripts/run-xccl-allreduce-x-matrix.py:52-63 | the hand-over is right for every filter if and only if scenarios of one id are of one kind |
| Matrix.JobsDistinct | scripts/run-xccl-allreduce-x-matrix.py:255-262 | id, shape index and attempt tell all cases of a run apart |
| Matrix.RunCase | scripts/run-xccl-allreduce-x-matrix.py:262-290 | a contention run comes right after a passed preflight of the same attempt, and an abort leaves one infrastructure failure at the end |
| Matrix.RunMatrix | scripts/run-xccl-allreduce-x-matrix.py:253-298 | under fail-fast an infrastructure failure can only be last, otherwise every case is served, and the exit code is 0 if and only if nothing failed and every expectation was met |
| Matrix.Drive | scripts/run-xccl-allreduce-x-matrix.py:235-298 | from configuration to exit code: every record comes from a worker that ran the very scenario selected for it, over every attempt of every selected scenario |
| TokenPadding.PaddedFits | vllm-ascend/vllm_ascend/ascend_forward_context.py:254-309 | whenever unfused MC2 is chosen, on any device, the padded count is a multiple of the tensor-parallel size and fits the capacity, and fits exactly when the count does |
| TokenPadding.TokenCapacity.Set | vllm-ascend/vllm_ascend/ascend_forward_context.py:195-207 | the first call fixes the capacity as a multiple of the tensor-parallel size; later calls change nothing |
| TokenPadding.PadSizes | vllm-ascend/vllm_ascend/ascend_forward_context.py:130-167 | both ways of computing the padding agree with rounding up, and it is never negative |
| TokenPadding.OnlyMultiplesFit | vllm-ascend/vllm_ascend/ascend_forward_context.py:205-207 | every count that fits pads to one that fits if and only if the capacity is a multiple of the tensor-parallel size |

## Left out

- Pair scheduler: creating and mapping the shared file, closing and re-registering a context, heartbeats and deadline arithmetic, the choice of the longest-waiting publisher (any eligible one may be picked), futex sleeping and snapshots; an instance nobody has opened counts as idle, and memory is sequentially consistent.
- Probe: building and executing operators, process start-up and shutdown, and the contents of messages beyond kind and key; `distribute` and `padded_rows` are one-line arithmetic.
- SingleHost: the three events are set in one step; a barrier that has been broken still lets out workers it had already released, which allows more runs than the library does; an odd number of ranks is excluded because the code halves it.
- TwoContainer: sending one command to both participants is one step, and the confirmation wait after a hang is the same wait as before it.
- OperationLog: the printed state table, and details of error texts.
- Trace ring: the kernel registry's own lock and the sync probes' update order; the ring's 64-bit counters are unbounded.
- Trace dump: symbol and string lookups in the target process, names of kinds, and the fixed-width kernel names, on which the two decoders treat embedded zero bytes differently.
- Annotator: the regular expression that normalises kernel names and the list of launch kinds; a record comes with its normalised name and with whether it is a launch.
- Window: the evidence sentences and the last-before and first-after attempts in the summary row; a synchronisation record names no kernel.
- Dispatch.NumberChoices: per-expert numbers are unbounded; their 32-bit counters would overflow only with more than 2^31 - 1 choices of one expert. Expert ids are below the number of experts, as the code needs.
- Dispatch: the device kernels; that the exchange delivers the transposed counts is an assumption.
- Framing: JSON and UTF-8 decoding are a parameter, as is the encoder, which writes no raw newline (section 7 of RFC 8259); closing the peer while reading.
- Handshake: that an admitted peer is still open, which the code does not promise because it registers the peer before acknowledging.
- CpuBinding: parsing `npu-smi`, `lscpu` and `/proc` output including `expand_cpu_list`, binding threads and interrupts, and disjointness of different pools in topology mode, which does not hold after extension.
- Commands: shell splitting, environment blocks and Markdown extraction; white space is that of ASCII.
- Paths: digits and whitespace are ASCII; loading YAML.
- Matrix: validation of operators, shapes and expectations, the refusal of unknown ids, and starting workers; the three nested loops are one loop over the list of cases.
- TokenPadding: the token mask, and the communication methods themselves; division by floating point for padding is exact integer division.

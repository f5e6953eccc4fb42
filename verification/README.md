# A verified model of the SystemC-VPC scheduling core

SystemC-VPC simulates applications on virtual processing components. This project models the part of it that
decides who may compute when, and proves what that part is relied on for:

- the preemptive component: the loop of its scheduler thread and the life of a task instance, with six
  pluggable schedulers (static priority, round robin, TDMA, credit-based AVB shaping after section 8.6.8.2
  of IEEE Std 802.1Q, stream shaping, time-triggered communication controller);
- the non-preemptive component;
- the delayed-delivery queue, on the event semantics of section 5.10.8 of IEEE Std 1666-2011;
- the join in front of an actor firing;
- multicast messages on static routes;
- the sliding-window power governor;
- the three architectures of the inverse discrete cosine transform that serves as a test application.

How it is built. Each component has a functional specification (`State`, operations, `Step`, `Run`) and, where
the source updates objects in place, a class whose methods are proved to perform exactly those operations.
Results about runs quantify over every sequence of events the environment and the kernel may produce:
arrivals at any time, wake-ups of the thread at any time up to its time-out, call-backs that release further
tasks in the middle of a pass. Times and bandwidths are exact real numbers.

| files | content |
|---|---|
| `basics.dfy`, `lifecycle.dfy`, `history.dfy`, `turns.dfy` | times, tasks, maps; the observer's state machine of an instance; what a trace says, and whose turn it is by the trace |
| `priority.dfy`, `round_robin.dfy`, `tdma.dfy`, `avb.dfy`, `stream_shaper.dfy`, `ttcc.dfy` | the schedulers: specification, agreement lemmas, class |
| `scheduling.dfy`, `scheduler_objects.dfy` | the scheduler interface on values and on objects |
| `component.dfy`, `conservation.dfy`, `preemptive_component.dfy` | the component: transition system, invariants over runs, class |
| `latency_delivery.dfy` | the component and the queue that delivers its latencies |
| `*_runs.dfy`, `avb_ledger.dfy`, `avb_backlog.dfy`, `avb_service.dfy`, `avb_order.dfy`, `priority_order.dfy`, `slot_order.dfy` | what each policy guarantees over whole runs |
| `time_outs.dfy` | how long the thread sleeps, under every policy |
| `nonpreemptive.dfy`, `time_queue.dfy`, `firing.dfy`, `multicast.dfy`, `governor.dfy` | the other components |
| `idct.dfy`, `idct_pipeline.dfy`, `idct_network.dfy`, `idct_bounds.dfy`, `idct_accuracy.dfy`, `idct_block.dfy` | the transform, and its distance from the exact one |

Three run-time assertions of the source can fail. Each has a lemma with a concrete run that reaches it and one
that says exactly when it is reached: `RoundRobinRuns.ArrivalFails`, `AvbService.SliceAssertExactly`,
`TimeQueues.ArmedExactly`. The slot table of a message can be too small: `Multicast.TableFits` says exactly when.
The time-triggered controller files the filters of processes and of instances in one map, though both ids count
from 0, and so can serve a process in a cycle that its filter forbids: `TtccRuns.WrongCycle` is such a run, and
`TtccRuns.FiltersKept` says exactly when every process keeps its filter.

The kernel takes a notification back when its event triggers, and runs the waiting process later in the same
phase. Where that matters (delayed delivery, the governor, the non-preemptive component) trigger and run are two
events of the model, with anything in between; the thread of the preemptive component may be woken at any time
up to its time-out, so a notification between its trigger and its pass adds no behaviour.

## Model

| member | source | states |
|---|---|---|
| Conservation.Agreement | src/systemcvpc/cpp/detail/PreemptiveScheduler/PreemptiveComponent.cpp:187-306 | In every reachable state, under every policy, the scheduler's private queues name exactly the instances of the component's maps, each once, the maps are disjoint, and at most one instance runs |
| Conservation.Conserved | src/systemcvpc/cpp/detail/AbstractComponent.cpp:323-418 | In every run each instance's observed life is a prefix of RELEASE (ASSIGN RESIGN)* ASSIGN FINISHDII FINISHLAT; assigned time plus remaining delay is its delay, FINISHDII comes exactly when the assigned time reaches the delay, FINISHLAT exactly latency - delay later, given that latencies are delivered when they end (which LatencyDelivery.OnTimeTogether derives) |
| LatencyDelivery.OnTimeTogether | src/systemcvpc/cpp/detail/AbstractComponent.cpp:376-396 | The component and its delayed-delivery queue together, under kernel rules that say nothing of latencies: the component sees a legal run of its own, with a Latency event for exactly what the queue delivers; the queue sees a legal run in which nothing is added without delay, so its event is exact and its checks hold; it holds exactly the latencies still running |
| LatencyDelivery.AddsPositive | src/systemcvpc/cpp/detail/AbstractComponent.cpp:392-395 | Every add of the component to the queue has a positive delay and is for an instance that the queue does not hold |
| Conservation.PassAssertsHold | src/systemcvpc/cpp/detail/PreemptiveScheduler/PreemptiveComponent.cpp:213-296 | The assertions of a pass about elapsed and remaining time and about the two maps, that of assigning to a busy resource, and that of the scheduler's decision hold in every run; only a round-robin decision's assertion is a hypothesis (see RoundRobinRuns.ArrivalFails). The assertions about `activeTasks` and that of the AVB slice are not among them |
| Scheduling.AllowedAsserts | src/systemcvpc/cpp/detail/PreemptiveScheduler/TDMAScheduler.cpp:203-229 | The assertions of the decisions of all schedulers but round robin hold in every configuration |
| Conservation.StepInv | src/systemcvpc/cpp/detail/PreemptiveScheduler/PreemptiveComponent.cpp:207-306 | One event of the environment keeps agreement, conservation and the bound of the thread's time-out by the remaining delay of what runs, so nothing overshoots |
| Scheduling.DecideAgree | src/systemcvpc/cpp/detail/PreemptiveScheduler/PreemptiveComponent.cpp:246-288 | Every policy decides something the component can execute (the resigned instance runs, the assigned one is ready once the resource is free), and after the move queues and maps still agree |
| Scheduling.AddedAgree | src/systemcvpc/cpp/detail/PreemptiveScheduler/PreemptiveComponent.cpp:187-196 | A new instance enters the private queues exactly as it enters the ready map, for every policy |
| Scheduling.RemovedAgree | src/systemcvpc/cpp/detail/PreemptiveScheduler/PreemptiveComponent.cpp:226-227 | A finished instance leaves the private queues exactly as it leaves the running map, for every policy |
| Scheduling.AfterTidy | src/systemcvpc/cpp/detail/PreemptiveScheduler/PreemptiveComponent.cpp:250-288 | Executing a decision loses, duplicates and changes no instance |
| PreemptiveComponents.PreemptiveComponent.ScheduleThread | src/systemcvpc/cpp/detail/PreemptiveScheduler/PreemptiveComponent.cpp:211-305 | One pass of the thread performs exactly the Wake step of the transition system, keeps its invariant, and the run-time checks about maps, times and resource hold, given the round-robin assertion |
| PreemptiveComponents.PreemptiveComponent.Compute | src/systemcvpc/cpp/detail/PreemptiveScheduler/PreemptiveComponent.cpp:170-202 | Handing over an instance performs exactly the Arrive step: released, ready, known to the scheduler, thread notified |
| PreemptiveComponents.PreemptiveComponent.LatencyExpired | src/systemcvpc/cpp/detail/AbstractComponent.cpp:199-211 | The delivery of an expired latency performs exactly the Latency step |
| PreemptiveComponents.PreemptiveComponent.ChargeRunningTasks | src/systemcvpc/cpp/detail/PreemptiveScheduler/PreemptiveComponent.cpp:217-244 | The first loop charges the running instance for the time since its last charging and finishes it exactly when nothing remains |
| PreemptiveComponents.PreemptiveComponent.ResignPart | src/systemcvpc/cpp/detail/PreemptiveScheduler/PreemptiveComponent.cpp:250-259 | The resigned instance moves from the running to the ready map and gives up the resource |
| PreemptiveComponents.PreemptiveComponent.AssignPart | src/systemcvpc/cpp/detail/PreemptiveScheduler/PreemptiveComponent.cpp:276-288 | The assigned instance moves from the ready to the running map and takes the free resource now |
| PreemptiveComponents.PreemptiveComponent.BoundWait | src/systemcvpc/cpp/detail/PreemptiveScheduler/PreemptiveComponent.cpp:290-298 | The wait is the lesser of slice and remaining delay, the remaining delay if there is no slice, and none if nothing runs |
| TimeOuts.TimeOutExact | src/systemcvpc/cpp/detail/PreemptiveScheduler/PreemptiveComponent.cpp:257-305 | In every run, under every policy, after every pass that leaves a task running the time-out is exactly the sooner of the end of that task and the end of the slice that the policy named, and time passes before it unless that slice is empty; with nothing running it is exactly the end of the slice |
| TimeOuts.SleepsExactly | src/systemcvpc/cpp/detail/PreemptiveScheduler/PreemptiveComponent.cpp:257-305 | In every reachable state in which the thread sleeps and a task runs, the time-out is the sooner of the end of the task and the end of the slice by the state of its policy: the end of the slot found by walking the slots, the last assignment plus the slice or the period, the end of the time-triggered slot, the instant at which the first waiting class has paid its debt. Two exceptions sleep until the task ends: a round-robin task that was assigned with an empty deque, and an AVB task that a pass has found running |
| PreemptiveComponents.PreemptiveComponent.FinishDiiTaskInstance | src/systemcvpc/cpp/detail/AbstractComponent.cpp:376-396 | The interval ends: the resource is free, and the latency ends now if it equals the delay, otherwise after the difference |
| PreemptiveComponents.PreemptiveComponent.RanTaskInstance | src/systemcvpc/cpp/detail/AbstractComponent.cpp:346-352 | The remaining delay drops by the time since the last charging |
| SchedulerObjects.SchedulerPtr.SchedulingDecision | src/systemcvpc/cpp/detail/PreemptiveScheduler/Scheduler.hpp:51-119 | Whatever scheduler object is plugged in, a decision and its effect on the object are those of its policy |
| PriorityRuns.Urgency | src/systemcvpc/cpp/detail/PreemptiveScheduler/PriorityScheduler.cpp:62-100 | Whenever time can pass, a task runs if any is ready, and none that is ready is more urgent |
| PriorityRuns.FirstComeFirstServed | src/systemcvpc/cpp/detail/PreemptiveScheduler/PriorityScheduler.cpp:49-100 | Although preempted instances are queued again with order 0, no instance starts before every earlier arrival of its level has finished |
| PriorityRuns.PreemptionStack | src/systemcvpc/cpp/detail/PreemptiveScheduler/PriorityScheduler.cpp:77-93 | Started, unfinished instances form a stack of strictly more urgent levels, topped by the running one |
| PriorityRuns.PreemptionsBounded | src/systemcvpc/cpp/detail/PreemptiveScheduler/PriorityScheduler.cpp:77-93 | There are never more preemptions than first starts, nor more of those than arrivals |
| PriorityScheduling.Top | src/systemcvpc/cpp/detail/TaskInstanceImpl.hpp:130-148 | The top of the queue is an entry that no other is more urgent than, by priority and then by order number |
| PriorityScheduling.PriorityScheduler.SchedulingDecision | src/systemcvpc/cpp/detail/PreemptiveScheduler/PriorityScheduler.cpp:62-100 | The decision and the queue it leaves are those of the priority policy |
| RoundRobinRuns.BoundedWaiting | src/systemcvpc/cpp/detail/PreemptiveScheduler/RoundRobinScheduler.cpp:64-110 | An instance at position k, queued no later than the slice ends, is assigned no later than k slices after that end in every continuation; until then the clock has not passed that instant and the thread sleeps no longer |
| RoundRobinRuns.SlicesKept | src/systemcvpc/cpp/detail/PreemptiveScheduler/RoundRobinScheduler.cpp:72-110 | By the trace of every run, an instance is resigned exactly one slice after its last assignment |
| RoundRobinRuns.TurnsKept | src/systemcvpc/cpp/detail/PreemptiveScheduler/RoundRobinScheduler.cpp:51-110 | By the trace of every run, instances are assigned in the order in which they were released or came back after a preemption, and the deque is that line |
| RoundRobinRuns.ArrivalFails | src/systemcvpc/cpp/detail/PreemptiveScheduler/RoundRobinScheduler.cpp:96 | In a sleeping state before which no assertion has failed, an arrival makes the next decision fail its assertion if and only if a task that is still unfinished has run past the end of its slice, and such a task runs alone |
| RoundRobinRuns.LoneTaskOverruns | src/systemcvpc/cpp/detail/PreemptiveScheduler/RoundRobinScheduler.cpp:96 | A concrete run in which the assertion fails: a long task alone, and a second arrival after its slice |
| RoundRobinScheduling.RoundRobinScheduler.SchedulingDecision | src/systemcvpc/cpp/detail/PreemptiveScheduler/RoundRobinScheduler.cpp:72-110 | The decision and the deque it leaves are those of the round-robin policy, given the source's assertion |
| RoundRobinScheduling.RoundRobinScheduler.GetSchedulerTimeSlice | src/systemcvpc/cpp/detail/PreemptiveScheduler/RoundRobinScheduler.cpp:41-49 | The time left in the slice, if anything is there and time is left |
| RoundRobinScheduling.RoundRobinScheduler.RemovedTask | src/systemcvpc/cpp/detail/PreemptiveScheduler/RoundRobinScheduler.cpp:53-61 | The first occurrence of the instance leaves the deque |
| TdmaRuns.Isolation | src/systemcvpc/cpp/detail/PreemptiveScheduler/TDMAScheduler.cpp:203-261 | At every instant of every run, between events as well as at them, a running task belongs to the slot that contains the instant, by the table lookup and by walking the slots |
| TdmaRuns.SlotShare | src/systemcvpc/cpp/detail/PreemptiveScheduler/TDMAScheduler.cpp:133-261 | In every cycle of every run the tasks of a slot execute for at most the length of the slot |
| SlotOrder.DequesInOrder | src/systemcvpc/cpp/detail/PreemptiveScheduler/TDMAScheduler.cpp:157-198 | In every run of the TDMA and of the time-triggered scheduler, the deque of a slot holds exactly the unfinished instances of its processes in the order of their release |
| SlotOrder.FrontServed | src/systemcvpc/cpp/detail/PreemptiveScheduler/TDMAScheduler.cpp:203-261 | After every pass of every run exactly the front of the deque of the slot that contains the instant runs, or nobody if it is empty |
| TdmaScheduling.LookupIsScan | src/systemcvpc/cpp/detail/PreemptiveScheduler/TDMAScheduler.cpp:212-229 | The slot found through upper_bound is the slot found by walking the slots, its offsets enclose the instant, and the slice runs exactly to its end |
| TdmaScheduling.AddSlotConfigured | src/systemcvpc/cpp/detail/PreemptiveScheduler/TDMAScheduler.cpp:84-99 | Adding a slot, also the first one, keeps the offset table in agreement with the prefix sums of the lengths |
| TdmaScheduling.AddedAgree | src/systemcvpc/cpp/detail/PreemptiveScheduler/TDMAScheduler.cpp:157-181 | Every instance is in the deque of its process's slot, once and nowhere else, also when the mapping or the only slot had to be made up |
| TdmaScheduling.RemovedAgree | src/systemcvpc/cpp/detail/PreemptiveScheduler/TDMAScheduler.cpp:184-198 | A finished instance leaves exactly its own deque |
| TdmaScheduling.CycleTimeBounds | src/systemcvpc/cpp/detail/PreemptiveScheduler/TDMAScheduler.cpp:212-213 | The remainder of the time lies in the cycle |
| TdmaScheduling.TdmaScheduler.SetMapping | src/systemcvpc/cpp/detail/PreemptiveScheduler/TDMAScheduler.cpp:104-114 | A process is mapped to the first slot of the given name, or to the last slot if there is none |
| TdmaScheduling.TdmaScheduler.SchedulingDecision | src/systemcvpc/cpp/detail/PreemptiveScheduler/TDMAScheduler.cpp:203-261 | The front of the current slot's deque runs, or nobody |
| TdmaScheduling.TdmaScheduler.GetSchedulerTimeSlice | src/systemcvpc/cpp/detail/PreemptiveScheduler/TDMAScheduler.cpp:133-154 | The time to the end of the current slot, if anybody is there |
| TdmaScheduling.TdmaScheduler.AddedNewTask | src/systemcvpc/cpp/detail/PreemptiveScheduler/TDMAScheduler.cpp:157-181 | The instance joins the deque of its slot; an unmapped process gets the default slot |
| AvbRuns.Bandwidth | src/systemcvpc/cpp/detail/PreemptiveScheduler/AVBScheduler.cpp:139-227 | Over any run a class holds the link for at most its share of the elapsed time plus the credit it uses up |
| AvbRuns.BandwidthFromStart | src/systemcvpc/cpp/detail/PreemptiveScheduler/AVBScheduler.cpp:139-227 | From the start that is at most its share of the time plus longest delay times (1 - bandwidth) |
| AvbRuns.CreditFloor | src/systemcvpc/cpp/detail/PreemptiveScheduler/AVBScheduler.cpp:152-204 | The credit of a class never falls below minus the cost of serving its most expensive task, delay times (1 - bandwidth) |
| AvbRuns.DefaultNeverInDebt | src/systemcvpc/cpp/detail/PreemptiveScheduler/AVBScheduler.cpp:37-46 | The default class of bandwidth 1 never has negative credit |
| AvbRuns.EmptyHoldsNoCredit | src/systemcvpc/cpp/detail/PreemptiveScheduler/AVBScheduler.cpp:168-204 | A class that is empty and not sending holds no positive credit; the running task came from the class marked active, and no class is marked exactly when the link is idle |
| AvbOrder.ClassInOrder | src/systemcvpc/cpp/detail/PreemptiveScheduler/AVBScheduler.cpp:206-217 | In every run, nobody is preempted, and for each class the arrivals with priorities above the level before it and up to its own are those that were assigned, in order of assignment, followed by its queue |
| AvbOrder.FirstClassServes | src/systemcvpc/cpp/detail/PreemptiveScheduler/AVBScheduler.cpp:206-227 | A pass that finds the link free starts a task unless every class is empty or in debt; the class of the task it starts has credit, and every class before it is empty or in debt; a task that is sending goes on |
| AvbOrder.IdleEarnsNothing | src/systemcvpc/cpp/detail/PreemptiveScheduler/AVBScheduler.cpp:152-204 | Credit is not saved up: in every run, a class that is empty and not sending has no positive credit after the next pass, whatever has arrived for it until then |
| AvbLedger.ChargeAtMost | src/systemcvpc/cpp/detail/PreemptiveScheduler/AVBScheduler.cpp:152-204 | No update branch and no reset gives a class more than its share of the time, less the time if it is active |
| AvbLedger.ChargeAtLeast | src/systemcvpc/cpp/detail/PreemptiveScheduler/AVBScheduler.cpp:152-204 | No update branch takes more than the time costs, unless it leaves a credit that is not negative |
| AvbScheduling.NeededLeast | src/systemcvpc/cpp/detail/PreemptiveScheduler/AVBScheduler.cpp:89-101 | The computed slice is positive as soon as a class waits, is what some waiting class needs, and no waiting class needs less |
| AvbService.IdleWakeExact | src/systemcvpc/cpp/detail/PreemptiveScheduler/AVBScheduler.cpp:80-104 | On an idle link with waiting tasks every waiting class is in debt; the pass at the time-out assigns a task and no earlier pass does |
| AvbService.BackloggedBandwidth | src/systemcvpc/cpp/detail/PreemptiveScheduler/AVBScheduler.cpp:139-227 | While a class stays backlogged the bandwidth bound is met with equality |
| AvbService.CreditCeiling | src/systemcvpc/cpp/detail/PreemptiveScheduler/AVBScheduler.cpp:139-227 | The credit of the most important class never exceeds its share of the longest task: it is held up by one task at a time |
| AvbService.GuaranteedService | src/systemcvpc/cpp/detail/PreemptiveScheduler/AVBScheduler.cpp:139-227 | While it stays backlogged the most important class sends for at least its share of the time, short of its share of one longest task |
| AvbService.SliceAssertExactly | src/systemcvpc/cpp/detail/PreemptiveScheduler/AVBScheduler.cpp:92-94 | The assertion of the slice computation fails if and only if the decision assigned a task and another class, or another task of the same class, could have been served |
| AvbService.TwoArrivalsFailSlice | src/systemcvpc/cpp/detail/PreemptiveScheduler/AVBScheduler.cpp:92-94 | A concrete run in which it fails: two tasks that arrive together in the default class |
| AvbScheduling.InsertConfigured | src/systemcvpc/cpp/detail/PreemptiveScheduler/AVBScheduler.cpp:56-77 | Configuring a class keeps the levels ascending and the default class last |
| AvbScheduling.InsertKeeps | src/systemcvpc/cpp/detail/PreemptiveScheduler/AVBScheduler.cpp:66-75 | An insertion that finds its place loses and duplicates no class |
| AvbScheduling.AddedAgree | src/systemcvpc/cpp/detail/PreemptiveScheduler/AVBScheduler.cpp:108-121 | A task of any 32-bit priority joins exactly one class queue, the one its priority selects |
| AvbScheduling.AvbListEntry.IncrementCredit | src/systemcvpc/cpp/detail/PreemptiveScheduler/AVBScheduler.hpp:83-94 | Sign and magnitude refine signed addition, and a missing credit stays a positive debt |
| AvbScheduling.AvbListEntry.DecrementCredit | src/systemcvpc/cpp/detail/PreemptiveScheduler/AVBScheduler.hpp:96-107 | Sign and magnitude refine signed subtraction |
| AvbScheduling.AvbListEntry.UpdateBusy | src/systemcvpc/cpp/detail/PreemptiveScheduler/AVBScheduler.cpp:155-175 | The credit update of one class while the link is busy, with its resets |
| AvbScheduling.AvbListEntry.UpdateFree | src/systemcvpc/cpp/detail/PreemptiveScheduler/AVBScheduler.cpp:180-204 | The credit update of one class when the link is free, with its resets |
| AvbScheduling.AvbScheduler.SetAttribute | src/systemcvpc/cpp/detail/PreemptiveScheduler/AVBScheduler.cpp:56-77 | A new class goes before the first of a greater level |
| AvbScheduling.AvbScheduler.AddedNewTask | src/systemcvpc/cpp/detail/PreemptiveScheduler/AVBScheduler.cpp:108-121 | The task joins the first class whose level is not below its priority |
| AvbScheduling.AvbScheduler.UpdateCredits | src/systemcvpc/cpp/detail/PreemptiveScheduler/AVBScheduler.cpp:155-204 | The loop updates every class of the list once and changes no queue |
| AvbScheduling.AvbScheduler.SchedulingDecision | src/systemcvpc/cpp/detail/PreemptiveScheduler/AVBScheduler.cpp:139-227 | Decision, queues, credits and marks are those of the credit-based policy |
| AvbScheduling.AvbScheduler.GetSchedulerTimeSlice | src/systemcvpc/cpp/detail/PreemptiveScheduler/AVBScheduler.cpp:80-104 | The least time after which a waiting class reaches credit zero |
| StreamShaperRuns.StartsSpaced | src/systemcvpc/cpp/detail/PreemptiveScheduler/StreamShaperScheduler.cpp:119-139 | In every run starts are at least a shaping period apart |
| StreamShaperRuns.StreamInOrder | src/systemcvpc/cpp/detail/PreemptiveScheduler/StreamShaperScheduler.cpp:103-139 | The arrivals are the started instances in order of start, followed by the queue |
| StreamShaperRuns.WakesForStart | src/systemcvpc/cpp/detail/PreemptiveScheduler/StreamShaperScheduler.cpp:88-100 | An idle resource with a queue sleeps exactly until the next start is allowed; the pass then starts the front, and no earlier one does |
| StreamShaping.StreamShaperScheduler.SchedulingDecision | src/systemcvpc/cpp/detail/PreemptiveScheduler/StreamShaperScheduler.cpp:119-139 | The decision and the queue it leaves are those of the shaping policy |
| TtccRuns.SlotWalk | src/systemcvpc/cpp/detail/PreemptiveScheduler/TimeTriggeredCCScheduler.cpp:245-391 | No pass comes after the end of the slot, if the pass before left somebody behind; before the end nothing moves; the pass at the end starts the next slot at that instant; the last slot takes two passes at one instant and the cycle counter advances |
| TtccRuns.SlotEnds | src/systemcvpc/cpp/detail/PreemptiveScheduler/TimeTriggeredCCScheduler.cpp:245-391 | Over a whole run in which every pass leaves somebody behind, the end of the slot moves by exactly the lengths of the slots that are begun, one after the other and round the cycle |
| TtccRuns.ServedInSlot | src/systemcvpc/cpp/detail/PreemptiveScheduler/TimeTriggeredCCScheduler.cpp:264-391 | At every instant a running task stands in the deque of the current slot, the instant lies in that slot, and the cycle is one that the filter selects which its process had when the task arrived; that is the configured filter, if all tasks belong to configured processes and are harmless |
| SlotOrder.SlotServes | src/systemcvpc/cpp/detail/PreemptiveScheduler/TimeTriggeredCCScheduler.cpp:264-391 | In every run, a pass that begins a slot leaves running the first instance of its deque whose filter selects the cycle, or nobody if there is none; within a slot a running instance runs on, and a free resource goes to the first instance that passes the stricter filter, or stays idle if there is none; within the last slot a free resource stays idle |
| TtccRuns.FiltersKept | src/systemcvpc/cpp/detail/PreemptiveScheduler/TimeTriggeredCCScheduler.cpp:203-218 | In every run whose tasks belong to configured processes, all processes have kept their filters if and only if no task that has arrived has the id of a process with another filter than its own process |
| TtccRuns.WrongCycle | src/systemcvpc/cpp/detail/PreemptiveScheduler/TimeTriggeredCCScheduler.cpp:203-211 | A concrete run in which a process is served in a cycle that its filter forbids, because an earlier instance of another process has its id |
| TtccScheduling.DecideConfigured | src/systemcvpc/cpp/detail/PreemptiveScheduler/TimeTriggeredCCScheduler.cpp:254-391 | The slot index stays in range, one level of recursion is enough, and the deques are untouched by decisions |
| TtccScheduling.ServedHere | src/systemcvpc/cpp/detail/PreemptiveScheduler/TimeTriggeredCCScheduler.cpp:272-330 | Who is assigned stands in the deque of the slot that is then current and passes the cycle filter |
| TtccScheduling.FilterSpoiled | src/systemcvpc/cpp/detail/PreemptiveScheduler/TimeTriggeredCCScheduler.cpp:203-211 | Queueing a task changes the filter of a key if and only if that key is its instance id and its process has another filter |
| TtccScheduling.KeepsExactly | src/systemcvpc/cpp/detail/PreemptiveScheduler/TimeTriggeredCCScheduler.cpp:203-218 | Queueing any number of tasks leaves every process its filter if and only if every one of them is harmless |
| TtccScheduling.OwnFilter | src/systemcvpc/cpp/detail/PreemptiveScheduler/TimeTriggeredCCScheduler.cpp:203-218 | An instance keeps the filter that its process had when it was queued |
| TtccScheduling.AddedAgree | src/systemcvpc/cpp/detail/PreemptiveScheduler/TimeTriggeredCCScheduler.cpp:203-218 | Every instance is in the deque of its slot, once and nowhere else |
| TtccScheduling.TimeTriggeredCcScheduler.SchedulingDecision | src/systemcvpc/cpp/detail/PreemptiveScheduler/TimeTriggeredCCScheduler.cpp:245-391 | Decision, slot index, cycle and remaining slice are those of the time-triggered policy |
| TtccScheduling.TimeTriggeredCcScheduler.FindAllowed | src/systemcvpc/cpp/detail/PreemptiveScheduler/TimeTriggeredCCScheduler.cpp:279-296 | The search returns the first instance of the deque that may be served, or nobody |
| FiringJoin.ComputedOnce | src/systemcvpc/cpp/detail/AbstractComponent.cpp:243-303 | However the arrivals and the end of the set-up interleave, the counter never runs below zero and the task is computed exactly once, by the signal that completes them |
| TimeQueues.Exactness | src/systemcvpc/cpp/detail/TimeQueue.cpp:39-61 | In every run, with adds at any time, every entry is delivered exactly once at its add time plus delay or still queued. The event is pending for the earliest entry whenever the method is not runnable, and the checks of the method hold whenever it is, throughout the run if and only if nothing is added without delay between a trigger and the end of the run of the method |
| TimeQueues.ArmedExactly | src/systemcvpc/cpp/detail/TimeQueue.cpp:39-55 | One activation, from the trigger to the end of the run, leaves the event armed for the earliest entry if and only if neither an add since the trigger nor a call-back of the run came without delay; otherwise it triggers again at once and the method fails its checks |
| TimeQueues.FireExact | src/systemcvpc/cpp/detail/TimeQueue.cpp:39-55 | An activation delivers exactly what is due, in any order of ties, and loses nothing |
| TimeQueues.AddKeepsArmed | src/systemcvpc/cpp/detail/TimeQueue.cpp:57-61 | Adding to an armed queue, that is outside the window between a trigger and its run, keeps the event armed for the earliest entry, with any delay that is not negative |
| TimeQueues.EnqueueTriggered | src/systemcvpc/cpp/detail/TimeQueue.cpp:57-61 | An add between a trigger and its run leaves the event exact if and only if it comes with a delay |
| TimeQueues.ZeroDelayFails | src/systemcvpc/cpp/detail/TimeQueue.cpp:40 | A concrete run in which the check fails: a call-back adds without delay |
| TimeQueues.LateAddFails | src/systemcvpc/cpp/detail/TimeQueue.cpp:40-61 | A concrete run in which the check fails although no call-back adds anything: another process adds without delay after the trigger and before the method runs |
| TimeQueues.TimeQueueImpl.QueueMethod | src/systemcvpc/cpp/detail/TimeQueue.cpp:39-55 | The loop performs one activation and delivers its entries in order, whatever notification is pending again when it starts |
| Multicast.ParentFirst | src/systemcvpc/cpp/detail/Routing/StaticImpl.cpp:108-117 | In every completion order a hop is started only if it is a first hop or its parent has finished |
| Multicast.OnceEach | src/systemcvpc/cpp/detail/Routing/StaticImpl.cpp:100-128 | On every route whose hops are objects of their own, as AddHopKeeps builds them, every hop is started and finished at most once, and branches under way share neither slot nor hop |
| Multicast.ReleasedAfterLast | src/systemcvpc/cpp/detail/Routing/StaticImpl.cpp:108-128 | A run has at most as many completions as the route has hops; before the last one some branch is under way; with it the message is released exactly once, all hops have finished, and every destination has been called exactly as often as it is registered (with a spare slot taken for an empty one) |
| Multicast.AddHopKeeps | src/systemcvpc/cpp/detail/Routing/StaticImpl.cpp:41-61 | Adding a hop adds exactly that hop, as the last child of its parent or the last first hop; every other hop keeps its destinations and its children in their order, and the ids stay unique |
| Multicast.TableSize | src/systemcvpc/cpp/detail/Routing/StaticImpl.cpp:108-128 | In every run the slot table has one slot for every hop started so far, one of them never written for every inner hop that has finished |
| Multicast.TableFits | src/systemcvpc/cpp/detail/Routing/StaticImpl.cpp:80-85 | A table of a given capacity is large enough for every run if and only if the route has no more hops than that; the source allocates one slot per destination |
| Multicast.ChainOverflows | src/systemcvpc/cpp/detail/Routing/StaticImpl.cpp:80-85 | A concrete route that needs more slots than it has destinations |
| Multicast.FinishSums | src/systemcvpc/cpp/detail/Routing/StaticImpl.cpp:108-128 | One completion takes the hop out of the slot table and puts its children in, and nothing else |
| Multicast.MessageInstance.FinishHop | src/systemcvpc/cpp/detail/Routing/StaticImpl.cpp:108-128 | The completion of a hop is one step of the walk, with the slot reserved after the last child |
| Multicast.MessageInstance.constructor | src/systemcvpc/cpp/detail/Routing/StaticImpl.hpp:111-124 | A new message starts every first hop in a slot of its own |
| HysteresisGovernor.WindowExact | src/systemcvpc/cpp/detail/HysteresisLocalGovernor.cpp:83-108 | In every run the execution time computed from the pruned deque equals the busy time in the window by the full history |
| HysteresisGovernor.NoCrossingMissed | src/systemcvpc/cpp/detail/HysteresisLocalGovernor.cpp:111-127 | At every instant before the event of the governor triggers, the load is below the upper threshold in mode SLOW and above the lower one in mode FAST; the component may change its state between a trigger and its run |
| HysteresisGovernor.ActivationExact | src/systemcvpc/cpp/detail/HysteresisLocalGovernor.cpp:113-127 | In every run an activation leaves SLOW if and only if the load of the full history has reached the upper threshold, and FAST if and only if it has come down to the lower one; otherwise the mode stays. It then wakes itself after exactly the distance to the threshold that the load moves towards |
| HysteresisGovernor.ModeChanges | src/systemcvpc/cpp/detail/HysteresisLocalGovernor.cpp:54-121 | In every run no event of a known component changes the mode, but an activation that finds the load at or beyond the threshold on the far side |
| HysteresisGovernor.LoadIsBusyTime | src/systemcvpc/cpp/detail/HysteresisLocalGovernor.cpp:54-109 | The load of the full history is the time in the window for which the component was not idle, read off the notified states alone |
| HysteresisGovernor.PositiveExactly | src/systemcvpc/cpp/detail/HysteresisLocalGovernor.cpp:111-127 | The governor wakes itself strictly in the future, whatever the load, if and only if the lower threshold is below the upper one |
| HysteresisGovernor.LoadMoves | src/systemcvpc/cpp/detail/HysteresisLocalGovernor.cpp:83-108 | Without a change of state the window load moves in one direction only and no faster than time |
| HysteresisGovernor.LoadHysteresisGovernor.Process | src/systemcvpc/cpp/detail/HysteresisLocalGovernor.cpp:76-128 | Pruning, summing, mode change and self-notification of one activation |
| HysteresisGovernor.LoadHysteresisGovernor.Notify | src/systemcvpc/cpp/detail/HysteresisLocalGovernor.cpp:54-74 | A change of state enters the history and wakes the process |
| NonPreemptive.NoLostWakeup | src/systemcvpc/cpp/detail/NonPreemptiveScheduler/NonPreemptiveComponent.cpp:88-141 | Whenever the thread waits for its event a notification is pending if and only if tasks are ready; it never wakes to an empty queue, although tasks arrive between the trigger and its run; the counter is the size of the variant's queue |
| NonPreemptive.ServedToCompletion | src/systemcvpc/cpp/detail/NonPreemptiveScheduler/NonPreemptiveComponent.cpp:113-135 | One task is served at a time, each for exactly its delay. First come, first served assigns the task that has waited longest; the priority variant one that no waiting task is more urgent than, and of several such the earliest arrival |
| NonPreemptive.NonPreemptiveComponent.AddTask | src/systemcvpc/cpp/detail/NonPreemptiveScheduler/NonPreemptiveComponent.cpp:88-101 | The task is queued and counted, and the thread notified if nothing is running |
| NonPreemptive.NonPreemptiveComponent.DelayOver | src/systemcvpc/cpp/detail/NonPreemptiveScheduler/NonPreemptiveComponent.cpp:121-137 | The end of a delay, the call-backs and the next choice are one step of the thread |
| NonPreemptive.NonPreemptiveComponent.ScheduleLoop | src/systemcvpc/cpp/detail/NonPreemptiveScheduler/NonPreemptiveComponent.cpp:115-137 | The thread serves the next task if the counter says there is one, otherwise it waits |
| Idct.IdctRow | testcases/src/test-idct2d/cpp/IdctRow.hpp:64-121 | The coarse row actor computes what the fine-grained network computes with the row parameters |
| Idct.IdctColumn | testcases/src/test-idct2d/cpp/IdctColumn.hpp:64-124 | The coarse column actor computes what the fine-grained network computes with the column parameters |
| Idct.NetworkFinish | testcases/src/test-idct2d/cpp/Idct1D.hpp:130-168 | The wiring behind scalers and butterflies is the second to fourth stage of the transform |
| IdctAccuracy.Constants | testcases/src/test-idct2d/cpp/Idct2D.hpp:136-141 | Each of W1, W2, W3, W5, W6, W7 is the integer nearest to 2048 times the square root of 2 times its cosine, where the cosines are fixed by the half-angle formulas |
| IdctAccuracy.RowAccurate | testcases/src/test-idct2d/cpp/Idct2D.hpp:145-189 | For every eight integers, every sample of the row transform is 8 times the exact inverse cosine transform, up to one rounding and 0.53 / 256 of the magnitudes of the coefficients |
| IdctAccuracy.ColumnAccurate | testcases/src/test-idct2d/cpp/Idct2D.hpp:191-242 | Likewise every sample of the column transform is 1 / 64 of the exact one |
| IdctBlock.BlockAccurate | testcases/src/test-idct2d/cpp/Idct2D.hpp:145-288 | For every block, every sample before clipping differs from the exact two-dimensional inverse cosine transform by at most 0.6 plus a ten-thousandth of the sum of the magnitudes of the coefficients |
| IdctBlock.TransformAccurate | testcases/src/test-idct2d/cpp/Idct2D.hpp:234-288 | For every block, every sample that is put out lies in the range and differs by no more than that from the exact transform, level-adjusted and clipped to the range |
| IdctPipeline.PipelineIsMonolithic | testcases/src/test-idct2d/cpp/Idct2D.hpp:84-292 | On every stream of tokens the pipeline of row actors, transposer, column actors and range adjustment produces what the monolithic actor produces |
| IdctNetwork.NetworkIsActor | testcases/src/test-idct2d/cpp/Idct1D.hpp:130-168 | Scalers, butterflies and adders as actors on token streams, wired as in the source, are the coarse row or column actor on all streams |
| IdctNetwork.NetworkPipelineIsMonolithic | testcases/src/test-idct2d/cpp/Idct2D.hpp:84-292 | The pipeline with the network in place of each coarse actor produces what the monolithic actor produces, on every stream of tokens |
| IdctPipeline.TransposeBlocks | testcases/src/test-idct2d/cpp/Transpose.hpp:149-182 | Eight firings bring the transposing actor back to its first state, so it works block by block |
| IdctPipeline.Idct2D.Idct2D | testcases/src/test-idct2d/cpp/Idct2D.hpp:145-288 | The loops over rows and columns transform a block in place into the two passes and the clipping |
| IdctPipeline.Idct2D.IdctRow | testcases/src/test-idct2d/cpp/Idct2D.hpp:145-189 | One row of the buffer becomes the row transform, and no other row changes |
| IdctPipeline.Idct2D.IdctCol | testcases/src/test-idct2d/cpp/Idct2D.hpp:191-279 | One column of the output becomes the adjusted column transform, and no other column changes |
| IdctPipeline.TransposeActor.Run | testcases/src/test-idct2d/cpp/Transpose.hpp:90-182 | The actor with its firing state computes the transposing stream function |
| IdctBounds.NoOverflow | testcases/src/test-idct2d/cpp/Idct2D.hpp:145-232 | For coefficients of magnitude at most 63 no intermediate value of either pass leaves the 32-bit range: neither the values of the loops, with the products in their own signs, nor those of the nodes of the network |

## Left out

- SystemC kernel: the clock, one pending time per event (earliest wins) and delta cycles appear as conditions on events; coroutines, simulation phases and process order within a delta do not.
- 64-bit time arithmetic: `sc_time` is unsigned and wraps; the model has exact times, so a difference that is negative in the model would be huge in the source. The proofs show where differences are not negative; the round-robin slice past its end is one place where they differ, and both then leave the wait to the running task.
- Cosines: they are given by the half-angle formulas for positive reals, which determine them; that such reals exist is not derived.
- Floating point: bandwidths are `float` in the source and exact reals here.
- Instance objects: the source shares one object between maps, queues and call-backs; here an instance is a value filed under its id, and aliasing is not captured. In the same way the TDMA and time-triggered slots are values of a sequence.
- Memory: the finished entry is read before it is erased from the running map (PreemptiveComponent.cpp:226-228 reads it after); `front()` of an empty deque (TDMAScheduler.cpp:234) is not the running task; the slot table of a message grows, where the source has a trailing array of fixed size.
- AvbScheduling.AvbScheduler.SetAttribute: takes bandwidths in (0, 1] only, where the source accepts any number; with others the credits lose their meaning.
- Multicast.MessageInstance.FinishHop: the search for running branches takes a spare slot, which nobody has written, for an empty one, where the source reads whatever the memory pool left there; `TableSize` says how many spare slots there are.
- Multicast.ReleasedAfterLast: rests on the same reading of spare slots, and on a table that is large enough.
- AvbScheduling.AvbScheduler.GetSchedulerTimeSlice: where the source's assertion fails, no slice is computed and the wait is left to the running task. A later time-out only allows the model more behaviours.
- Conservation.PassAssertsHold: leaves out the assertions about `activeTasks` (PreemptiveComponent.cpp:235-237), which belong to scheduled actors and are not part of this model, and that of the AVB slice, which can fail.
- Time-triggered filters: within a slot the source asks for an offset strictly below the cycle, at its start for one not above it; the model keeps both. What becomes of the filters of processes that were never configured is not stated.
- Configuration: parsing of properties and attributes, the registry and plug-ins; the schedulers start configured. AVB levels are distinct and none is -1, bandwidths lie in (0, 1], slot lengths, slices and delays are positive, latency is at least the delay, and a time-triggered controller has at least one static slot.
- Scheduling overhead: every scheduler modelled here returns none.
- Priorities, delays and bandwidths of one instance do not change while it lives; dynamic power modes, their energy accounting, tracing, and blocking of instances are not part of this model.
- PSM components, time-triggered activation, deadline monitoring, stopping and restarting of components are not part of this model.
- FlexRay, MOST, MOST secondary, rate-monotonic, dynamic-priority and library round-robin schedulers are not part of this model; neither is the dynamic segment of the time-triggered controller, which the source does not implement either.
- Routing other than static, and the creation of routes from files; `addHop` is modelled on values (a tree) instead of linked hops.
- The order in which `std::priority_queue` surrenders entries of equal time: `TimeQueues` lets the environment choose among the earliest; entries of equal priority and order number in `PriorityScheduling` cannot both be at the top of a reachable queue.
- Dataflow scheduling of the transform: actors are functions on token streams, so FIFO capacities and the interleaving of firings are not part of this model; the loops of Block2Row.hpp and Column2Block.hpp are written as index functions, and the monolithic actor shares the text of the row and column transform with the coarse actors.
- The latency phase of the non-preemptive component is that of the preemptive one and is not repeated.
- The governor's announcements to the global governor, and more than one component per governor.

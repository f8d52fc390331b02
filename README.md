# LANcoder3000 master: jobs, scheduling and the node handler

LANcoder3000 is a master/worker cluster for transcoding video. The master
turns each job into tasks, keeps a registry of worker nodes, hands tasks
to free nodes, and updates task and node state from the nodes' reports.
This project models three parts of the master in Dafny and proves
properties of that model.

- **Jobs** (`jobs.dfy`, from `Job.java`) covers how a job becomes tasks.
  - Every video stream of the source is cut into consecutive time slices of `lengthOfTasks` ms.
  - A remainder of at most 15% of the job's length is absorbed into the last slice.
  - Every audio stream becomes one Vorbis task.
  - All tasks draw their ids from one counter of the job.
  - The job also counts its remaining work, hands out its next video task, orders itself against other jobs, and lists its tasks.
  - `class Job` holds the state the source updates in place: the two task lists, the counter and the status.
  - The loops (`CreateTasks`, `CreateVideoTasks`, `CountTodoTasks`, `GetNextTask`) are proved against pure specification functions (`Decompose`, `VideoSlices`, `CountTodo`, `FirstTodoIndex`). The lemmas state what those functions guarantee.
- **Scheduling** (`scheduling.dfy`, from `Master.java`) covers the node registry and the scheduler.
  - `class Master` holds the node list, the index of nodes by unique node id, the jobs, and a ghost log of every (task, node) pair handed to a dispatcher.
  - `Node` and `Task` are classes whose status, current task and progress fields the master sets.
  - A scheduling pass pairs the first task still to do, job after job, with the first free node. At most one pair is made per pass.
  - The report handlers, registration and removal are modelled, and their contracts are stated as they are written. That includes:
    - the index entry that removal leaves behind;
    - the missing null checks, which become preconditions.
- **NodeApi** (`nodeapi.dfy`, from `MasterHandler.java`) covers the handler of one inbound connection.
  - `Classify` is the decision table over the message code and the message's runtime class. It yields a listener call and a reply, or BAD_REQUEST and no call.
  - `Handler.Run` is the `while (!closed)` loop: it reads one object, acts on the decision, writes one reply and closes.
- **Common** (`common.dfy`) holds the shared value types: `Status`, `RateControlType`, `JobConfig` and the wire messages.

The master's `Job`/`Task` classes come from a different version of the code than `Job.java`. Master's jobs are therefore modelled as lists of `Task` objects that carry a `Status`, and `Jobs.Job` is not wired into `Scheduling.Master`.

Some behaviours of the code are easy to miss; the model keeps them as written:
- **Node removal.** `removeNode` passes the node object, not its id, to the index's `remove` (`Master.java:294`). The index therefore keeps the entry, and a lookup by id still finds a removed node (`Master.RemoveNode`).
- **Task report from a node with no task.** `readTaskReport` uses the sender's current task without checking it (`Master.java:284-285`). The model makes a current task a precondition (`Master.ReadTaskReport`).
- **Completing a job.** No modelled code marks a job completed when its last task completes.
- **Reclaiming a leaving node.** `nodeShutdown` puts the node's task back to to-do but leaves it attached to the node (`Master.java:122-129`). The pass that this triggers runs before the node is removed, while it is still listed, so a free leaving node can be handed work (`Master.NodeShutdown`).

## Model

| member | source | states |
|---|---|---|
| Common.CopyConfig | src/main/java/drfoliberg/common/job/JobConfig.java:28-35 | the copy equals the original in every field |
| Jobs.SliceAt | src/main/java/drfoliberg/common/job/Job.java:123-133 | slice i carries id firstId+i, is to do, and starts i slices after the starting point; every slice but the last is one slice long and was cut because the 15% test failed; the last ends at the job's length and was cut because the test held |
| Jobs.VideoSlicesTile | src/main/java/drfoliberg/common/job/Job.java:116-133 | a stream's slices cover [0, lengthOfJob] without gap or overlap: the first starts at 0, each starts where the previous ended, all but the last are lengthOfTasks long, and the last ends at lengthOfJob; there are none exactly when the duration is 0; the ids are consecutive counter values |
| Jobs.VideoSlicesStop | src/main/java/drfoliberg/common/job/Job.java:126-133 | slicing stops at the first slice where the 15% test holds and not before; the last slice starts before the end of the job, and it is at most one slice plus 15% of the job long, and longer than 15% of the job when there are several slices |
| Jobs.AbsorbsWithinOneSlice | src/main/java/drfoliberg/common/job/Job.java:126 | once at most one slice's worth is left, the 15% test holds, so the loop ends |
| Jobs.WorkedExample | src/main/java/drfoliberg/common/job/Job.java:123-133 | with the demo's figures (7,211,548 ms and 300,000 ms slices) there are 21 slices: twenty of 300,000 ms, then [6,000,000, 7,211,548] |
| Jobs.HasVideoIff | src/main/java/drfoliberg/common/job/Job.java:99-101 | a stream list has a video stream exactly when some position holds one |
| Jobs.DecomposeIds | src/main/java/drfoliberg/common/job/Job.java:99-105 | the decomposition's ids come from one counter without gaps or repeats: all lie in [firstId, firstId + number of tasks), each list is in increasing id order, and no video and audio task share an id |
| Jobs.DecomposeCounts | src/main/java/drfoliberg/common/job/Job.java:99-101 | each video stream adds the same number of slices, and no other stream adds a video task |
| Jobs.DecomposeAudioCount | src/main/java/drfoliberg/common/job/Job.java:99-105 | each audio stream adds exactly one audio task, and no other stream adds one, for every source the constructor accepts |
| Jobs.DecomposeAudioSettings | src/main/java/drfoliberg/common/job/Job.java:153-157 | every audio task is Vorbis, 2 channels, 44100 Hz, rate 3, CRF, on the job's source file, to do |
| Jobs.DecomposeVideoSlices | src/main/java/drfoliberg/common/job/Job.java:99-101 | the video list is the slicing of the job repeated once per video stream, each copy renumbered |
| Jobs.SlicesRenumbered | src/main/java/drfoliberg/common/job/Job.java:124 | the slices of a stream are the same whatever counter value they start from, except for their ids |
| Jobs.CountTodo | src/main/java/drfoliberg/common/job/Job.java:193-198 | the count is at most the number of video tasks; 0 exactly when none is to do; the full count exactly when all are to do |
| Jobs.CountTodoTasks | src/main/java/drfoliberg/common/job/Job.java:192-199 | the counting loop yields the number of video tasks still to do |
| Jobs.RemainingCount | src/main/java/drfoliberg/common/job/Job.java:186-201 | 0 for a completed job, every video task for a job not started, otherwise the video tasks still to do; never more than the video tasks |
| Jobs.FirstTodoIndex | src/main/java/drfoliberg/common/job/Job.java:173-177 | the position of the first video task still to do: every task before it is not to do, and it is to do unless it is past the end |
| Jobs.CompareKeys | src/main/java/drfoliberg/common/job/Job.java:208-216 | the result is -1, 0 or 1; negative exactly when the first key is lexicographically before by (priority, remaining, length), positive exactly when the second is, 0 exactly when the keys are equal |
| Jobs.CompareKeysOrder | src/main/java/drfoliberg/common/job/Job.java:208-216 | swapping the arguments flips the sign, a key compares 0 with itself, and "before" is transitive |
| Jobs.Job.constructor | src/main/java/drfoliberg/common/job/Job.java:60-93 | a new job copies its configuration, takes its length from the source's duration, is to do with priority 0, and holds the decomposition of its source numbered from 0 |
| Jobs.Job.CreateTasks | src/main/java/drfoliberg/common/job/Job.java:98-106 | the walk over the streams appends exactly the decomposition of the streams, numbered from the counter, to the two lists, and advances the counter by its size |
| Jobs.Job.CreateVideoTasks | src/main/java/drfoliberg/common/job/Job.java:115-143 | the loop returns the stream's slicing numbered from the counter, and advances the counter by one per slice |
| Jobs.Job.CreateAudioTask | src/main/java/drfoliberg/common/job/Job.java:153-158 | the task gets the counter's value and the fixed Vorbis settings; the counter advances by one |
| Jobs.Job.GetTaskRemainingCount | src/main/java/drfoliberg/common/job/Job.java:186-201 | returns the job's remaining count, at most its number of video tasks |
| Jobs.Job.GetNextTask | src/main/java/drfoliberg/common/job/Job.java:165-179 | with nothing remaining: no task and the status unchanged; otherwise a job not started becomes computing, and the first video task still to do is returned (none if no task is to do); a returned task is one of the job's video tasks, to do |
| Jobs.Job.CompareTo | src/main/java/drfoliberg/common/job/Job.java:208-216 | -1, 0 or 1; negative exactly when this job's (priority, remaining, length) is lexicographically before the other's; 0 exactly when they are equal |
| Jobs.Job.Tasks | src/main/java/drfoliberg/common/job/Job.java:263-268 | the audio tasks in order, followed by the video tasks in order, and nothing else |
| Scheduling.TodoIndex | src/drfoliberg/master/Master.java:68-72 | the position of the first task still to do in a job's task list: none before it is to do, and it is to do unless it is past the end |
| Scheduling.TodoIndexAppend | src/drfoliberg/master/Master.java:66-73 | searching two lists in turn finds the first list's task to do, else the second list's |
| Scheduling.NextTodoIsFirst | src/drfoliberg/master/Master.java:65-75 | the nested scan finds the first task still to do among all tasks of all jobs, job after job |
| Scheduling.FreeIndex | src/drfoliberg/master/Master.java:77-84 | the position of the first free node: none before it is free, and it is free unless it is past the end |
| Scheduling.FirstFree | src/drfoliberg/master/Master.java:77-84 | null exactly when no node is free; otherwise a free node of the list |
| Scheduling.PassOf | src/drfoliberg/master/Master.java:90-104 | a pass makes at most one pair, and makes one exactly when there is a task to do and a free node; its node is free and listed |
| Scheduling.PassIsGreedy | src/drfoliberg/master/Master.java:90-104 | a pass happens exactly when some task of some job is to do and some node is free, and then pairs the first such task (job after job) with the first such node |
| Scheduling.PassAvoidsBusy | src/drfoliberg/master/Master.java:207-213 | a node that is not free, such as one just registered as not connected, is never chosen by a pass |
| Scheduling.RemoveFirstSpec | src/drfoliberg/master/Master.java:295 | removing a node from a list without repeats drops exactly that node, keeps the others, shortens the list by one when the node was there, changes nothing when it was not, and keeps the list without repeats |
| Scheduling.Master.constructor | src/drfoliberg/master/Master.java:33-40 | a new master has no nodes, no index entries, no jobs and no dispatches |
| Scheduling.Master.IdentifySender | src/drfoliberg/master/Master.java:47-54 | the node indexed under the id, or null exactly when the id is not indexed |
| Scheduling.Master.AddJob | src/drfoliberg/master/Master.java:56-63 | the job is appended, one pass is made, and the answer is true |
| Scheduling.Master.GetNextTask | src/drfoliberg/master/Master.java:65-75 | the nested loops return the task the scan specifies, which is the first task to do, job after job |
| Scheduling.Master.GetBestFreeNode | src/drfoliberg/master/Master.java:77-84 | the loop returns the first free node, or null |
| Scheduling.Master.UpdateNodesWork | src/drfoliberg/master/Master.java:90-104 | exactly the pass's pair, if any, is dispatched; the answer is whether one was; nothing else changes |
| Scheduling.Master.Dispatch | src/drfoliberg/master/Master.java:106-111 | the pair is logged, the answer is true, and no node, task or job changes |
| Scheduling.Master.AddNode | src/drfoliberg/master/Master.java:201-216 | a listed node is refused and nothing changes; otherwise the node becomes not connected with the fresh id, is appended and indexed, and one pass is made, which never picks the new node; the list stays without repeats |
| Scheduling.Master.UpdateNodeTask | src/drfoliberg/master/Master.java:222-241 | without a current task nothing changes and no pass is made; otherwise the task takes the status, is detached only when completed, its progress is kept, and one pass is made; the answer is always false |
| Scheduling.Master.ReadStatusReport | src/drfoliberg/master/Master.java:248-255 | the registered sender takes the reported status, one pass is made, and the answer is true |
| Scheduling.Master.ReadTaskReport | src/drfoliberg/master/Master.java:262-290 | an unknown sender gets false and nothing changes; otherwise the sender's task takes the progress, and at exactly 100 it is completed, detached from the node, and a pass is made; the answer is true |
| Scheduling.Master.RemoveNode | src/drfoliberg/master/Master.java:292-300 | the answer is whether the node was listed; afterwards it is not listed, the others keep their order, and every lookup by id gives what it gave before |
| Scheduling.Master.NodeShutdown | src/drfoliberg/master/Master.java:117-134 | an unknown id changes nothing; otherwise the node's task, if any, goes back to to do, and the pass runs over the list still holding the node; the task stays attached to the node and keeps its progress, the node keeps its status and id, and the node is then removed from the list |
| NodeApi.Classify | src/main/java/drfoliberg/master/api/node/MasterHandler.java:33-74 | a listener call is made exactly when the request is a connect or disconnect request carried by a connect message, or a status report carried by a status report; the reply is BAD_REQUEST exactly when it is not |
| NodeApi.ServedRequests | src/main/java/drfoliberg/master/api/node/MasterHandler.java:34-63 | a connect request calls connectRequest on its payload and replies with the listener's answer; a status report calls readStatusReport and replies BYE; a disconnect request calls disconnectRequest and replies BYE |
| NodeApi.RepliesAreByeOrBad | src/main/java/drfoliberg/master/api/node/MasterHandler.java:33-74 | every reply is the listener's answer, BYE or BAD_REQUEST |
| NodeApi.ReplyOf | src/main/java/drfoliberg/master/api/node/MasterHandler.java:36-37 | the reply is the listener's answer exactly when the decision says so |
| NodeApi.CallsOf | src/main/java/drfoliberg/master/api/node/MasterHandler.java:33-69 | a decision makes at most one listener call, and one exactly when it has a call |
| NodeApi.ConnectMessageConnects | src/drfoliberg/common/network/ConnectMessage.java:29-36 | a connect message as its constructor builds it leads to a connect call on its own fields, never a disconnect call |
| NodeApi.StatusReportIsRead | src/drfoliberg/common/network/messages/StatusReport.java:19-28 | a status report as its constructors build it is read with its id and status, and answered with BYE |
| NodeApi.TaskRequestRefused | src/main/java/drfoliberg/common/network/messages/cluster/TaskRequestMessage.java:18-21 | a task request, which the master sends and does not serve, gets BAD_REQUEST and no call |
| NodeApi.Handler.constructor | src/main/java/drfoliberg/master/api/node/MasterHandler.java:18-21 | a new handler is open, with nothing replied and no call made |
| NodeApi.Handler.Run | src/main/java/drfoliberg/master/api/node/MasterHandler.java:24-87 | the connection ends closed; an open connection with a request serves exactly that one request: it makes the decision's call, if any, and writes its one reply; a connection that is already closed or has nothing to read changes nothing else |

## Left out

- Id generation: a unique node id and a job id are SHA-1/SHA-256 hashes of the clock and a name. The model takes the fresh id as a parameter (`Master.AddNode`, `Job.constructor`) and assumes nothing about uniqueness.
- Threads and locking: `dispatch` starts a dispatcher thread, and `run` starts the server and the node checker; neither thread's code is part of this model. Every public method is taken as atomic, and `Master.Dispatch` only appends to a ghost log.
- Socket and stream I/O:
  - `disconnectNode` is not modelled: it opens a socket to the node.
  - The handler's streams are a list of incoming objects and a list of replies. A read with nothing left stands for the failed read that ends the loop.
- Listener implementations: `connectRequest` and `disconnectRequest` belong to the listener, which is not part of this model. Their effect is recorded as a listener call, and the id that `connectRequest` answers is a parameter of `Handler.Run`. The master's listener stubs have empty bodies.
- Floating point:
  - Frame counts and frame rates (`double`) are not modelled.
  - A task's progress is an integer percent; the source compares a `double` with 100.
- Jobs.Absorbs: the 15% slice test compares a `double` quotient with `0.15`; the model uses the integer inequality `100 * (remaining - lengthOfTasks) <= 15 * lengthOfJob`, which can differ only where the quotient rounds across 0.15.
- Integer widths: task ids, the task counter and the durations are unbounded integers. Java's 32-bit `int` and 64-bit `long` overflow are not modelled.
- Paths: output folders and file names are built through a file-name library and are not modelled.
- Node and task identity: `Node.java` and the master's `Task` are not part of this model. Node equality in `nodes.contains` and `nodes.remove` is taken as object identity.
- Master's jobs: each job is the list of tasks its `getTasks` returns, with a `Status` per task. The master's `Job` class is not part of this model.
- Jobs.Job.constructor: the job id is a parameter rather than a hash; the output folder, file name, frame rate and frame count are not kept.
- Jobs.Job.GetNextTask: tasks are values, not objects. The source returns the job's own task object, and a caller that changes its state changes the job's task. Here the returned task is a copy; such an update is represented by writing `videoTasks`. The aliasing between the returned task and the job's list is not modelled.
- Jobs.SlicesFrom and Jobs.AudioTaskFor: a new task starts in TASK_TODO. The task classes' constructors are not part of this model, so this initial state is assumed, not derived from them.
- Jobs.Job.Key: the priority is always 0, because no modelled code changes it; the setters of `Job` are not modelled.
- Jobs.Job.Valid: the slice length must be positive unless the source is empty or has no video stream; otherwise the source's slicing loop never ends. The constructor requires this.
- Scheduling.Master.ReadStatusReport: requires the sender to be registered. The source dereferences the lookup's result unchecked and would throw otherwise.
- Scheduling.Master.ReadTaskReport: requires a registered sender to have a current task. The source dereferences it unchecked and would throw otherwise.
- Common.JobConfig: the extra encoder arguments are a value, so the copy constructor's sharing of the same list object is not modelled.

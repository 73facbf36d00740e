# Verified model of the capture and inspection system

The system photographs steel coils with 3D and 2D cameras, saves the frames, analyses them in
supervised processes and writes results to a PLC. This project models its concurrent protocols,
its owners of scarce resources and its text and image algorithms, and proves what they promise.
`dafny verify dfyconfig.toml` checks everything.

- **Saving frames** (`CapturePipeline`, `HighWater`, `CaptureDelivery`, `CaptureNoOverwrite`,
  `CaptureReuse`, `CaptureOrder`, `CaptureIndexHistory`, `ImageDataSaveModel`). Two producers, callers of `stop`, coil switches
  and one worker share a bounded queue. One section under one lock is one step; all
  interleavings of steps are considered. The class `ImageDataSave` performs the steps, and its
  blocking calls are proved to be runs of the step system whatever the other threads do.
- **Supervision** (`Heartbeat`, `HeartbeatProtocol`, `Watchdog`, `SupervisedProcess`,
  `WriterWatchdog`). A process publishes its activities with their deadlines; a supervisor
  judges the record it published last, which may be old, and stops and restarts the process.
- **Owners of scarce resources** (`PlcSession`, `SickCameraModel`, `BackupPermits`). SDK calls
  are sources of outcomes; every client, acquirer and permit ever made is accounted for.
- **Coil switches** (`CoilSwitch`). The signal thread polls for the current coil and announces
  switches; frames are bound to the coil announced last.
- **Reading frontend sources** (`BracketScanner`, `TopLevelCuts`, `ArgumentCuts`, `CallText`,
  `BuilderCalls`, `PathResolver`).
  A bracket matcher, an argument splitter and the resolver of path-building functions.
- **Geometry** (`MergeRectangles`, `MergeSeparation`, `PlanePoints`, `ImageTiling`).

Some promises one might expect are false of the code, and the project says exactly when they
hold.

- A frame index may be handed out while a pending frame or a file still has it. That never
  happens as long as, at every miss of the index cache, the disk scan is above the coil's pending
  frames; and after the first miss where it is not, some continuation that only hits the cache
  does hand out the index of a pending frame (`NoReuseIff`, and for one step `SafeMissIff`). The
  misuse may show at that miss or only later, when the coil is cached again. A run in which it
  overwrites a file is exhibited (`EvictionCanOverwrite`).
- A PLC client that refuses its timeout fields is dropped without being closed, so every client is
  closed or current if and only if no request had to build one that did
  (`EveryClientAccountedFor`).
- Merged rectangles may still overlap (`ResultMayOverlap`). Inserting into slots that are apart
  leaves no overlap if and only if the pass goes by no slot that its box reaches later
  (`InsertApartIff`, and along a list `AlwaysApartIff`). On the input alone there is a sufficient
  condition: after each rectangle, the groups that hang together through overlaps have bounding
  boxes that are apart (`GroupsApartMerged`). It is not necessary (`CornerIsMergedAnyway`); a
  necessary one on the input alone is open, because a later rectangle may merge slots that an
  earlier pass left overlapping.
- The matcher looks past comments and the splitter does not. Whatever the arguments hold, they
  come back if and only if the splitter, reading each on its own, does not cut it and ends where it
  began, the last one aside (`SplitsBackIff`).
- A device reset requested while pending camera actions are processed is cleared with them; it is
  served exactly when a reset had been asked before and the request comes before that reset
  (`ResetRequestServedIff`).

## Model

| member | source | states |
|---|---|---|
| CaptureDelivery.HandedIsAccepted | app/CapTrue/ImageDataSave.py:187-212 | In every interleaving at most one sentinel is enqueued and nothing follows it; frames handed to the worker are a prefix of the accepted ones, each once and in order, and all of them once the worker has exited |
| CaptureDelivery.NothingAcceptedAfterStop | app/CapTrue/ImageDataSave.py:187-212 | Once a stop attempt has begun no further frame is accepted, however many attempts time out and are retried |
| CaptureDelivery.EveryFrameAccountedFor | app/CapTrue/ImageDataSave.py:269-307 | Every frame that got an index is accepted, counted as dropped or still with its producer |
| CaptureDelivery.QueuedBytesExact | app/CapTrue/ImageDataSave.py:236-249 | The byte counter equals the bytes queued, in flight and in a blocked put in every reachable state, so clamping at zero never acts, and a positive budget is exceeded only when a single frame of positive size is there |
| CaptureDelivery.AdmissionExact | app/CapTrue/ImageDataSave.py:236-287 | In every reachable state a frame is admitted exactly when the pipeline runs and, with a budget, the frame or all frames there have no size or they are within the budget together; any other is counted as dropped |
| CaptureDelivery.DeliveryStep | app/CapTrue/ImageDataSave.py:187-307 | Every step of every thread keeps the queue, identity and byte invariants |
| CaptureDelivery.DeliveryKept | app/CapTrue/ImageDataSave.py:187-307 | The same over every run |
| CaptureDelivery.AdmitBytes | app/CapTrue/ImageDataSave.py:236-245 | Admitting a frame keeps the budget: over it only if the frame is alone in having a size |
| CaptureDelivery.ReleaseBytes | app/CapTrue/ImageDataSave.py:247-249 | Taking one frame's bytes back leaves the exact sum of the others |
| CaptureNoOverwrite.IdleEvictionNeverOverwrites | app/CapTrue/ImageDataSave.py:106-166 | If a coil is evicted from the index cache only while none of its frames is pending, no file (coil, folder, index) is written twice, files on disk before start included, whatever resumes, reservations, drops and failed saves occur |
| CaptureNoOverwrite.NothingOverwritten | app/CapTrue/ImageDataSave.py:106-166 | The same under the weaker hypothesis that at every cache miss the disk scan is above the coil's pending frames |
| CaptureNoOverwrite.CarefulIsSafe | app/CapTrue/ImageDataSave.py:121-125 | Evicting only idle coils makes every cache miss safe |
| CaptureNoOverwrite.FrameStep | app/CapTrue/ImageDataSave.py:106-166 | Each step keeps pending frames distinct, below their coil's cached mark and unwritten |
| CaptureNoOverwrite.ReusesIndexIff | app/CapTrue/ImageDataSave.py:143-166 | As long as every earlier miss was safe (the invariant it assumes), a reservation hands out an index already pending or on disk exactly when the coil is not cached and a pending frame of it has the index the scan yields |
| CaptureReuse.NoReuseIff | app/CapTrue/ImageDataSave.py:121-166 | In a run every cache miss is safe (the scan is above the coil's pending frames) if and only if no index is handed out that a pending frame or a file has, in the run or in any continuation of a part of it that only hits the cache |
| CaptureReuse.SafeMissIff | app/CapTrue/ImageDataSave.py:127-166 | For one resume or reservation, before it is taken: its miss is safe exactly when no such continuation hands out a used index |
| CaptureReuse.UnsafeMissReuses | app/CapTrue/ImageDataSave.py:127-166 | After an unsafe miss there is a continuation without any further miss that hands out the index of a frame still pending, also when the pipeline has been stopped and whoever holds the stop lock |
| CaptureReuse.SafeRunFresh | app/CapTrue/ImageDataSave.py:143-166 | With every miss safe, no reservation hands out a used index |
| CaptureReuse.Settle | app/CapTrue/ImageDataSave.py:269-287 | Every frame that may still be written can be brought into the queue without touching the cache |
| CaptureReuse.Drain | app/CapTrue/ImageDataSave.py:507-535 | While the pipeline runs the worker can save everything that is queued |
| CaptureOrder.NoIndexSkipped | app/CapTrue/ImageDataSave.py:106-166 | From a safe miss of a coil on and for as long as it stays cached, the indices handed out for it are, kind by kind, the one after its last file and the ones after that, without gap or repetition, whatever is announced, saved or dropped in between |
| CaptureOrder.HandedOutInOrder | app/CapTrue/ImageDataSave.py:127-166 | The same from any state in which the coil's counters are above its files and pending frames; the counter ends as many steps on as frames were indexed |
| CaptureOrder.AheadStep | app/CapTrue/ImageDataSave.py:121-166 | While a coil stays cached nothing but its own reservations moves its counters, each by one |
| CaptureOrder.ResumeSkipsIff | app/CapTrue/ImageDataSave.py:127-141 | Announcing a cached coil moves a counter exactly when a file of that kind has reached it, and never back |
| CaptureNoOverwrite.EvictionCanOverwrite | app/CapTrue/ImageDataSave.py:121-125 | Without the hypothesis on evictions there is a run that writes one file twice |
| CaptureIndexHistory.CacheIsRecentHistory | app/CapTrue/ImageDataSave.py:121-166 | The cached coils are exactly the last cache-size distinct coils touched, the last touched among them, and the active coil's shown counters are its cached pair while it is cached |
| CaptureIndexHistory.CacheStep | app/CapTrue/ImageDataSave.py:121-166 | Every step keeps the cache equal to the history of touches |
| CaptureIndexHistory.ActiveIsLastAnnounced | app/CapTrue/ImageDataSave.py:127-182 | The active coil is the one announced last, whatever frames have come since |
| HighWater.KeysAreTheRecentCoils | app/CapTrue/ImageDataSave.py:121-125 | Touching coils one after another leaves, oldest touch first, exactly the last distinct ones that fit |
| HighWater.StoreTouches | app/CapTrue/ImageDataSave.py:121-125 | Storing moves the coil to the young end under its new mark, keeps the marks of the coils that stay and evicts as touching does |
| CapturePipeline.NextSavedIsNext | app/CapTrue/ImageDataSave.py:106-119 | The scan returns one more than the largest index among the coil's files in the given folders, 0 when there is none |
| CapturePipeline.ResumeIsLeast | app/CapTrue/ImageDataSave.py:127-141 | Announcing a coil sets each of its two counters to the least index not below its cached mark (0 without one) and above its files of that kind, caches and shows both and makes the coil active |
| CapturePipeline.ReserveIsNext | app/CapTrue/ImageDataSave.py:143-166 | A reservation hands out the coil's cached counter of the kind, or one more than its last file of that kind, and moves that counter by one and the other one not |
| CapturePipeline.ReserveHoldsOrDrops | app/CapTrue/ImageDataSave.py:289-307 | A frame with an index below the limit waits in its producer's hand, any other is counted as dropped, and nothing else changes |
| CapturePipeline.WholeSave | app/CapTrue/ImageDataSave.py:416-464 | A frame saved without a failing write leaves exactly its files: record, 3D data and image of a 3D frame, the image of an area frame from index 5 on |
| ImageDataSaveModel.ImageDataSave.NextSaved | app/CapTrue/ImageDataSave.py:106-119 | The scanning loops compute that index |
| ImageDataSaveModel.ImageDataSave.StoreHighWater | app/CapTrue/ImageDataSave.py:121-125 | Updating the ordered table in place and popping its old end is one store |
| ImageDataSaveModel.ImageDataSave.ResumeCaptureIndices | app/CapTrue/ImageDataSave.py:127-141 | Resuming returns and shows for each kind the least index not below the cached mark and above the coil's files, and makes the coil active |
| ImageDataSaveModel.ImageDataSave.SwitchCoil | app/CapTrue/ImageDataSave.py:168-182 | An announced coil is one resume step |
| ImageDataSaveModel.ImageDataSave.ReserveCaptureIndex | app/CapTrue/ImageDataSave.py:143-166 | A reservation returns the coil's cached counter of that kind, or one more than its last file, and advances only that kind |
| ImageDataSaveModel.ImageDataSave.Index | app/CapTrue/ImageDataSave.py:289-307 | The first half of put is one reservation step |
| ImageDataSaveModel.ImageDataSave.HoldFrame | app/CapTrue/ImageDataSave.py:289-307 | A frame at or past the index limit is counted as dropped, any other waits for the queue |
| ImageDataSaveModel.ImageDataSave.ReserveQueueMemory | app/CapTrue/ImageDataSave.py:236-245 | The frame is admitted exactly when there is no budget, it has no size, the counter is not positive or together they are within the budget; then its bytes are added |
| ImageDataSaveModel.ImageDataSave.ReleaseQueueMemory | app/CapTrue/ImageDataSave.py:247-249 | Bytes are taken back, clamped at zero |
| ImageDataSaveModel.ImageDataSave.Admit | app/CapTrue/ImageDataSave.py:269-279 | Admission under the stop lock is one step |
| ImageDataSaveModel.ImageDataSave.AwaitRoom | app/CapTrue/ImageDataSave.py:280-287 | The wait for room is a run whatever others do; on success the frame is the last accepted, on timeout it never was and the queue is full |
| ImageDataSaveModel.ImageDataSave.AdmitAndPut | app/CapTrue/ImageDataSave.py:270-287 | Under the lock a frame is refused, times out or becomes the last accepted one, and the result says which |
| ImageDataSaveModel.ImageDataSave.QueueBuffer | app/CapTrue/ImageDataSave.py:269-287 | The result says whether the frame was accepted |
| ImageDataSaveModel.ImageDataSave.Put | app/CapTrue/ImageDataSave.py:289-307 | A whole put is a run of the system whatever others do; it answers true only for a frame just accepted under its reserved index, false only for one that is not accepted |
| ImageDataSaveModel.HeldNotAccepted | app/CapTrue/ImageDataSave.py:269-287 | A frame still held, or not yet reserved, is not among the accepted ones |
| ImageDataSaveModel.HandWaits | app/CapTrue/ImageDataSave.py:269-287 | While a producer waits for the lock no other thread touches its frame |
| ImageDataSaveModel.PutWaits | app/CapTrue/ImageDataSave.py:280-287 | While a producer waits for room it keeps the stop lock |
| ImageDataSaveModel.ImageDataSave.TakeItem | app/CapTrue/ImageDataSave.py:507-512 | Taking an item is one step; the sentinel ends the worker |
| ImageDataSaveModel.ImageDataSave.WriteNext | app/CapTrue/ImageDataSave.py:416-464 | Writing one file of a frame, or failing to, is one step |
| ImageDataSaveModel.ImageDataSave.EndSave | app/CapTrue/ImageDataSave.py:528-535 | Ending a save releases the frame's bytes, however the save ended |
| ImageDataSaveModel.ImageDataSave.SaveOne | app/CapTrue/ImageDataSave.py:507-535 | One item is a run of the system, the other threads acting before every write and before the end of the save; a frame is handed over and its save ended, the sentinel ends the worker |
| ImageDataSaveModel.ImageDataSave.WriteOne | app/CapTrue/ImageDataSave.py:416-464 | One file is written after whatever the others do |
| ImageDataSaveModel.ImageDataSave.Run | app/CapTrue/ImageDataSave.py:507-536 | The worker loop is a run whatever others do while it waits and while it saves; in each turn it is handed a frame, unless it has had all that were queued at first or has exited; once it has exited it was handed exactly the accepted frames and the queue is empty |
| ImageDataSaveModel.ImageDataSave.Stop | app/CapTrue/ImageDataSave.py:187-212 | A stop call, its wait for the lock included, is a run whatever others do; once it has had the lock it has let go of it, its answer says whether the sentinel is in, and the pipeline no longer runs |
| ImageDataSaveModel.ImageDataSave.StopLocked | app/CapTrue/ImageDataSave.py:189-212 | Under the lock nothing is accepted, no second sentinel is enqueued, and after an attempt the call fails only with the queue full |
| ImageDataSaveModel.StopWaits | app/CapTrue/ImageDataSave.py:187-212 | While a stop call waits no other thread touches its lock or flag |
| ImageDataSaveModel.WorkerWaits | app/CapTrue/ImageDataSave.py:507-512 | While the worker waits no other thread changes what it does |
| ImageDataSaveModel.QueueWaits | app/CapTrue/ImageDataSave.py:507-512 | Nobody but the worker takes frames out of the queue |
| ImageDataSaveModel.ImageDataSave.Perform | app/CapTrue/ImageDataSave.py:106-307 | The object's methods do exactly the step asked for |
| Heartbeat.HealthyIff | app/algorithm_runtime/watchdog.py:102-143 | A record is healthy exactly when it is this service's and this process's, neither stale nor from the future, all activities are readable and within their deadlines, and its status is ok |
| Heartbeat.ReasonIsFirst | app/algorithm_runtime/watchdog.py:102-143 | The reason given is the first, in the order of the checks, that is true of the record; of the activities it names the first that is unreadable or overdue |
| Heartbeat.ItemsHealthyIff | app/algorithm_runtime/watchdog.py:127-140 | The activity list passes exactly when no element is malformed or overdue |
| Heartbeat.HeartbeatHealth | app/algorithm_runtime/watchdog.py:102-143 | The field-by-field check gives that verdict with the first reason that applies |
| Heartbeat.RuntimeHeartbeat.BeginActivity | app/algorithm_runtime/runtime_heartbeat.py:76-100 | One activity is added at the end, its deadline one timeout from now, the timeout at least one second, the default when none is given |
| Heartbeat.RuntimeHeartbeat.ProgressActivity | app/algorithm_runtime/runtime_heartbeat.py:102-111 | The activity's deadline moves to its own timeout from now, its progress time to now, its stage changes; every other entry stays, and an unknown token changes nothing |
| Heartbeat.RuntimeHeartbeat.EndActivity | app/algorithm_runtime/runtime_heartbeat.py:113-117 | Exactly that activity is removed, the others keep their order |
| Heartbeat.RuntimeHeartbeat.MakePayload | app/algorithm_runtime/runtime_heartbeat.py:144-164 | The record lists all activities in order and says stalled exactly when one is overdue |
| Heartbeat.RuntimeHeartbeat.WriteOnce | app/algorithm_runtime/runtime_heartbeat.py:166-190 | The file becomes the new record or stays as it was, and the result says which |
| HeartbeatProtocol.NoFalseAlarm | app/algorithm_runtime/runtime_heartbeat.py:76-195 | If from its start a process ends each activity, or progresses it again, an interval before the activity's own timeout has passed since its last sign of life, and has rewritten its record within that interval, not above the heartbeat timeout, whenever it is probed, every probe is healthy although it sees only the deadlines last published |
| HeartbeatProtocol.DeadlinesFollowSigns | app/algorithm_runtime/runtime_heartbeat.py:76-117 | Over every run the table holds exactly the activities begun and not ended, each with its deadline one timeout of its own after it was last begun or progressed |
| HeartbeatProtocol.TimelyMargin | app/algorithm_runtime/runtime_heartbeat.py:76-117 | Signs of life in time keep every live deadline the interval away at every moment |
| HeartbeatProtocol.TimelyRoomy | app/algorithm_runtime/runtime_heartbeat.py:144-190 | And with them every record in the making or published |
| HeartbeatProtocol.HungActivityDetected | app/algorithm_runtime/watchdog.py:121-143 | After an activity's last sign of life every probe past both its deadline and one heartbeat timeout fails, whether the heartbeat thread goes on publishing, fails to or hangs |
| HeartbeatProtocol.HungSinceLastSign | app/algorithm_runtime/watchdog.py:121-143 | The same from the events alone: once an activity's own timeout has passed since its last sign of life, and one heartbeat timeout since the last event before the silence, every probe fails |
| HeartbeatProtocol.HungKept | app/algorithm_runtime/runtime_heartbeat.py:102-164 | No run of other events hides the hung activity: each record is too old to show it or shows its deadline |
| HeartbeatProtocol.RoomyStep | app/algorithm_runtime/runtime_heartbeat.py:144-190 | Stamping, collecting and publishing keep every record's deadlines an interval after its stamp |
| HeartbeatProtocol.PastKept | app/algorithm_runtime/runtime_heartbeat.py:144-190 | Records are never stamped in the future |
| SupervisedProcess.WellBehavedNeverStopped | app/algorithm_runtime/watchdog.py:295-318 | No false kill: the supervisor never stops a child that from its start gives its signs of life in time and, from the end of the grace period on, rewrites its record in time, whatever record it found at its start |
| SupervisedProcess.TimelyNeverStopped | app/algorithm_runtime/watchdog.py:295-318 | The same for the rounds that remain after any part of the run |
| SupervisedProcess.HungChildStopped | app/algorithm_runtime/watchdog.py:295-328 | A child with a hung activity is stopped within threshold probe periods of the latest of its deadline, one heartbeat timeout and the end of the grace period |
| SupervisedProcess.StoppedByFailures | app/algorithm_runtime/watchdog.py:302-328 | The same from any number of failures already counted |
| Watchdog.Supervisor.EnsureChild | app/algorithm_runtime/watchdog.py:257-275 | A turn begins with a running child, found or started with its counters reset, or ends with a failed start, one more restart counted and its wait |
| Watchdog.Supervisor.OneTurn | app/algorithm_runtime/watchdog.py:251-336 | One turn of the loop does what the turn function says; a child that has exited is dropped, and the restarts start anew if it was up long enough |
| Watchdog.Supervisor.CheckHealth | app/algorithm_runtime/watchdog.py:295-336 | Grace, healthy probe, counted failure and stop, with the counters each leaves |
| Watchdog.Supervisor.Supervise | app/algorithm_runtime/watchdog.py:251-336 | The loop is the run of its turns |
| Watchdog.Supervisor.SuperviseUntilInterrupt | app/algorithm_runtime/watchdog.py:329-333 | Interrupted after any turn or within one, the supervisor stops exactly the child that is running, and none is left |
| Watchdog.LogStaysRight | app/algorithm_runtime/watchdog.py:251-336 | In every run only a running child is probed, stopped or seen to exit, one is started only when none runs and after the wait that is due, probes come after grace, a stop comes exactly at the threshold, and each wait has the length the restarts counted since the last stable moment determine |
| Watchdog.StoppedOnlyAfterFailures | app/plcServer/write_plc_watchdog.py:209-289 | A child is stopped only right after exactly threshold failing probes of that child, all past grace, with no healthy probe between |
| Watchdog.StoppedAsSoonAsFailed | app/plcServer/write_plc_watchdog.py:209-289 | And then at once: the next action is the stop |
| Watchdog.OneChildAtATime | app/algorithm_runtime/watchdog.py:257-275 | A child is started only after every earlier one was stopped or seen to exit |
| Watchdog.EachRestartWaits | app/algorithm_runtime/watchdog.py:262-333 | Each failed start, exit or stop is at once followed by a wait of the length the restarts counted up to it determine |
| Watchdog.BackoffDoubles | app/algorithm_runtime/watchdog.py:86-91 | The restart delay starts at the base delay, doubles with each further failure, is capped, and grows no more after the eleventh |
| Watchdog.BackoffBounds | app/algorithm_runtime/watchdog.py:86-91 | The restart delay lies between the base delay and the cap, for any number of failures |
| WriterWatchdog.WriterHealthyIff | app/plcServer/write_plc_watchdog.py:94-142 | The writer's record is healthy exactly when service, process id, token, age, activity list, deadlines and status are right |
| WriterWatchdog.WriterJudgesLikeAlgorithm | app/plcServer/write_plc_watchdog.py:94-142 | Where both watchdogs look at the same things they give the same reason; a wrong token comes right after the process id, and an absent list is no list |
| WriterWatchdog.WriterHealth | app/plcServer/write_plc_watchdog.py:94-142 | The field-by-field check gives that verdict |
| WriterWatchdog.HealthyMeansOwnRecord | app/plcServer/write_plc_watchdog.py:166-186 | With fresh tokens, a record judged healthy for the current child was written by that child, whatever survivors write, whatever process ids recur and whether or not old files are removed |
| WriterWatchdog.InvKept | app/plcServer/plc_writer_heartbeat.py:164-185 | The file always carries the token and process id of its author |
| WriterWatchdog.PidAloneAcceptsIff | app/algorithm_runtime/watchdog.py:110-119 | Without a token an earlier child's record passes exactly when the process id was reused |
| PlcSession.ExecuteReconnectsOnce | app/plcServer/server.py:339-363 | A call runs at most twice, the second time only after the first failed and only on a client built since; it ends connected with that call's value or disconnected |
| PlcSession.ExecuteAnswers | app/plcServer/server.py:339-363 | A call answers with the first attempt if that reaches the callback, on the live client if there is one, and the callback succeeds; otherwise with the second, on a new client; a live session that answers is left as it is |
| PlcSession.TryOnceAnswers | app/plcServer/server.py:345-362 | One attempt reaches the callback exactly when the session is live or a client is built and connects, and its outcome is the callback's |
| PlcSession.EveryClientAccountedFor | app/plcServer/server.py:256-337 | Over all requests, closing included: connected exactly when there is a client, built for the current target, none closed twice or while current; every client is current or closed exactly when no request built one that refused its timeout fields |
| PlcSession.LeakedIffRefused | app/plcServer/server.py:256-284 | Clients are leaked exactly by requests that must build one and get one that refuses its timeout fields |
| PlcSession.ConfigureKeeps | app/plcServer/server.py:223-235 | Retargeting closes the old client before anything is built for the new target |
| PlcSession.InvKept | app/plcServer/server.py:223-363 | Every sequence of requests keeps the ownership of clients |
| PlcSession.PLCConnectionManager.NewClient | app/plcServer/server.py:256-264 | A client counts as made only if it was built and took its timeouts |
| PlcSession.PLCConnectionManager.ConnectLocked | app/plcServer/server.py:266-284 | Connecting keeps a live session, otherwise builds one client and closes it again if it does not connect |
| PlcSession.PLCConnectionManager.DisconnectLocked | app/plcServer/server.py:333-337 | The current client is dropped and closed once |
| PlcSession.PLCConnectionManager.ConfigureTarget | app/plcServer/server.py:223-235 | A busy session is left alone; otherwise the target changes, the old client is closed, a new one is connected exactly when asked for and possible, and the lock and marker are cleared |
| PlcSession.PLCConnectionManager.AttemptOnce | app/plcServer/server.py:345-362 | One attempt connects if need be, calls and drops the session on any error |
| PlcSession.PLCConnectionManager.ExecuteCall | app/plcServer/server.py:339-363 | The retry loop makes at most two attempts; lock and operation marker are cleared on every path |
| PlcSession.PLCConnectionManager.Read | app/plcServer/server.py:365-379 | A read gives the first answer of exactly the requested length that is reached within two attempts; a wrong length counts as a failed call |
| PlcSession.PLCConnectionManager.Close | app/plcServer/server.py:469-477 | Shutdown drops and closes the session unless an operation holds the lock, and then leaves it alone |
| SickCameraModel.OneLiveAcquirer | app/CapTrue/Camera.py:156-191 | Over all calls and outcomes, requests arriving in the middle of calls, at most the current acquirer is live, and none is destroyed twice or while current |
| SickCameraModel.ResetsAreRationed | app/CapTrue/Camera.py:295-300 | Only requests come between an automatic reset and the failed start it answers, at least threshold starts have failed since the last success, and since any earlier reset there was a successful start or a manual reconnect |
| SickCameraModel.AutomaticResetIff | app/CapTrue/Camera.py:295-300 | A failed start discards its acquirer, and resets the device exactly when it failed on the lock, failures in a row have reached a positive threshold and no reset has been spent since the last success or manual reconnect, requests during the diagnosis included |
| SickCameraModel.ResetRequestServedIff | app/CapTrue/Camera.py:592-619 | A device reset requested while pending actions are processed is never left for a later call; it is served exactly when a reset was already asked before the call and the request comes before that reset |
| SickCameraModel.ProcessLog | app/CapTrue/Camera.py:592-619 | The call performs one manual reset exactly when one had been asked before it began, and clears both events |
| SickCameraModel.ProcessDiscards | app/CapTrue/Camera.py:592-619 | The call gives up the acquirer that was current, or the one it made to reset the device, and does not return normally |
| SickCameraModel.NothingPendingIff | app/CapTrue/Camera.py:592-596 | The call returns normally exactly when nothing was asked before the events were read |
| SickCameraModel.ServeOwned | app/CapTrue/Camera.py:302-363 | Every call keeps the ownership of acquirers |
| SickCameraModel.ServeRationed | app/CapTrue/Camera.py:295-619 | Every call keeps the ration of resets |
| SickCameraModel.SickCamera.DiscardCamera | app/CapTrue/Camera.py:302-363 | An acquirer is discarded once; an acquirer discarded last is refused |
| SickCameraModel.SickCamera.ConnectDevice | app/CapTrue/Camera.py:156-186 | A new acquirer becomes current, and is discarded again if it cannot be configured |
| SickCameraModel.SickCamera.OpenCamera | app/CapTrue/Camera.py:430-467 | Connecting comes first; a failure to connect is no failed start |
| SickCameraModel.SickCamera.StartCamera | app/CapTrue/Camera.py:433-467 | A failed start is counted and discards the acquirer, with a reset when one is due at the decision, requests arriving before and after it; a success clears the counters |
| SickCameraModel.SickCamera.ReleaseCamera | app/CapTrue/Camera.py:469-481 | The current acquirer is discarded without a reset |
| SickCameraModel.SickCamera.ProcessPendingActions | app/CapTrue/Camera.py:592-619 | The two events are read one after the other, the acquirer is discarded, with a reset if that was read, and both events are cleared, whatever was requested in between |
| SickCameraModel.SickCamera.GetBuffer | app/CapTrue/Camera.py:419-428 | Pending requests come before the fetch; with none the camera is kept, or connected if there is none |
| SickCameraModel.SickCamera.AskReconnect | app/CapTrue/Camera.py:563-577 | A manual reconnect lifts the ration |
| SickCameraModel.SickCamera.AskDeviceReset | app/CapTrue/Camera.py:579-590 | A manual reset is only queued |
| BackupPermits.PermitsConserved | app/Base/utils/Backup.py:132-180 | In every interleaving free and held permits add up, workers never outnumber the permits, and a task releases its permit at most once, not before its worker has finished |
| BackupPermits.EveryHolderCanRelease | app/Base/utils/Backup.py:150-176 | From every state every holder can still release by its own steps, with the event loop open or closed by then, and exactly its permit comes back |
| BackupPermits.Step | app/Base/utils/Backup.py:132-180 | Each of success, failure, submit error, cancellation and callback keeps the account |
| CoilSwitch.PollsMakeASwitchTrace | app/CapTrue/Signal.py:141-184 | Over all polls and poll failures the events are an init followed by pairs out of the old coil, in of one with another number |
| CoilSwitch.EveryChangeAnnounced | app/CapTrue/Signal.py:141-184 | Over all polls exactly the changes of the coil number are announced, in order, each with the record found at the change; the coil ended on carries the number found last, and there is none exactly when none was found |
| CoilSwitch.FramesBoundToAnnounced | app/CapTrue/CapTure.py:325-367 | Whatever a unit hears and however often handling raises, frames are bound exactly while an announcement was handled since the last out, and to the coil announced last |
| CoilSwitch.AwaitQuiet | app/CapTrue/Signal.py:163-181 | The wait ends at the first turn that is quiet or at the limit, after fewer turns than the limit has seconds, plus one |
| CoilSwitch.Signal.Trigger | app/CapTrue/Signal.py:98-112 | Every subscriber hears the event, whichever of them raise |
| CoilSwitch.Signal.Register | app/CapTrue/Signal.py:123-132 | A late subscriber starts with an init of the current coil |
| CoilSwitch.Signal.PollOnce | app/CapTrue/Signal.py:141-184 | Without a coil the one found is announced by an init; one with another number by out of the old and in of the new; the same number, no coil or a failed poll changes nothing; every subscriber that did not raise is bound to the new coil |
| CoilSwitch.Signal.Switch | app/CapTrue/Signal.py:176-179 | Everyone hears out of the old coil before in of the new one |
| BracketScanner.FindMatchingBracket | scripts/verify_rust_api_parity.py:204-260 | The scanning loop computes the matcher's function, also when a block comment runs past the end |
| BracketScanner.FindCloseBalances | scripts/verify_rust_api_parity.py:204-260 | The matcher returns a place exactly when the brackets outside strings, escapes and comments balance there for the first time, and -1 exactly when they never do |
| BracketScanner.MatchingBalances | scripts/verify_rust_api_parity.py:204-213 | The bracket sought is the one that balances the text behind the opening bracket, or from the index on if none stands there; past the end there is none |
| BracketScanner.OpenCommentHidesRest | scripts/verify_rust_api_parity.py:246-251 | Behind a block comment that never ends no bracket is found |
| BracketScanner.OpenStringHidesRest | scripts/verify_rust_api_parity.py:219-239 | Nor in a string that never ends |
| BracketScanner.SkipLine | scripts/verify_rust_api_parity.py:240-245 | A line comment is skipped up to the end of its line |
| BracketScanner.SkipBlock | scripts/verify_rust_api_parity.py:246-251 | A block comment is skipped with its end marker, or past the end of the text without one |
| BracketScanner.SplitTopLevelArgs | scripts/verify_rust_api_parity.py:300-344 | The scanning loop computes the non-empty trimmed pieces |
| BracketScanner.CuttingLosesNothing | scripts/verify_rust_api_parity.py:300-344 | For every text the pieces joined by commas are the text |
| TopLevelCuts.ArgumentsBetweenCuts | scripts/verify_rust_api_parity.py:300-344 | For every text the arguments are the non-empty trimmed stretches between its cuts: the commas outside strings and escapes such that since no place before them more brackets have been opened than closed |
| TopLevelCuts.DepthIsLargestSurplus | scripts/verify_rust_api_parity.py:333-337 | The splitter's depth is the largest surplus of opening over closing brackets since any place before |
| ArgumentCuts.StripTrims | scripts/verify_rust_api_parity.py:338-344 | Trimming takes blanks off both ends and nothing else, until neither end is blank |
| BracketScanner.CharactersListed | scripts/verify_rust_api_parity.py:328-344 | The blanks are the 29 characters Python counts as space, the quotes three, the brackets three of each kind |
| BracketScanner.NonEmptyConcat | scripts/verify_rust_api_parity.py:344 | Empty arguments are dropped wherever they stand, all others stay in order |
| CallText.PiecesOfParts | scripts/verify_rust_api_parity.py:300-344 | Pieces with no comma outside strings and brackets come back as they were joined |
| CallText.SplitUndoesWriting | scripts/verify_rust_api_parity.py:300-344 | Splitting a written argument list gives back its arguments, trimmed and in order |
| CallText.FindPasses | scripts/verify_rust_api_parity.py:204-260 | The matcher passes over any well-formed text at unchanged depth |
| CallText.PiecesKeep | scripts/verify_rust_api_parity.py:300-344 | The splitter keeps any well-formed text in one piece |
| CallText.ReadingUndoesWriting | scripts/verify_rust_api_parity.py:204-344 | For a written call name(a1, ..., an), whatever stands before and after, its comments if any kept at their depth, the bracket found is the closing one and the text between splits back into the arguments |
| ArgumentCuts.SplitsBackIff | scripts/verify_rust_api_parity.py:300-344 | For arguments of any text, splitting the written list gives them back, trimmed and in order, if and only if each, read on its own, is uncut and, but for the last, leaves the splitter where it began |
| ArgumentCuts.CutShorter | scripts/verify_rust_api_parity.py:300-344 | A cut within an argument leaves a shorter first argument |
| ArgumentCuts.RunsOnLonger | scripts/verify_rust_api_parity.py:300-344 | An argument that leaves a string, escape or bracket open swallows the comma after it |
| CallText.ReadingWithComments | scripts/verify_rust_api_parity.py:204-344 | For a written call with comments the matcher always finds the closing bracket, and the arguments come back exactly when each, its comments read as code, is read cleanly |
| CallText.CodeSteady | scripts/verify_rust_api_parity.py:300-344 | Well-formed code whose comments are each kept at their depth leaves the splitter where it began, uncut |
| CallText.SplitterReadsComments | scripts/verify_rust_api_parity.py:300-344 | One comment holding a comma, which the matcher looks past, is read as two arguments |
| CallText.CommentMayHang | scripts/verify_rust_api_parity.py:300-344 | One comment that opens a string it does not close still comes back, being last |
| BuilderCalls.GuardCutsOnlyCycles | scripts/verify_rust_api_parity.py:446-505 | On every builder table, cyclic ones included, the guarded resolution finds a path exactly when unguarded calls ever would, and the same one |
| BuilderCalls.GuardKeepsPath | scripts/verify_rust_api_parity.py:492-503 | A path reached by unguarded calls needs no builder twice |
| BuilderCalls.GuardInventsNothing | scripts/verify_rust_api_parity.py:492-503 | A path found under the guard is reached by as many calls as there are unseen builders |
| PathResolver.Resolve | scripts/verify_rust_api_parity.py:446-505 | Terminates on every table by (unseen builders, length), gives the resolution function's answer and leaves the seen set as it found it on every return; what the function answers is said branch by branch below |
| PathResolver.ResolveArgument | scripts/verify_rust_api_parity.py:468-487 | A wrapper call resolves its path argument, or nothing when bracket or argument is missing |
| PathResolver.CallReducesToBuilder | scripts/verify_rust_api_parity.py:492-503 | A call of any function but the three wrappers leads to the builder of exactly that name |
| PathResolver.BuilderFollowed | scripts/verify_rust_api_parity.py:492-503 | It resolves as the builder's body does with the builder marked as seen, or to nothing if there is no such builder or it is being resolved |
| PathResolver.QuotedReducesToText | scripts/verify_rust_api_parity.py:459-462 | A text in any of the three quotes leads to the path between them |
| PathResolver.BarePathReducesToItself | scripts/verify_rust_api_parity.py:464-466 | A text that starts with a slash, or with a backquote that is not closed and a slash, leads to itself |
| PathResolver.SurfaceReducesToNothing | scripts/verify_rust_api_parity.py:489-490 | A surface key is no path |
| PathResolver.OthersReduceToNothing | scripts/verify_rust_api_parity.py:451-457 | Anything that is neither quoted, nor a path, nor a call leads nowhere |
| PathResolver.OpenWrapperReducesToNothing | scripts/verify_rust_api_parity.py:468-483 | A wrapper call whose bracket is never closed leads nowhere |
| PathResolver.BlanksDoNotMatter | scripts/verify_rust_api_parity.py:451-455 | Where white space stands makes no difference |
| PathResolver.QuotedBuilderResolves | scripts/verify_rust_api_parity.py:446-505 | A call of a builder that returns a quoted text gives that text's path |
| PathResolver.JoinReducesToSecond | scripts/verify_rust_api_parity.py:468-477 | A written joinBaseUrl call comes down to its second argument |
| PathResolver.AppendReducesToFirst | scripts/verify_rust_api_parity.py:479-487 | A written appendOptionalParams call comes down to its first argument |
| PathResolver.JoinResolves | scripts/verify_rust_api_parity.py:468-477 | A written joinBaseUrl call resolves as its second argument does, or to nothing without one |
| PathResolver.AppendResolves | scripts/verify_rust_api_parity.py:479-487 | A written appendOptionalParams call resolves as its first argument does, or to nothing without one |
| PathResolver.ArgumentsAreShorter | scripts/verify_rust_api_parity.py:300-344 | Arguments are never longer than the text they are split from |
| PathResolver.MatchInside | scripts/verify_rust_api_parity.py:204-260 | A bracket found lies behind the opening one and inside the text |
| MergeRectangles.MergedSummarisesPartition | app/Base/alg/detection.py:75-133 | The results stand one-to-one for the blocks of a partition of the inputs; each is exactly the bounding box of its block with the block's best score and a member's label |
| MergeRectangles.UnchangedIffApart | app/Base/alg/detection.py:97-133 | Rectangles are merged exactly when two of them overlap; otherwise the list comes back unchanged |
| MergeRectangles.StableIffApart | app/Base/alg/detection.py:97-133 | A second merge changes nothing exactly when the first left no overlap |
| MergeRectangles.ResultMayOverlap | app/Base/alg/detection.py:124-131 | The single descending pass can leave two overlapping results |
| MergeSeparation.InsertApartIff | app/Base/alg/detection.py:108-131 | Into slots that are apart, an insertion leaves no overlap exactly when no slot that the pass does not take in on reaching it touches the box the pass ends with |
| MergeSeparation.PassIsSweep | app/Base/alg/detection.py:124-131 | The pass over the list is the growth of one box: it leaves no overlap exactly when what stays behind is clear of that box |
| MergeSeparation.AlwaysApartIff | app/Base/alg/detection.py:97-133 | Overlaps never show up, not even in between, exactly when no insertion goes by a slot |
| MergeSeparation.EnclosedInsertApart | app/Base/alg/detection.py:108-131 | An insertion leaves no overlap if some area holds the new rectangle and the slots it overlaps and touches no other slot |
| MergeSeparation.HullEncloses | app/Base/alg/detection.py:108-131 | There is such an area exactly when the bounding box of the new rectangle and the slots it overlaps is one |
| MergeSeparation.GroupsApartMerged | app/Base/alg/detection.py:97-133 | On the input: no overlap is left if, after each rectangle, the groups that hang together through overlaps have bounding boxes that are apart |
| MergeSeparation.CornerIsMergedAnyway | app/Base/alg/detection.py:97-133 | That condition is not necessary: a rectangle in the corner of a group's box is merged although it overlaps no member |
| MergeSeparation.NeverMergesAcross | app/Base/alg/detection.py:97-133 | Rectangles that lie in areas apart from each other are never merged: each result lies in one area |
| MergeRectangles.MergeRects | app/Base/alg/detection.py:97-133 | The loop empties the caller's list and returns such a summary |
| MergeRectangles.TakeIn | app/Base/alg/detection.py:108-122 | A rectangle is merged into the first slot it overlaps, or appended when it overlaps none |
| MergeRectangles.MergeDown | app/Base/alg/detection.py:124-131 | The descending pass merges each slot into the first earlier one it overlaps |
| MergeRectangles.MergeSummary | app/Base/alg/detection.py:85-95 | Merging two summaries summarises the union of their blocks |
| MergeRectangles.MergeIsJoin | app/Base/alg/detection.py:85-95 | Merging gives the least box around both, the greater score and the label of the first argument |
| MergeRectangles.OverlapIffPointShared | app/Base/alg/detection.py:75-82 | Two boxes overlap exactly when a point lies in both, borders included |
| MergeRectangles.LabelsOf | app/Base/alg/detection.py:108-131 | A rectangle taken into a slot gives it its own label; a fold gives the earlier slot the label of the later one; no other slot changes |
| PlanePoints.SelectPlaneFitPoints | app/Base/tools/FlattenSurface.py:37-64 | Exactly min(valid cells, maximum) points, distinct, in row-major order, inside image, mask and value range, each with its value: all valid cells if they fit, otherwise those on the first grid of the halving series that has enough of them, thinned evenly if they are too many; and the count of valid cells |
| PlanePoints.MarkedIffUsable | app/Base/tools/FlattenSurface.py:38 | The valid cells are exactly those inside the image and the mask with a value strictly inside the range |
| PlanePoints.ChosenIsPicked | app/Base/tools/FlattenSurface.py:37-64 | Which cells are chosen, said by grid, series and places |
| PlanePoints.SampledIsGrid | app/Base/tools/FlattenSurface.py:46-57 | The sample is the cells on the grid of the first stride of the halving series that has enough of them, of stride 1 in the end |
| PlanePoints.FirstStrideIsRoot | app/Base/tools/FlattenSurface.py:46 | The series starts at the square root of pixels a point, rounded down, at least 1 |
| PlanePoints.GridListed | app/Base/tools/FlattenSurface.py:49-53 | Slicing and scaling back lists exactly the true cells whose row and column are multiples of the stride |
| PlanePoints.ThinnedSpread | app/Base/tools/FlattenSurface.py:59-62 | The i-th of m chosen points is the one of the n sampled at place i (n - 1) / (m - 1), rounded down |
| PlanePoints.SpreadGaps | app/Base/tools/FlattenSurface.py:59-62 | Neighbouring places are (n - 1) / (m - 1), rounded down, apart, or one more |
| PlanePoints.SpreadEnds | app/Base/tools/FlattenSurface.py:59-62 | The first and the last of the sample are kept |
| PlanePoints.SampleHalving | app/Base/tools/FlattenSurface.py:46-57 | The stride-halving loop ends with the first sample that is large enough, or the whole mask |
| PlanePoints.ChosenIsSelection | app/Base/tools/FlattenSurface.py:37-64 | Whatever stride is used, the choice has the owed size, order and validity |
| PlanePoints.SampledCells | app/Base/tools/FlattenSurface.py:46-57 | Samples are true cells in order, and never too few |
| PlanePoints.ThinnedOrder | app/Base/tools/FlattenSurface.py:59-62 | Evenly spread places are distinct, so thinning keeps the order |
| PlanePoints.NonZero | app/Base/tools/FlattenSurface.py:43-44 | The listing has exactly the true cells, each once, row by row |
| ImageTiling.TileBounds | scripts/tile_gray_yolo26_xml.py:126-139 | Every pixel lies in exactly one tile, every tile is non-empty and inside the image, and grid cells come in order without repetition; the tiles are as wide and high as the least step that reaches the image's end, but for the last ones |
| ImageTiling.GridIsRegular | scripts/tile_gray_yolo26_xml.py:126-139 | Tiles start at multiples of the rounded-up tile size and have that size or end with the image |
| ImageTiling.GridTilesExactly | scripts/tile_gray_yolo26_xml.py:126-139 | The non-empty cells of the grid tile the image exactly |
| ImageTiling.EveryPixelCovered | scripts/tile_gray_yolo26_xml.py:126-139 | The rounded-up tile sizes reach every pixel |

## Left out

- CaptureNoOverwrite.IdleEvictionNeverOverwrites: pending frames include those indexed but not yet queued, because such a frame can be queued after the eviction.
- PlcSession.EveryClientAccountedFor: the exception is the code's own; `_new_client` does not close a client whose timeout fields cannot be set.
- BackupPermits: modelled as a step system, because its awaits, executor and callbacks interleave; the copying of files and the admission timeout are left out.
- HeartbeatProtocol: the threads of the process are events on one clock; file replacement is atomic; a process starts with no activities.
- SupervisedProcess.HungChildStopped: the child does not exit by itself meanwhile; a child that does is restarted by the supervisor.
- Watchdog.Supervisor.SuperviseUntilInterrupt: an interrupt during the start or the stop of a child.
- Heartbeat.HeartbeatHealth: numbers are reals, so non-finite values in a record are left out.
- CoilSwitch.Signal.Register: a registration is atomic; registering between a poll's assignment and its events is left out, as is `unregister`.
- CoilSwitch.FramesBoundToAnnounced: the reconnect attempts of the 2D camera in `on_signal`.
- ImageDataSaveModel.ImageDataSave.NextSaved: directories and files without a numeric stem are not in the listing, and the scan is atomic under its lock.
- ImageDataSaveModel.ImageDataSave.WriteNext: file contents, the camera configuration and database rows; only numbered frame files count, and switched-off raw files are writes that leave nothing.
- ImageDataSaveModel.ImageDataSave.Put: the size of a frame is a parameter, so the summing of its two arrays is left out.
- PathResolver.Resolve: the regular expressions that normalise a path are one function parameter.
- PathResolver: collecting the builder table and comparing routes.
- MergeRectangles.LabelsOf: merge by merge; which member's label a result of several merges bears is not said in closed form.
- MergeSeparation.GroupsApartMerged: sufficient only; a condition on the input alone that is also necessary is open, because a later rectangle may merge slots that an earlier pass left overlapping.
- CallText.ReadingWithComments: a line comment at the very end of an argument, its line ending outside the argument.
- CaptureReuse.UnsafeMissReuses: that the reused index leads to an overwritten file is shown by a run (`EvictionCanOverwrite`), not for every continuation; area frames below index 5 leave no file.
- PlcSession.PLCConnectionManager.Read: validation of addresses and values, `write` and `status`; the byte decoding of `get_value`.
- SickCameraModel.SickCamera.GetBuffer: the fetch itself; camera operations run on one thread under the camera lock, requests arrive at any point between their sections, and each connect gives a new SDK handle.
- MergeRectangles.MergeRects: coordinates are integers and scores reals; NaN scores are left out.
- PlanePoints.SelectPlaneFitPoints: floating-point rounding of the square root and of the evenly spaced places; the mask has the shape of the data.
- ImageTiling.TileBounds: floating-point rounding of the tile size.
- The call monitor of the 3D camera, which times SDK calls for the status page.
- The frame queue of the 2D camera, which drops its oldest frame when it is full.
- The retry delays of the 3D capture loop after camera errors.
- The near-copies of the supervisor for the capture, API, PLC and 2D processes.
- Vendor SDKs, HTTP, sockets, processes, logging, image analysis, training and conversion scripts.

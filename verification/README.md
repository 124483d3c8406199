# Flotta device worker: a verified model

This project models the stateful parts of the Flotta device worker and proves what they promise
over every input, every interleaving and every failure script:

- **Metrics remote write**: cutting series into requests, retrying, moving a persistent cursor over
  the metrics store, and the lock-protected life of the writer goroutine
  (`GoTime`, `SampleRequests`, `RequestSending`, `RemoteWriting`, `Delivery`, `CursorFile`, `DeviceLabels`, `FixedStore`, `ArrivalOrder`, `LateSamples`, `WriterLifecycle`).
- **Pending playbooks**: the two-way table that works as a write-ahead log, the pass over what an
  earlier process left, and the handler/executor protocol (`PlaybookTable`, `PendingPlaybooks`, `PlaybookProtocol`).
- **Workload reconciliation**: podman, manifest files, firewall chains, the name/id table and the
  secrets driven toward a configuration (`WorkloadTable`, `WorkloadDevice`, `DeviceLaws`, `Reconcile`, `ConfiguredPods`, `DeviceSecrets`,
  `Firewall`, `WorkloadManagement`, `UpdateOutcome`, `FailedCalls`, `SecondUpdates`, `ReloadedServices`,
  `StuckServices`, `LostChanges`).
- **Playbook events**: the numbered event stream and the in-place renaming of task ids
  (`TaskEvents`, `TaskUuids`, `EventTransformer`).
- **Logs**: the bounded buffer, the transport loop, the transports and writers
  (`LogBuffer`, `LogTransport`, `LogTargets`).
- **Configuration**: the stored message, its file and its observers (`SecretLists`, `ConfigurationManager`).

Foreign systems are parameters: a server is a function from attempt number to reply, podman, nft,
systemd and the file system are maps whose calls fail where a fault script says so, the metrics store is
what each look at it shows, and the walk of a Go map is any order of its keys. Objects that the Go code
changes in place are classes, and each method's `ensures` ties the new state to a specification
function; the lemmas are about those functions. Concurrent parts are state machines whose steps are the
lock-protected or channel operations.

`dafny verify dfyconfig.toml` checks the project.

## What the proofs found about the code

- `isEqualUnorderedSecretLists(x, y)` is equality up to order for every `x` exactly when the names in
  `y` are distinct; otherwise it is neither reflexive nor symmetric in general.
- A configuration message that could not be stored has already been given to the observers, and going
  back to the stored message is then skipped, so the observers keep the rejected one. They agree with
  memory exactly as `ObserversFollowMemoryExactlyWhen` says. A failed file
  write also replaces the observers' errors in the result. A message that differs in version or device id
  alone is skipped. A message into which the workload manager writes labels is not recognised when it is
  sent again.
- `WorkloadsLogsTarget.Update` puts a new transport and buffer under every target: the writers it keeps
  feed the old buffer. A writer is on a current buffer exactly when its workload was started since the last
  `Update`. The loops of all transports ever set up go on running.
- `FIFOLog.ReadLine` answers nil exactly when all queued entries are empty, so trailing empty entries
  stay queued until somebody writes more.
- The manifest is stored before `Run`, and later updates look at files only: a workload whose `Run`
  failed is not tried again, and an update without faults then reports no error although it is missing.
  `UpdateRunsExactlyWhen` gives the exact condition for whole updates.
- Names that differ in spaces and dashes only share a directory, and dropping one deletes the files of the
  other. A second Update calls neither Remove nor Run if and only if no directory is shared.
- A DeleteChain that fails is not reported. A redeployed workload then keeps its old rules in front of the
  new ones, a deleted one its chain; the chains are exact if and only if no last call on a name did this.
- A service read back from the services file has no connection to systemd, and stopping it ends the process.
  So after a restart the pods of the workloads in that file never change again: an Update that has to replace
  or drop one dies, exactly then if nothing else fails. The new message was not stored, so the next process
  dies on the old one, whose files it no longer finds, and only the third lives, with the old files. In one
  process, a Remove that failed after some units were deleted blocks every later one.
- A playbook stored under two times is run twice by the pending pass and keeps an entry.
- The comment above `eventTransformer` promises one playbook start event; its guard asks for counter 1 at
  a point where the counter is always even, so none is ever produced. The model follows the code.
- Task uuids tell the tasks of a play apart if and only if no name that a renamed task gets is the id of an
  unrenamed task with hosts, nor a repeated id unless the renamed task has one host. Ids without underscore
  always meet this; `a`, `a`, `a_1` clash.
- An executor can end if and only if its handler has not timed out; if the timeout came before the results
  were handed over, its playbook stays pending until the process ends.
- A sample added to the store behind what was seen is skipped, and after a restart with an older cursor it
  can arrive behind newer samples of its series.
- A series list that ends with an empty series costs one extra, empty request when the sample count is a
  multiple of the request size.

## Model

| member | source | states |
|---|---|---|
| GoTime.DbTimeRoundTrip | internal/metrics/metrics.go:263-274 | `toDbTime(fromDbTime(t)) == t` if and only if t is none of the three sentinels and t·10^6 fits in int64, negatives included; a sentinel reads as the start of year 1 |
| GoTime.CursorRoundTrip | internal/metrics/remote_write.go:63-71 | the saved cursor, split by truncated division and remainder, gives back the instant if and only if its nanosecond count fits in int64 |
| GoTime.WindowBoundsKeepSample | internal/metrics/remote_write.go:293-308 | truncating window bounds to milliseconds never cuts off a sample newer than the cursor, aligned or not |
| SampleRequests.PieceIsFlatSlice | internal/metrics/remote_write.go:357-369 | a block of samples kept under its series is exactly that slice of all (labels, sample) pairs |
| SampleRequests.PieceExtend | internal/metrics/remote_write.go:352-370 | taking k more samples of a series adds one entry to the block, exactly when the block does not end inside that series |
| SampleRequests.RequestsConserveSamples | internal/metrics/remote_write.go:343-392 | put end to end the requests are the input pairs in order; all but the last hold exactly N samples, the last at most N; no empty series is listed |
| SampleRequests.RequestCount | internal/metrics/remote_write.go:348-389 | the number of requests is ceil(total/N), plus one empty request exactly when N divides the total and the last series is empty |
| RequestSending.SendOneAttempts | internal/metrics/remote_write.go:419-443 | one to three attempts with the same request, all but the last recoverable failures; goes on exactly when the last reply is final, gives up only after three |
| RequestSending.SendAllSettles | internal/metrics/remote_write.go:383-391 | a range that goes on has a final reply for each of its requests |
| RequestSending.SendAllAccepted | internal/metrics/remote_write.go:383-391 | while the server accepts, each request is sent exactly once, in order |
| RequestSending.WriteRequest | internal/metrics/remote_write.go:396-444 | the retry loop refines the specified attempts, for every reply script; a request that cannot be encoded is given up without an attempt |
| RequestSending.TakeSamples | internal/metrics/remote_write.go:349-376 | one turn of the filling loop keeps the request equal to the block of samples since the last send, and moves strictly forward |
| RequestSending.Flush | internal/metrics/remote_write.go:378-388 | what is sent is exactly the next request of the list |
| RequestSending.WriteRange | internal/metrics/remote_write.go:343-392 | the four-variable loop terminates and sends exactly the list of requests, stopping at the first given up |
| RemoteWriting.RemoteWrite.constructor | internal/metrics/remote_write.go:52-78 | the cursor starts at the saved instant, or at the zero time without a readable file |
| RemoteWriting.RemoteWrite.WriteNextRange | internal/metrics/remote_write.go:287-337 | one window: cursor, file, attempts and finished windows change as specified, or nothing but the attempts when it is given up |
| RemoteWriting.RemoteWrite.Write | internal/metrics/remote_write.go:282-339 | the window loop refines the specified call, for every sequence of store readings and replies |
| Delivery.RangeSettlesSample | internal/metrics/remote_write.go:343-444 | every sample of a range that was not given up got a final reply |
| Delivery.IterateKeepsInv | internal/metrics/remote_write.go:284-338 | a window keeps: every instant behind the cursor is in a finished window, whose samples are settled; the saved cursor is not ahead; the cursor moves forward |
| Delivery.RunKeepsInv | internal/metrics/remote_write.go:52-78 | the same over every run of calls and restarts |
| Delivery.EverySampleBehindCursorIsSettled | internal/metrics/remote_write.go:282-339 | at-least-once delivery over all runs, failures and restarts: each sample behind the cursor that its window saw was acknowledged or refused for good |
| Delivery.CursorOnlyGrows | internal/metrics/remote_write.go:333-334 | LastWrite never decreases while a process lives |
| Delivery.FailedRangeIsResentWhole | internal/metrics/remote_write.go:321-334 | a given-up range leaves cursor and file alone and is later sent again from its first request |
| CursorFile.SaveOutcomes | internal/metrics/remote_write.go:333-337 | after a finished window a good save makes a new process resume at exactly this cursor, a failed one leaves the file as it was, an emptied file makes it start at the zero time |
| CursorFile.RestartResumesAtLastStored | internal/metrics/remote_write.go:63-71 | over every run a restart resumes at the end of the last window that was stored, unless the file was emptied since |
| CursorFile.RestartAfterStoredCall | internal/metrics/remote_write.go:282-339 | a restart right after a call whose last window was stored has the same cursor |
| DeviceLabels.RelabelNamesDevice | internal/metrics/remote_write.go:316-319 | every series carries the device id under "edgedeviceid", all other labels and the samples are as stored |
| DeviceLabels.RunNamesDevice | internal/metrics/remote_write.go:316-327 | over every run every series of every request sent carries this device's id |
| FixedStore.RangesCoverExactly | internal/metrics/remote_write.go:284-300 | windows are contiguous, disjoint, at most RangeDuration long, cover exactly [max(LastWrite+1ms, min), max] and number ceil((max-start+1ms)/(RangeDuration+1ms)) |
| FixedStore.WriteSendsAllRanges | internal/metrics/remote_write.go:282-339 | on a fixed store with an accepting server one call sends the requests of all windows, each once, and ends with LastWrite = max |
| FixedStore.SeriesOverRanges | internal/metrics/remote_write.go:307-327 | per label set, what all windows send is exactly the stored samples between the first and the last instant |
| FixedStore.EachSeriesArrivesInOrder | internal/metrics/remote_write.go:282-339 | per label set, samples arrive in strictly increasing time over the whole call (section "Ordering" of the Prometheus Remote-Write Specification 1.0) |
| ArrivalOrder.RangeFlow | internal/metrics/remote_write.go:383-391 | whatever the server replies, sending a range lets a prefix of its samples arrive, in their order |
| ArrivalOrder.IterateKeepsOrder | internal/metrics/remote_write.go:284-338 | a window, finished or given up, keeps: first arrivals are in order, and no sample is left out below one that has arrived |
| ArrivalOrder.FirstArrivalsAreInOrder | internal/metrics/remote_write.go:282-444 | over every run with failing servers, resent ranges and restarts, a sample that gets its final reply for the first time is newer than all samples of its series that got theirs before, if nothing is added behind what was seen |
| LateSamples.RangeKeepsOrderExactlyWhen | internal/metrics/remote_write.go:307-327 | with any additions: a range keeps first arrivals in order if and only if no sample of the part that arrives is new to the server and older than one of its series that has arrived |
| LateSamples.RunInOrderExactlyWhen | internal/metrics/remote_write.go:282-444 | over every run with any replies, additions and restarts: first arrivals are in order if and only if this held for every range when it was sent |
| LateSamples.LateSampleArrivesLate | internal/metrics/remote_write.go:282-339 | a concrete run with an accepting server, a late sample and a restart without saved cursor, in which first arrivals are out of order |
| WriterLifecycle.UpdateKeepsInv | internal/metrics/remote_write.go:125-164 | an update keeps the lifecycle invariant |
| WriterLifecycle.RoutineKeepsInv | internal/metrics/remote_write.go:248-278 | the steps of the goroutine keep it |
| WriterLifecycle.OneWriterInEveryRun | internal/metrics/remote_write.go:125-278 | in every interleaving: at most one live goroutine, isRunning exactly while one lives, a client exactly when the configuration has a URL, and then a goroutine to use it |
| WriterLifecycle.FailedUpdateChangesNothing | internal/metrics/remote_write.go:147-152 | a configuration that cannot be applied changes no field and is tried again when sent again |
| WriterLifecycle.UpdateAppliesExactlyWhen | internal/metrics/remote_write.go:171-185 | a changed configuration with a URL is taken if and only if its timeout and request size are not zero and no call failed |
| WriterLifecycle.NextCallUsesCurrentConfiguration | internal/metrics/remote_write.go:255-276 | after a finished call the goroutine uses the configuration as it is then for the next one, or ends |
| WriterLifecycle.DisabledWriterStops | internal/metrics/remote_write.go:255-273 | after the feature is switched off the next configuration read ends the goroutine |
| WriterLifecycle.Control.Update | internal/metrics/remote_write.go:125-164 | the method makes the specified transition and keeps the invariant |
| WriterLifecycle.Control.GetConfig | internal/metrics/remote_write.go:255-265 | the method makes the specified transition, keeps the invariant and exits exactly without a client |
| PlaybookTable.AddCounts | internal/ansible/mapping/mapping.go:95-109 | exact effect of an Add on the entries of every path, for every time: the added path gains one unless it is there under that time, the path that was there under that time loses one |
| PlaybookTable.AddKeepsValidExactlyWhen | internal/ansible/mapping/mapping.go:105-106 | the two maps stay in agreement if and only if the time is not zero and was not the recorded time of another path |
| PlaybookTable.RemoveCounts | internal/ansible/mapping/mapping.go:111-121 | a removal drops at most one entry, of the removed path only |
| PlaybookTable.EqualTimesLoseAnEntry | internal/ansible/mapping/mapping.go:95-109 | for every table, two Adds with equal times leave the first path without the entry it had gained, and the maps in disagreement |
| PlaybookTable.ReloadKeepsEntries | internal/ansible/mapping/mapping.go:44-71 | the file reloads to all entries in whatever order they are listed, and every path gets one of its times |
| PlaybookTable.WalkCounts | internal/ansible/mapping/mapping.go:73-87 | an enumeration by time meets each path as often as it has entries |
| PlaybookTable.Repository.constructor | internal/ansible/mapping/mapping.go:44-71 | the loop over the file builds the loaded table |
| PlaybookTable.Repository.Persist | internal/ansible/mapping/mapping.go:172-187 | the file lists every entry exactly once, or is left alone on failure |
| PlaybookTable.Repository.Add | internal/ansible/mapping/mapping.go:95-109 | memory and file after each way the call can end |
| PlaybookTable.Repository.Remove | internal/ansible/mapping/mapping.go:111-121 | memory and file after each way the call can end |
| PlaybookTable.Repository.Exists | internal/ansible/mapping/mapping.go:151-157 | true exactly for stored times |
| PlaybookTable.Repository.GetAll | internal/ansible/mapping/mapping.go:73-87 | all paths, as often as stored, at 0..n-1 in strictly increasing time |
| PendingPlaybooks.PassCounts | internal/ansible/ansible_manager.go:214-246 | however often a pass runs a path, that path loses at most one entry |
| PendingPlaybooks.EachPlaybookRunsOnce | internal/ansible/ansible_manager.go:214-246 | on a one-to-one table no playbook is run twice, in any walk order, and exactly those without parsed results stay |
| PendingPlaybooks.FullPassEmptiesTable | internal/ansible/ansible_manager.go:214-246 | a full pass empties the table if and only if it was one-to-one |
| PendingPlaybooks.PassStopsAtFirstFailure | internal/ansible/ansible_manager.go:214-246 | a pass gets exactly as far as the first run whose file or results could not be read |
| PendingPlaybooks.ExecutePending | internal/ansible/ansible_manager.go:214-246 | the loop refines the specified pass, on table and file, and reports failures only after a full pass |
| PlaybookProtocol.PassDisk | internal/ansible/ansible_manager.go:352-388 | the file keeps as many entries of a path as the table, less the one a pass settles, even with failing writes |
| PlaybookProtocol.StepKeepsInv | internal/ansible/ansible_manager.go:288-347 | every step of handlers, executors, timeouts, crashes and passes keeps the counting and protocol invariant |
| PlaybookProtocol.RunKeepsInv | internal/ansible/ansible_manager.go:153-190 | so does every run |
| PlaybookProtocol.StartedPlaybooksAreKept | internal/ansible/ansible_manager.go:304-346 | per content, entries on disk and in memory are at least the executors between Add and Remove plus those that crashed there |
| PlaybookProtocol.CrashRecoversUnfinishedPlaybook | internal/ansible/mapping/mapping.go:44-71 | after a crash at any moment a stored, unfinished playbook is in the reloaded table |
| PlaybookProtocol.HandlerContract | internal/ansible/ansible_manager.go:153-190 | results posted at most once, wg.Done exactly once at the end, no receive from a closed channel, completion after posting means the Remove was executed |
| PlaybookProtocol.ResultsReachHandlerExactlyWhen | internal/ansible/ansible_manager.go:304-346 | results are posted and a playbook is removed only if its time was not in the table, its file was read, it was stored and its results were parsed; a handler that completes has posted exactly in that case |
| PlaybookProtocol.ParsedResultsArePosted | internal/ansible/ansible_manager.go:336-346 | an executor with parsed results whose handler has not timed out can end, with the results posted once, the playbook removed and the handler completed |
| PlaybookProtocol.RemoveTakesOneEntry | internal/ansible/mapping/mapping.go:111-121 | the Remove of an executor takes one entry of its path, if the path has a recorded time, and no other; the file follows unless writing it failed |
| PlaybookProtocol.AddStoresOneEntry | internal/ansible/mapping/mapping.go:95-109 | the Add of an executor puts its path under its time and leaves all others, in memory and on disk by which write failed, and the playbook runs exactly when both succeeded |
| PlaybookProtocol.CrashOwes | internal/ansible/mapping/mapping.go:44-71 | a crash leaves owed exactly what was owed and what was unsettled |
| PlaybookProtocol.PassSettles | internal/ansible/ansible_manager.go:214-246 | a pass settles one owed run for each time it has run the path |
| PlaybookProtocol.StuckForGood | internal/ansible/ansible_manager.go:288-347 | an executor that waits to send to a handler that has timed out has no step left and stays so in every run without a crash |
| PlaybookProtocol.ExecutorEndsExactlyWhen | internal/ansible/ansible_manager.go:153-190 | in every reachable state some run without a crash ends an executor if and only if its handler has not timed out, before or after posting |
| PlaybookProtocol.TimedOutExecutorStaysPending | internal/ansible/ansible_manager.go:153-190 | a stored playbook whose handler timed out before its results were handed over stays pending in memory and on disk in every run without a crash |
| WorkloadTable.RemoveKeepsInverse | internal/workload/mapping/mapping.go:73-82 | a removal keeps the two maps inverse and forgets exactly that name and its id |
| WorkloadTable.AddKeepsInverse | internal/workload/mapping/mapping.go:63-71 | an Add keeps them inverse if and only if neither name nor id is tied to something else |
| WorkloadTable.ReloadGivesSameTable | internal/workload/mapping/mapping.go:36-61 | the persisted list reloads, in any order, to the same two maps |
| WorkloadTable.Repository.constructor | internal/workload/mapping/mapping.go:36-61 | the loop over the file builds the loaded table |
| WorkloadTable.Repository.Persist | internal/workload/mapping/mapping.go:125-139 | the file lists each entry exactly once, or is left alone on failure |
| WorkloadTable.Repository.Add | internal/workload/mapping/mapping.go:63-71 | both maps and the file after each outcome |
| WorkloadTable.Repository.Remove | internal/workload/mapping/mapping.go:73-82 | both maps and the file after each outcome |
| WorkloadDevice.GetHostPorts | internal/workload/wrapper.go:350-362 | all ports in container order, or nothing if any one is outside 1..65535 |
| DeviceLaws.HostPortsExactlyWhen | internal/workload/wrapper.go:350-362 | there are host ports if and only if every port of every container is between 1 and 65535, and then they are all of them |
| DeviceLaws.FlattenAt | internal/workload/wrapper.go:352-355 | each port stands behind those of the containers before and those before it in its own |
| DeviceLaws.RulesUpToFailure | internal/workload/wrapper.go:307-313 | rules are added one after the other up to the first that fails |
| DeviceLaws.RunCreatesService | internal/workload/wrapper.go:239-252 | a Run that reports success has its service listed, in the file, with units, created by this process |
| DeviceLaws.RemoveRemovesService | internal/workload/wrapper.go:257-277 | a Remove that reports success has its service unlisted and without units, and the file tells so unless it could not be written |
| DeviceLaws.ListedNameIs | internal/workload/wrapper.go:148-160 | a pod in the table is listed under its workload name, any other under its own |
| DeviceLaws.RestartedFrame | internal/workload/wrapper.go:317-328 | Start changes the chain of its workload only and succeeds only for a known one |
| DeviceLaws.RemovalOutcomes | internal/workload/wrapper.go:166-187 | a Remove changes pods, table and chain if and only if its service and podman's part go well, and succeeds if and only if the table file is written too |
| DeviceLaws.PodsLeftAre | internal/workload/wrapper.go:167-170 | exactly the pod of the recorded id goes, or each pod of that name when there is none |
| DeviceLaws.LaunchOutcomes | internal/workload/wrapper.go:225-255 | a failing podman leaves everything, a failing table write leaves the file, and after both success is exactly that each service call succeeds |
| DeviceLaws.ServiceOutcomes | internal/workload/wrapper.go:239-252 | what is installed, listed and in the file after each failing call, and success if and only if none fails |
| DeviceLaws.NetworkOutcomes | internal/workload/wrapper.go:293-315 | an illegal port fails and no port succeeds without touching anything; otherwise the chain is there unless it could not be made |
| WorkloadDevice.NetworkedFrame | internal/workload/wrapper.go:293-315 | only the chain of that workload changes, and none when a port is illegal |
| WorkloadDevice.RemovalFrame | internal/workload/wrapper.go:166-187 | what a Remove changes for every place it can fail: units deleted before systemd is told, the ignored failure to write the services file, the death of the process on a service without connection |
| WorkloadDevice.LaunchFrame | internal/workload/wrapper.go:225-255 | what a Run changes for every place it can fail |
| WorkloadDevice.RemovalKeepsTables | internal/workload/wrapper.go:166-187 | a Remove keeps memory and file one-to-one; after success the name is free |
| WorkloadDevice.LaunchKeepsTables | internal/workload/wrapper.go:225-237 | a Run with a free name keeps them one-to-one |
| Reconcile.PodLabelsIdempotent | internal/workload/manager.go:481-498 | labelling a message that was already labelled in place gives the same manifest |
| ConfiguredPods.LabelsAre | internal/workload/manager.go:481-498 | a pod has the labels of its workload, the path of its credentials exactly when it has some, and its unit exactly when it has credentials or a label contains "io.containers.autoupdate" |
| ConfiguredPods.SameDirExactlyWhen | internal/workload/manager.go:262-264 | two names have one directory if and only if they differ in spaces and dashes only |
| ConfiguredPods.UnmodifiedTellsConfiguration | internal/workload/manager.go:503-524 | two configurations of one workload with different specification, configmaps or credentials are never both taken as unmodified |
| Reconcile.StoringOutcomes | internal/workload/manager.go:165-177 | nothing is stored, the manifest with the old credentials, or both |
| Reconcile.ReplacingOutcomes | internal/workload/manager.go:165-189 | the files stay as storing left them whatever comes after, and when storing fails nothing else has changed |
| Reconcile.EnsuringOutcomes | internal/workload/manager.go:227-236 | ensuring a directory succeeds exactly when it is there afterwards, and makes at most that one, empty |
| Reconcile.DropOutcomes | internal/workload/manager.go:207-218 | dropping goes on when the directory cannot be deleted, and reports it |
| Reconcile.DeployConverges | internal/workload/manager.go:131-198 | an error-free turn leaves this workload running as configured, the others untouched, the device consistent |
| Reconcile.DropConverges | internal/workload/manager.go:207-218 | an error-free drop removes exactly that workload and keeps the device consistent |
| Reconcile.ReconcileConverges | internal/workload/manager.go:130-221 | from a consistent device an error-free update ends with exactly the configured workloads, each running the manifest and credentials on disk |
| Reconcile.SecondUpdateIsQuiet | internal/workload/manager.go:161-164 | a second update issues no Remove and no Run, whatever fails in it |
| UpdateOutcome.UpdateRunsExactlyWhen | internal/workload/manager.go:116-221 | an Update that reports no error leaves a configured workload, whose directory no other configured one has, running as configured if and only if its stored files differed or it already ran so, on every device whose pods are known under their own names |
| UpdateOutcome.UpdateKeepsSane | internal/workload/manager.go:116-221 | every Update with any failures keeps every pod known under exactly one name, its own |
| UpdateOutcome.SaneInEveryRun | internal/workload/manager.go:116-221 | so does every run of updates and restarts in which no table write was lost before a restart |
| SecondUpdates.SecondUpdateIsQuietExactlyWhen | internal/workload/manager.go:262-264 | after an error-free update a second fault-free one calls neither Remove nor Run if and only if configured workloads have different directories and share none with something that runs and is not configured |
| SecondUpdates.SharedWithStaleIsLost | internal/workload/manager.go:207-213 | dropping a workload deletes the files of a configured one that shares its directory |
| FailedCalls.RunsExactlyWhenStarted | internal/workload/wrapper.go:225-237 | whatever Run reports, the workload runs afterwards if and only if the firewall was set up and podman started the pod |
| FailedCalls.FailedRunIsNotRepeated | internal/workload/manager.go:161-198 | after a Run that failed, the next turn for the same workload does nothing and reports no error, in every environment; it then runs if and only if podman had started it |
| FailedCalls.MissingStaysMissing | internal/workload/manager.go:116-221 | a configured workload whose files are stored and that is not deployed stays away through every Update with that configuration |
| FailedCalls.UpdateReportsNothing | internal/workload/manager.go:116-221 | an Update in which nothing fails reports no error and changes no pod when all files are as configured, whether or not the workloads run |
| SecondUpdates.FailedRunGoesUnnoticed | internal/workload/manager.go:116-221 | for every configuration: an Update whose only error is a Run that failed before the pod started leaves that workload away, and the next fault-free Update reports no error and leaves it away too |
| FailedCalls.SecretsSucceed | internal/workload/manager.go:526-550 | without faults and with distinct names, updating the secrets reports no error |
| ReloadedServices.RemovalWorksExactlyWhen | internal/service/systemd.go:62-79 | Remove lets the process die exactly on a service read from the file; a fault-free one succeeds if and only if the service is not listed, or was created by this process and has its units; otherwise none ever does |
| StuckServices.FailedReloadBlocksRemoval | internal/service/systemd.go:169-178 | a Remove that fails after some units were deleted, on a later one or on telling systemd, is followed by failures only: after any sequence of updates in this process every Remove of that workload fails and its pods stay |
| ReloadedServices.UpdateDiesExactlyWhen | internal/workload/wrapper.go:257-277 | a fault-free Update lets the process die if and only if it has to replace or drop a workload whose service was read from the file |
| StuckServices.UpdateLeavesStuckPod | internal/workload/manager.go:116-221 | no Update, whatever is configured and whatever fails, removes, replaces or adds a pod of a workload whose service is listed without connection or without its units |
| StuckServices.StuckInProcess | internal/workload/manager.go:116-221 | over every sequence of updates in one process such a service stays so and every Remove of it fails |
| StuckServices.StuckIsNeverReplaced | internal/workload/manager.go:116-221 | over every run of updates and restarts, lost table writes included: once such a service is in the services file, the pods of its workload never change again |
| LostChanges.OldConfigurationDiesToo | internal/configuration/configuration.go:136-153 | a process that dies while deploying a new configuration has not stored it; the next one, given the old configuration first, finds the new files and dies again if nothing else fails |
| LostChanges.DeathsAreBounded | internal/workload/manager.go:116-221 | processes that die in turn while deploying one configuration, whatever else fails, are at most as many as workloads did not have their files |
| LostChanges.ChangeTakesTwoDeaths | internal/configuration/configuration.go:79-87 | one changed workload: the process dies on the new configuration, the next on the old one, the third lives with the old files; the pods are the old ones all the time |
| LostChanges.ChangeIsLost | internal/workload/manager.go:161-184 | if the new message comes again before the old one was applied, the turns for that workload do nothing |
| Reconcile.DeployWorksExactlyWhen | internal/workload/manager.go:161-198 | an error-free turn leaves the workload running as configured if and only if its files differed or it already ran so |
| DeviceSecrets.SecretsConverge | internal/workload/manager.go:526-550 | an error-free secret update leaves exactly the configured names, each with its data |
| DeviceSecrets.SecretOutcomes | internal/workload/podman/podman.go:298-312 | each call touches its own secret only; a secret that was removed and could not be created again is lost |
| DeviceSecrets.UpdateTouchesOnlySecrets | internal/workload/manager.go:526-550 | nothing but secrets changes |
| Firewall.RulesFollowChain | internal/workload/wrapper.go:299-313 | a call that reports success has put one rule per port, in container order, behind the rules that were there |
| Firewall.IllegalPortAddsNoRule | internal/workload/wrapper.go:293-298 | one illegal port: no rule, no pod, an error |
| Firewall.CallKeepsChainsExactlyWhen | internal/workload/wrapper.go:166-328 | a Remove, a Remove-then-Run or a Start without error keeps exact chains exact if and only if it did not fail to delete a chain it found |
| Firewall.ChainsFollowWorkloads | internal/workload/wrapper.go:166-328 | over every error-free sequence of these calls the chains are exactly those of the deployed workloads if and only if for every name the last call on it did not fail to delete a chain it found |
| Firewall.SwallowedFailureKeepsOldRules | internal/workload/wrapper.go:180-182 | a redeployment whose DeleteChain failed reports success and leaves the old rules in front of the new ones |
| Firewall.RuleIsDoubled | internal/workload/wrapper.go:180-182 | a concrete device on which that leaves port 80 opened twice |
| WorkloadManagement.UpdateConverges | internal/workload/manager.go:116-221 | the whole update converges on workloads and secrets, stays consistent, and a second one is quiet |
| ConfiguredPods.UpdateRunsWhatIsConfigured | internal/workload/manager.go:116-221 | from a consistent device an error-free Update leaves every configured workload running, and stored, with its name, specification, configmaps, labels and credentials |
| WorkloadManagement.UpdateKeepsTables | internal/workload/manager.go:179-198 | any update with any failures keeps both tables one-to-one, because Run only follows a successful Remove |
| WorkloadManagement.RestartKeepsTables | internal/workload/mapping/mapping.go:36-61 | a restart reloads exactly the saved table |
| WorkloadManagement.TablesStayInverse | internal/workload/wrapper.go:148-237 | over all runs with any failures and restarts the tables stay inverse and List shows mapped pods under their workload names |
| WorkloadManagement.WorkloadManager.Remove | internal/workload/wrapper.go:166-187 | the method makes the specified change for every fault |
| WorkloadManagement.WorkloadManager.RemoveService | internal/workload/wrapper.go:257-277 | an unlisted service is passed over, one read from the file ends the process, missing units and a failing reload are errors, a failed write of the file is not |
| WorkloadManagement.WorkloadManager.CreateService | internal/workload/wrapper.go:239-252 | generate, add, enable, start and list, each of which may fail |
| WorkloadManagement.WorkloadManager.ApplyNetwork | internal/workload/wrapper.go:293-315 | the rule loop makes the specified change for every fault |
| WorkloadManagement.WorkloadManager.Run | internal/workload/wrapper.go:225-255 | the method makes the specified change for every fault |
| WorkloadManagement.WorkloadManager.DeployOne | internal/workload/manager.go:131-198 | one turn of the loop, for every fault |
| WorkloadManagement.WorkloadManager.UpdateSecrets | internal/workload/manager.go:526-550 | both loops make the specified change and count the errors |
| WorkloadManagement.WorkloadManager.DropOne | internal/workload/manager.go:207-218 | the directory goes first, then the Remove, each error counted |
| WorkloadManagement.WorkloadManager.Update | internal/workload/manager.go:116-221 | the whole method refines the specified update, keeps the tables inverse, stops where the process dies and does nothing after deregistration |
| TaskEvents.SuffixedInjective | internal/ansible/dispatcher/dispatcher_events.go:262-264 | for all ids, the renamed id determines id and number |
| TaskEvents.ItoaIsDecimal | internal/ansible/dispatcher/dispatcher_events.go:263-263 | the number of a suffix is written in decimal digits |
| TaskEvents.StreamShape | internal/ansible/dispatcher/dispatcher_events.go:53-108 | event k has counter k+1; two events per play and two per task and host; blocks of play start, (task start, runner event)*, stats, each runner event under the uuid of its task start |
| TaskEvents.CounterIsEvenAtEachPlay | internal/ansible/dispatcher/dispatcher_events.go:58-68 | at the loop head the counter is even, so the guard `msgCounter == 1` never holds and the first event of a play is its play start |
| TaskEvents.HostOrderDoesNotMatter | internal/ansible/dispatcher/dispatcher_events.go:71-102 | uuids, parents and counters do not depend on the order in which hosts are walked |
| TaskUuids.OccurrencesFindRepeats | internal/ansible/dispatcher/dispatcher_events.go:340-346 | countOccurence finds exactly the ids that several tasks have |
| TaskUuids.StartEventOf | internal/ansible/dispatcher/dispatcher_events.go:71-101 | for every result, where in the stream each host of each task is started, under which uuid, and that the event behind it says failed, else skipped, else ok, as the host does |
| TaskUuids.HostsShareUuidExactlyWhen | internal/ansible/dispatcher/dispatcher_events.go:72-84 | all hosts of a task are started under one uuid if and only if it has but one host, or is not renamed, or its new name is no repeated id |
| TaskUuids.DataShowsUuidExactlyWhen | internal/ansible/dispatcher/dispatcher_events.go:155-167 | the task uuid in the data blocks of runner events, a pointer into the item, ends up as the uuid of the event for all hosts of a task if and only if they share one uuid |
| EventTransformer.ItemsEndWithFinalIds | internal/ansible/dispatcher/dispatcher_events.go:262-264 | the id an item is left with is that of its last host |
| TaskUuids.TaskHasItsUuid | internal/ansible/dispatcher/dispatcher_events.go:242-288 | closed form in a clear play: every host of a task is started under its id, or under its id with its rank as suffix |
| TaskUuids.CountedAcrossPlays | internal/ansible/dispatcher/dispatcher_events.go:57-58 | the rank goes on counting from the renamed tasks of that id in all earlier plays, for ids without underscore always and for all ids after clear plays |
| TaskUuids.TellsApartExactlyWhenClear | internal/ansible/dispatcher/dispatcher_events.go:253-267 | for any starting counters, two start events of a play share a uuid exactly when they belong to one task if and only if no new name is taken by an unrenamed task, nor is a repeated id unless its task has one host |
| TaskUuids.UuidIdentifiesTaskExactlyWhen | internal/ansible/dispatcher/dispatcher_events.go:53-108 | the same for every play of the stream, under the counters that the earlier plays left |
| TaskUuids.PlainIsClear | internal/ansible/dispatcher/dispatcher_events.go:253-267 | ids without underscore meet that condition, whatever the counters |
| TaskUuids.UnderscoreMakesUuidsClash | internal/ansible/dispatcher/dispatcher_events.go:262-264 | with underscores two tasks can get one uuid |
| EventTransformer.CountOccurrences | internal/ansible/dispatcher/dispatcher_events.go:340-346 | the loop computes the occurrence counts |
| EventTransformer.AnsibleDispatcher.PlaybookOnTaskStart | internal/ansible/dispatcher/dispatcher_events.go:242-288 | the item is renamed in place exactly when its id is repeated; the event carries the new id |
| EventTransformer.AnsibleDispatcher.HostEvents | internal/ansible/dispatcher/dispatcher_events.go:72-101 | the host loop with the in-place renaming gives the events, id and counts of the value model |
| EventTransformer.AnsibleDispatcher.TaskTurn | internal/ansible/dispatcher/dispatcher_events.go:71-101 | one task gives its events and renames its own item only |
| EventTransformer.AnsibleDispatcher.TaskEventsOf | internal/ansible/dispatcher/dispatcher_events.go:71-102 | the task loop on distinct items gives the events and final ids of the value model |
| EventTransformer.AnsibleDispatcher.PlayEvents | internal/ansible/dispatcher/dispatcher_events.go:66-105 | one play gives its block and touches no item of another play |
| EventTransformer.AnsibleDispatcher.Transform | internal/ansible/dispatcher/dispatcher_events.go:53-108 | the whole transformer gives the stream of the value model |
| EventTransformer.AnsibleDispatcher.AddEvent | internal/ansible/dispatcher/dispatcher_events.go:38-42 | the stream is appended to the stored list |
| LogBuffer.WriteKeepsSound | internal/logs/log_container.go:66-81 | accepted if and only if the queued total is within the limit; the size field stays the sum, and all but the last entry within the limit |
| LogBuffer.ReadKeepsSound | internal/logs/log_container.go:84-94 | gives the oldest entry, or nothing if and only if every queued entry is empty; never indexes an empty list |
| LogBuffer.SoftLimit | internal/logs/log_container.go:73-77 | the limit is passed by at most the last entry |
| LogBuffer.FIFOLog.CurrentSize | internal/logs/log_container.go:59-63 | the sum of the queued sizes |
| LogBuffer.FIFOLog.Write | internal/logs/log_container.go:66-81 | the method makes the specified change and keeps the buffer sound |
| LogBuffer.FIFOLog.ReadLine | internal/logs/log_container.go:84-94 | the method makes the specified change and keeps the buffer sound |
| LogTransport.StepKeepsInv | internal/logs/workload.go:19-47 | every step of a writer or of the loop keeps the buffer sound and every accepted entry accounted for |
| LogTransport.EveryAcceptedEntryIsAccounted | internal/logs/workload.go:19-47 | over every run accepted entries split exactly into delivered, queued, in hand and dropped on a refused requeue; the size is the sum and the soft limit holds |
| LogTransport.DeliveredInOrder | internal/logs/workload.go:28-35 | while no send fails, entries are delivered in the order accepted and none is dropped |
| LogTransport.FailedSendIsRequeued | internal/logs/workload.go:35-42 | an entry whose send failed goes to the end of the queue if the queue is within its limit, and is dropped otherwise |
| LogTransport.EndedForGood | internal/logs/workload.go:24-26 | once the loop has ended nothing is delivered or dropped |
| LogTransport.CancelStopsDelivery | internal/logs/workload.go:22-28 | a loop cancelled between two turns delivers and drops nothing any more |
| LogTransport.LoopDrains | internal/logs/workload.go:28-35 | left alone, the loop delivers up to the last entry with bytes and leaves exactly the empty ones behind it |
| LogTransport.TransportLog.Turn | internal/logs/workload.go:28-43 | one turn: read, send, requeue on failure, drop on a refused requeue |
| LogTransport.TransportLog.Loop | internal/logs/workload.go:19-47 | the loop until it is cancelled is the sequence of those turns |
| LogTargets.UpdateDropsWriters | internal/logs/workload.go:154-162 | an Update drops exactly the writers whose target is not set up again and keeps live writers equal to registered ones |
| LogTargets.UpdateReplacesTransports | internal/logs/workload.go:130-153 | the transports are exactly the syslog collections that could be set up, all on new buffers |
| LogTargets.StartedKeepsInv | internal/logs/workload.go:178-201 | starting a workload keeps targets known and live writers registered |
| LogTargets.WritersMatchTransports | internal/logs/workload.go:88-201 | over every sequence of calls each registered writer's target is in the table, and the writers created and never stopped are exactly those registered |
| LogTargets.LoopsAreNeverStopped | internal/logs/workload.go:130-162 | over every sequence of calls the loops that run are those of all transports ever set up; as many as were replaced or deleted serve no current transport |
| LogTargets.CurrentExactlySinceUpdate | internal/logs/workload.go:130-201 | a registered writer feeds a current transport if and only if its workload was started since the last Update |
| LogTargets.CollectionOfIs | internal/logs/workload.go:164-170 | the table has a workload if and only if it names a log collection, and then the one it names last |
| LogTargets.StartedWriterExactlyWhen | internal/logs/workload.go:178-201 | right after a workload was started it has a writer with a target, on its current buffer, if and only if the last Update gave it that log collection and the collection could be set up |
| LogTargets.WorkloadsLogsTarget.DeleteTargetTransport | internal/logs/workload.go:88-99 | the transport and exactly its writers go, each stopped |
| LogTargets.WorkloadsLogsTarget.DeleteWorkload | internal/logs/workload.go:101-107 | the writer of that workload is stopped and goes |
| LogTargets.WorkloadsLogsTarget.GetCurrentTransports | internal/logs/workload.go:72-78 | every transport name once |
| LogTargets.WorkloadsLogsTarget.StartTransports | internal/logs/workload.go:132-153 | the transports are those that could be set up, each on a new buffer with its loop started |
| LogTargets.WorkloadsLogsTarget.DeleteOldTransports | internal/logs/workload.go:154-160 | exactly the transports that are not set up again are deleted |
| LogTargets.CollectionOfWorkloads | internal/logs/workload.go:164-170 | the log collection of each workload that names one |
| LogTargets.WorkloadsLogsTarget.Update | internal/logs/workload.go:130-172 | the whole method makes the specified change |
| LogTargets.WorkloadsLogsTarget.WorkloadStarted | internal/logs/workload.go:178-201 | the method makes the specified change |
| LogTargets.WorkloadsLogsTarget.WorkloadRemoved | internal/logs/workload.go:174-176 | the method makes the specified change |
| LogTargets.WorkloadsLogsTarget.Init | internal/logs/workload.go:109-128 | an Init is an Update followed by a start of each listed workload |
| SecretLists.IsEqualUnordered | internal/configuration/configuration.go:188-204 | the two loops answer whether every secret of y is found under its name in x, lengths being equal |
| SecretLists.FindsExactlyWhen | internal/configuration/configuration.go:193-201 | a secret of y is found if and only if it is in x with none of its name behind it |
| SecretLists.Pigeonhole | internal/configuration/configuration.go:197-203 | as many differently named secrets as the list is long, all in the list, are the whole list |
| SecretLists.MatchesIsPermutation | internal/configuration/configuration.go:188-204 | with distinct names in y the answer is true if and only if x is a permutation of y |
| SecretLists.MatchesIsSymmetric | internal/configuration/configuration.go:188-204 | on lists with distinct names the comparison is symmetric |
| SecretLists.ExactForDistinctNames | internal/configuration/configuration.go:188-204 | the answer is equality up to order for every x if and only if the names in y are distinct |
| SecretLists.RepeatedNameBreaksSymmetry | internal/configuration/configuration.go:193-203 | a concrete pair on which the order of the arguments matters |
| ConfigurationManager.SkippedExactlyWhenSame | internal/configuration/configuration.go:113-132 | with distinct stored names, skipped if and only if the message is the stored one up to secret order, device id and version |
| ConfigurationManager.NewVersionAloneIsIgnored | internal/configuration/configuration.go:115-132 | a new version or device id alone changes nothing anywhere |
| ConfigurationManager.ResentIsSkippedExactlyWhen | internal/configuration/configuration.go:113-158 | a stored message sent again is skipped if and only if the workload manager had no label to write into it |
| ConfigurationManager.StoredIsLabelled | internal/workload/manager.go:466-498 | what was stored needs no more labelling |
| ConfigurationManager.FileFollowsMemoryExactlyWhen | internal/configuration/configuration.go:113-162 | after every run file and memory agree if and only if the last file write that had an effect was good; a restart then loses nothing |
| ConfigurationManager.ObserversFollowMemoryExactlyWhen | internal/configuration/configuration.go:136-159 | after every run each observer's last message is the one in memory if and only if the last Update that was not skipped was stored, or had no observer to tell, or told what was in memory |
| ConfigurationManager.ObserversKeepRejectedMessage | internal/configuration/configuration.go:136-154 | a message that was not stored stays with the observers, and returning to the stored one is skipped |
| ConfigurationManager.Manager.constructor | internal/configuration/configuration.go:48-73 | the state read from the file; file and memory agree if and only if the file held a message |
| ConfigurationManager.FirstUpdateIsForced | internal/configuration/configuration.go:122-132 | without a file no message is skipped until one was stored; with a file, damaged or not, the message in memory is |
| ConfigurationManager.ErrorsAre | internal/configuration/configuration.go:135-154 | a skipped call reports nothing, a failed write only itself, else exactly the observers that failed and an encoding failure |
| ConfigurationManager.FailedObserversAre | internal/configuration/configuration.go:136-141 | the failed observers are reported, each once, in their order |
| ConfigurationManager.Manager.RegisterObserver | internal/configuration/configuration.go:79-87 | a new observer is given what is in memory |
| ConfigurationManager.Manager.Update | internal/configuration/configuration.go:113-162 | state and errors for every outcome; a failed write replaces the observers' errors |
| ConfigurationManager.Manager.NotifyObservers | internal/configuration/configuration.go:135-141 | every observer is given the message, in spite of errors, and the failing ones are reported in order |
| ConfigurationManager.DeregisterIsForNextProcess | internal/configuration/configuration.go:178-186 | Deregister changes nothing for this process; the next one starts from the default message and takes any |
| ConfigurationManager.Manager.Deregister | internal/configuration/configuration.go:178-186 | the file goes, memory stays |

## Left out

- RequestSending.WriteRange: takes the encoding of its requests to succeed, and asks for a request size above 0; the code rejects 0 only and slices out of range on a negative size. Snappy, protobuf and the HTTP client are one reply per attempt.
- Delivery.EverySampleBehindCursorIsSettled: speaks of samples after 1970 and of store readings whose nanosecond count fits in int64, because UnixNano wraps around outside.
- ArrivalOrder.FirstArrivalsAreInOrder: speaks of samples after 1970 and newer than the cursor the process started with, of final replies (accepted or refused for good), and of a store that adds nothing behind what an earlier look had seen; RunInOrderExactlyWhen says what happens otherwise.
- FixedStore.EachSeriesArrivesInOrder: assumes that the store does not use the device label itself and that readings are aligned to milliseconds.
- PlaybookProtocol.StartedPlaybooksAreKept: assumes distinct non-zero modification times within a process and an injective hash, with a path standing for its content; EqualTimesLoseAnEntry shows why.
- Reconcile.ReconcileConverges: assumes names that stay distinct after spaces become dashes; SecondUpdateIsQuietExactlyWhen says what happens otherwise.
- A mapping file that is not readable JSON, which makes the process give up at its start.
- A failing stat or read of an existing file is not modelled; a file is there with its content or is not there.
- TaskEvents.StreamShape: the host list string, times, names and output text of events, their data blocks (but for the task uuid, see DataShowsUuidExactlyWhen), and the per-host numbers of the stats event, are not part of the model.
- EventTransformer.AnsibleDispatcher.Transform: asks for task items that are distinct objects, as decoding gives them.
- LogTargets.WorkloadsLogsTarget.WorkloadStarted: a writer counts as created and registered whether or not following the pod's log could be started, as in the code; the log stream itself is left out, and so is the lack of a lock around the tables.
- ConfigurationManager.Manager.RegisterObserver: the labels that the workload manager writes into the stored message when it is registered are not modelled; by StoredIsLabelled a message that was stored after it had been registered has them already.
- ConfigurationManager.FileFollowsMemoryExactlyWhen: a message in the file reads back as the message that was written; the JSON of an empty and of an absent list is not distinguished there.
- WriterLifecycle.OneWriterInEveryRun: the server CA files that applyConfig creates and removes are left out.
- Deregistration of the workload manager (only the flag it sets matters to Update), volumes, and the queue of events for the heartbeat.
- The validation of a playbook message before the select loop, and the posting of events over HTTP.
- The metrics database, label order in encoded series, and the metrics daemon.
- Heartbeat, hardware, registration, certificates, data transfer, operating system upgrade, allow lists: they would add easy members.

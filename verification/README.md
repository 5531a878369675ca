# Tekton Pipelines: verified core

Tekton runs the steps of a task as the containers of one pod. The kubelet starts them all together; an entrypoint
binary in each container waits for the previous step's post file, runs the step's command and posts a file of its own.
Around this protocol stand the code that prints the entrypoints' command lines, the sidecar that reads the results, the
termination message file, the controller that derives a verdict and retries, and the substitution, workspace and
resource arithmetic that shapes the pod. This project models those parts and proves what they promise.

Five results join several parts:

- `PodOrder.PodCommandsRunInOrder` and `PodOrder.OrderIff`: the argument lists that are printed, decoded again and run
  as processes that see files through their containers' mounts run their commands one at a time and in order, exactly if
  no mount is in the way of a post file that is waited for.
- `Retries.RunKeepsSound`: over every run of the reconciler, with readings any amount behind, stored or lost, pods going
  away and cancellation, a stored failure is owed no retry, and at most one pod per attempt is there at a time.
- `AttemptPods.RunIsProperIff` and `PodClash.SharingIff`: a run keeps the pods of its attempts apart and in order
  exactly if no stored pass takes over a later attempt's pod, and at any time attempts can still come to share a pod
  exactly if the pods made so far are out of order.
- `RunReports.SuccessIsStored` and `Cancellation.CancelledPassEnds`: a stored pass that finds the pod over without a
  failure leaves a success with all the pod's results, and one that sees a cancellation ends the TaskRun.
- `TerminationParse.MessageHoldsAccepted`: what a step writes in batches is what the controller parses, byte for byte.

Where the code does not keep a promise on all inputs, there is a lemma that shows it, and the exact condition under
which the code does keep it:

| promise | shown to fail by | exact condition |
|---|---|---|
| a cancelled TaskRun ends for good | `StaleStoreRevives` | `CancelledForGood`, `KeepsDoneIff` |
| a success is final | `SuccessTakenBack` | `DoneStays`, `SuccessIsFinal` |
| results are final when the sidecar returns | `StatFaultBreaksFinality` | `FinalIffDormant` |
| commands run in order and one at a time | `TwoCommandsAtOnce` | `OrderIff` |
| only step w writes its post files | `WorkspaceTakesPostFile` | `SingleWriterIff` |
| the archive of attempts only grows | `StaleStoreLosesOrder` | `StoringKeepsArchiveIff` |
| attempts have their own pods | `StaleStoreLosesOrder` | `PassKeepsProperIff`, `RunIsProperIff`, `ClashFreeIff`, `SharingIff` |
| the termination file has no stale tail | `InvalidBytesSpoilTheLog` | `AppendIff`, `AppendLogIff` |
| printed command lines read back | `BareCommandRefused` | `DecodedIff` |
| one-pass replacement does not depend on map order | `AmbiguityShows` | `OrderFreeIff` with `BeginsRefIff`, `ArrayOrderFreeIff` |
| step results and artifacts are replaced all at once | `ResultValueIsRescanned`, `ViolationShows` | `SequentialIff` |
| isolated workspaces reach only those that ask | `SharedClaimUndoesIsolation` | `IsolationIff`, `SidecarIsolationIff` |
| shares stay within a LimitRange default | `TinyDefaultExceeded` | `SharesWithinDefaultIff`, `TotalWithinIff` |
| references parse back | `IndexedNameMisread` | `RoundTripIff` |

One comment in the repository disagrees with the code, and the model follows the code: the comment on
`transformPodBasedOnLimitRange` says that existing requests are raised to the minimum and that limits are set; the code
does neither.

The files are flat, one per component: `Entrypoint`, `StepProtocol`, `Progress`, `Finality`, `FinalityExact` and
`Verdict` for the protocol; `Flags`, `CommandLine`, `StepArguments`, `PostPaths`, `RunVolumes`, `PodProcesses` and
`PodOrder` for the pod; `PodNames`, `StatusMerge`, `Reconciler`, `PodReports`, `PassOutcomes`, `Retries`, `RunReports`,
`Cancellation`, `StaleStore`, `AttemptPods` and `PodClash` for the controller; `JsonText`, `TerminationCodec`,
`TerminationLog` and `TerminationParse` for the termination message; `Substitution`, `SequentialReplace`,
`StepResultRefs` and `ResultRef` for references; `Workspaces`, `WorkspaceMounts`, `WorkspaceDetails` and `LimitRange`
for the pod's shape; `Text` and `Wrappers` for what they share. `dfyconfig.toml` takes in every one of them.

## Model

| member | source | states |
|---|---|---|
| `Entrypoint.ExitCodeAgreesWithPostFile` | upstream/cmd/entrypoint/main.go:161-203 | For every way a step can end, the container's exit code is zero exactly when the step posts plain `out`; in numbers it is the command's own status, 255 after a signal, 9 for a cancelled step, 1 for every other error, and 0 for a tolerated failure. |
| `Entrypoint.Wait` | upstream/cmd/entrypoint/waiter.go:52-88 | The first turn of the poll that decides anything decides the outcome; the awaited file is looked at before its `.err`; a pass means that the file was seen, with content where content is asked for; it polls on exactly while the file is missing or lacks content, no `.err` is there and the context lives; every error is told from what was seen. |
| `Entrypoint.Disk.Write` | upstream/pkg/entrypoint/entrypointer.go:485-488 | A write to no path changes nothing; any other sets that one file. |
| `Entrypoint.Entrypointer.constructor` | upstream/pkg/entrypoint/entrypointer.go:182-332 | The fields of an Entrypointer that the step body reads. |
| `Entrypoint.Entrypointer.WritePostFile` | upstream/pkg/entrypoint/entrypointer.go:475-482 | One file is written: `out`, or `out.err` after an error. |
| `Entrypoint.Entrypointer.Go` | upstream/pkg/entrypoint/entrypointer.go:182-332 | The command runs if and only if the directories are there, every wait passed, the timeout is not negative and the when expressions allow it; a denied step is no error. The returned error is told from the waits, the timeout, the when expressions and the command; exactly one post file is written, its suffix a function of that error; the exit code file says `0`, `killed` or the tolerated status, and is not written for other errors; the termination output names the start time, a skip, a cancellation, a timeout and the tolerated exit status. |
| `StepProtocol.GoFollowsPhases` | upstream/pkg/entrypoint/entrypointer.go:182-332 | Whatever the step body returns, it comes by way of the phases of the protocol. |
| `StepProtocol.AdvanceKeepsInv` | upstream/pkg/entrypoint/entrypointer.go:200-304 | Every move of one process keeps the invariant that ties phases to post files. |
| `StepProtocol.NextKeepsInv` | upstream/pkg/entrypoint/entrypointer.go:200-304 | So does every action of the pod: moves, writes of running commands, crashes, sidecar readiness. |
| `StepProtocol.Invariant` | upstream/pkg/pod/entrypoint.go:132-151 | The invariant holds at every time of every run, for any number of steps and any interleaving, crashes and stat faults included. |
| `StepProtocol.FilesGrow` | upstream/pkg/entrypoint/entrypointer.go:475-482 | Post files are never removed. |
| `StepProtocol.Sequencing` | upstream/cmd/entrypoint/waiter.go:52-88 | A command runs only after every earlier step has ended and posted plain `out`, and none of them posted `.err`. |
| `StepProtocol.AtMostOneCommand` | upstream/pkg/pod/entrypoint.go:132-151 | At most one step's command runs at any time. |
| `StepProtocol.CommandsWaitForSidecars` | upstream/pkg/pod/entrypoint.go:137-145 | Where the pod waits for its sidecars, no command runs before they are ready. |
| `StepProtocol.NeverStuck` | upstream/pkg/entrypoint/entrypointer.go:182-332 | A process that has neither exited nor been killed can always move, in any state. |
| `StepProtocol.FailStop` | upstream/cmd/entrypoint/waiter.go:70-75 | After `.err` of step k no later step ever runs its command or posts plain `out`. |
| `StepProtocol.OnePostFile` | upstream/pkg/entrypoint/entrypointer.go:200-304 | `out` and `out.err` of one step never both appear, at any two times of a run. |
| `StepProtocol.PostedThenExits` | upstream/cmd/entrypoint/main.go:161-203 | From the moment it has posted, a process exits with the code its error stands for, or fails over its termination message, or is killed, and nothing else, at any later time. |
| `StepProtocol.ExitTellsStatus` | upstream/cmd/entrypoint/main.go:188-197 | In every run a command that ended with a status of its own makes its process exit with exactly that status, 255 after a signal, or 0 where the step continues on errors; unless the process fails over its termination message or is killed. |
| `Progress.NoRankRises` | upstream/pkg/entrypoint/entrypointer.go:182-332 | No action raises the number of moves any process has left. |
| `Progress.MoveLowersRank` | upstream/cmd/entrypoint/waiter.go:52-88 | A process whose predecessor has posted comes closer to its exit with every move, polling moves included. |
| `Progress.LowestIsUnblocked` | upstream/pkg/pod/entrypoint.go:135-151 | The lowest process that has not exited is never blocked. |
| `Progress.EveryFairRunEnds` | upstream/pkg/entrypoint/entrypointer.go:182-332 | Every fair run without faults reaches a time after which every process has exited and every step has exactly one post file, for good. |
| `Finality.NextKeepsDormant` | upstream/internal/sidecarlogresults/sidecarlogresults.go:77-108 | Once no step is left that can run behind predecessors that can pass, no action changes that, nor any result. |
| `Finality.ObservedMeansDormant` | upstream/internal/sidecarlogresults/sidecarlogresults.go:77-108 | Without stat faults, all `out` files or any `.err` file means that no command can run again. |
| `Finality.DormantForever` | upstream/internal/sidecarlogresults/sidecarlogresults.go:77-108 | From a dormant state on, no command runs and the results stay as they are. |
| `Finality.WaitForStepsToFinish` | upstream/internal/sidecarlogresults/sidecarlogresults.go:77-108 | The sidecar's poll, against a running pod and with its map visited in any order: it returns only on all `out` or some `.err`, a full turn overlooks nothing that was there when it began, and without stat faults the results are final when it returns. |
| `FinalityExact.FinalIffDormant` | upstream/internal/sidecarlogresults/sidecarlogresults.go:77-108 | With every fault allowed: no command runs now or in any continuation if and only if the state is dormant. |
| `FinalityExact.StatFaultBreaksFinality` | upstream/cmd/entrypoint/waiter.go:61-63 | A run in which a stat fault lets the sidecar stop waiting while a command still runs. |
| `PodStatus.SortPodContainerStatuses` | upstream/pkg/pod/status.go:899-910 | In place, status i becomes that of container i; positions past the containers are left. |
| `PodStatus.SortingLosesNothing` | upstream/pkg/pod/status.go:899-910 | With distinct names every status of a listed container ends up in that container's place. |
| `Verdict.SuccessMeansEveryStepPosted` | upstream/pkg/pod/status.go:119-139 | A TaskRun is marked successful only if every step exited 0 having posted plain `out` and no `.err`. |
| `Verdict.PostedErrorMeansFailure` | upstream/pkg/pod/status.go:663-678 | A terminated step that posted `.err` makes the run count as failed. |
| `Verdict.ReportTellsStatus` | upstream/cmd/entrypoint/main.go:188-197 | The container status of such a step carries exactly that code. |
| `Verdict.CleanExitsMeanSuccess` | upstream/pkg/pod/status.go:602-616 | When all steps exited cleanly and the statuses of the steps say so, and that of the results sidecar where results come from its log, the verdict is success, though other sidecars still run. |
| `Flags.ExtractArgs` | upstream/cmd/entrypoint/args.go:19-38 | The arguments are cut at the first `--` past the first position; what precedes are flags, what follows is the command. |
| `Flags.SplitPrinted` | upstream/cmd/entrypoint/args.go:19-38 | A printed line of flags, `--`, and a tail reads back whole when no flag value is a bare `--`, and otherwise does not parse. |
| `CommandLine.OrderContainers` | upstream/pkg/pod/entrypoint.go:127-217 | Every container is rewritten in place to run under the entrypoint with the printed arguments; no steps at all, or an onError of one of the task's steps that is none of the two values, is refused. |
| `StepArguments.OrderedRunsEntrypoint` | upstream/pkg/pod/entrypoint.go:192-210 | A rewritten container keeps its name and runs `/tekton/bin/entrypoint` with the printed arguments; the accepted values of onError are the empty one, `continue` and `stopAndFail`. |
| `CommandLineRoundTrip.RoundTrip` | upstream/pkg/pod/entrypoint.go:132-207 | Decoding the printed arguments gives back command plus args exactly, a user's own `--` included, with the same wait file, post file, onError, timeout, streams, when expressions and result names, if and only if no flag value is a bare `--`; otherwise the entrypoint refuses to start. |
| `CommandLineRoundTrip.DecodedIff` | upstream/cmd/entrypoint/main.go:102-153 | The same for every step, with the platform's command in place of a missing or empty one; with none known, the entrypoint refuses. |
| `CommandLineRoundTrip.BareCommandRefused` | upstream/cmd/entrypoint/args.go:19-38 | A step whose command is a bare `--` does not start. |
| `StepArguments.DecodedCarriesStep` | upstream/pkg/pod/entrypoint.go:154-186 | The process decoded from step i's arguments has onError, timeout, streams, when expressions and step results of the task's step i and of no other, and the defaults where the task says nothing of it. |
| `StepArguments.DecodedCarriesResults` | upstream/pkg/pod/entrypoint.go:231-248 | It collects exactly the task results without a value, in their order. |
| `StepArguments.DecodedCarriesFiles` | upstream/pkg/pod/entrypoint.go:135-151 | It waits for the post file of step i - 1, or for the ready file and its content, or for nothing, and posts and keeps its metadata in the run directory of step i. |
| `PostPaths.PathInjective` | upstream/pkg/pod/entrypoint.go:135-151 | Different post files have different paths. |
| `PodProcesses.ClearSees` | upstream/pkg/pod/pod.go:310-342 | Where no other mount is in the way, a stat of a post file sees it exactly if its step has posted it into its run volume. |
| `PodProcesses.ClearPosts` | upstream/cmd/entrypoint/post_writer.go:33-53 | There a step's post file is always written, and into its own run volume. |
| `PodProcesses.PodStepRefines` | upstream/pkg/pod/entrypoint.go:127-217 | Where no mount is in the way of the post files that a step waits for or writes, nor of the ready file, every step of the processes that the argument lists decode to, each seeing files through its own container's mounts, is a step of the protocol. |
| `PodProcesses.PodRunRefines` | upstream/pkg/pod/entrypoint.go:127-217 | There every run of those processes is a run of the protocol. |
| `PodProcesses.PodFailStop` | upstream/cmd/entrypoint/waiter.go:70-75 | There, once a step has posted `out.err`, no later step ever runs its command or posts `out`. |
| `PodProcesses.PodExitTellsStatus` | upstream/cmd/entrypoint/main.go:188-197 | There the container of a step whose command ended with a status of its own exits with 0 if the task says of that very step that it continues on errors, and otherwise with that status, or 255 after a signal. |
| `PodProcesses.PodWaitsForSidecars` | upstream/pkg/pod/entrypoint.go:137-145 | There no command runs before the sidecars are ready, where the pod waits for them. |
| `PodOrder.PostLands` | upstream/cmd/entrypoint/post_writer.go:33-53 | Whatever is mounted, the post of a step reaches no other post file in the run volumes; a post that cannot be written ends the process. |
| `PodOrder.PodNeverStuck` | upstream/pkg/entrypoint/entrypointer.go:182-332 | Whatever is mounted, a process that has neither exited nor been killed can always move. |
| `PodOrder.NextKeepsOrder` | upstream/pkg/pod/entrypoint.go:127-217 | With clear waits every action of the pod keeps the invariant: what has been posted, by whom, and who is past its wait. |
| `PodOrder.PodCommandsRunInOrder` | upstream/pkg/pod/entrypoint.go:127-217 | End to end: in every run of the decoded processes, with clear waits, a user's command runs alone, with `out` and no `out.err` of every earlier step in the run volumes, and it is the command of the step or, without one, of the platform. |
| `PodOrder.OrderIff` | upstream/pkg/pod/pod.go:310-342 | In every run, whatever the other volumes hold, commands run in order, if and only if in no step's container another mount covers the post file waited for at the depth of its run mount or deeper. |
| `PodOrder.KeptOutIsClear` | upstream/pkg/apis/pipeline/v1/task_validation.go:497-505 | In particular where nothing is mounted under the run directory. |
| `PodOrder.TrespasserSeen` | upstream/cmd/entrypoint/waiter.go:56-60 | With a workspace declared at the path of step 0's post file, every stat of step 1 finds that path, whatever has been posted. |
| `PodOrder.TwoCommandsAtOnce` | upstream/cmd/entrypoint/waiter.go:56-60 | A pod of two steps with such a workspace, built by the same code, and a run of it without any fault in which both commands run at the same time. |
| `RunVolumes.AddMounts` | upstream/pkg/pod/pod.go:310-342 | In place, every step's mount list gets the credentials mount, one run mount per step and the implicit mounts it does not use itself; one run volume is made per step. |
| `RunVolumes.SingleWriterIff` | upstream/pkg/pod/pod.go:310-342 | For every pod built and any other mounts, run mount w alone decides about a post file of step w if and only if no other mount covers that file at the depth of the run mount or deeper; that mount is of volume `tekton-internal-run-w` at `/tekton/run/w`, writable in step w's container and read-only in every other. |
| `RunVolumes.SingleWriter` | upstream/pkg/apis/pipeline/v1/task_validation.go:497-505 | In particular where nothing is mounted under the run directory, as validation demands of a step's own volume mounts but not of workspaces. |
| `RunVolumes.WorkspaceTakesPostFile` | upstream/pkg/apis/pipeline/v1/task_validation.go:168-198 | With a workspace declared at the path of step 0's post file, which is accepted, every step writes to the workspace there in place of the run volume. |
| `PodNames.PodNameInjective` | upstream/pkg/pod/pod.go:476-488 | Different attempts have different pod names, also where a long TaskRun name is cut and hashed, whatever the digest. |
| `PodNames.PodNameIs` | upstream/pkg/pod/pod.go:476-488 | The name is the TaskRun's with `-pod`, and `-retry` and the number from the first retry on, where that fits into 63 characters; otherwise a beginning of it, its digest and that suffix, 63 characters in all. |
| `Reconciler.TaskRun.RetryTaskRun` | upstream/pkg/reconciler/taskrun/taskrun.go:1131-1141 | The status joins the archive without an archive of its own; times, pod name and results are cleared; steps and sidecars stay. |
| `Reconciler.TaskRun.TerminateStepsInPod` | upstream/pkg/reconciler/taskrun/taskrun.go:824-855 | Running and waiting steps become terminated with exit code 1; terminated ones stay. |
| `Reconciler.TaskRun.FailTaskRun` | upstream/pkg/reconciler/taskrun/taskrun.go:785-821 | The attempt fails with the reason, and its steps are terminated if it has a pod. |
| `Reconciler.TaskRun.StopSidecars` | upstream/pkg/reconciler/taskrun/taskrun.go:317-358 | The whole new status: unchanged without a pod or after cancellation or timeout; running sidecars replaced by the stopped ones; a success whose sidecars cannot be stopped becomes a failure; a missing pod or a conflict ends the pass. |
| `Reconciler.TaskRun.ChoosePod` | upstream/pkg/reconciler/taskrun/taskrun.go:607-612 | The last listed pod that the TaskRun controls, that has not failed and that no archived attempt used. |
| `Reconciler.TaskRun.FindPod` | upstream/pkg/reconciler/taskrun/taskrun.go:586-613 | The recorded pod, or without one the last adoptable listed pod; a failing look-up or listing ends the pass, and only finding none means that a pod must be made. |
| `Reconciler.TaskRun.CreatePod` | upstream/pkg/reconciler/taskrun/taskrun.go:859-926 | The pod is the new one, or from the cache the one that exists, under the attempt's own name; the cluster gains exactly a pod that was made, also when the answer was lost. |
| `Reconciler.TaskRun.MakeTaskRunStatus` | upstream/pkg/pod/status.go:119-169 | The whole new status: the pod's verdict, completion, steps merged by name, sidecars, and the pod's results merged in once the run is done. |
| `Reconciler.TaskRun.Reconcile` | upstream/pkg/reconciler/taskrun/taskrun.go:575-683 | Status and error are those of the pod found, or of the pod asked for where there is none; only asking adds to the cluster. |
| `Reconciler.TaskRun.ReconcileKind` | upstream/pkg/reconciler/taskrun/taskrun.go:115-241 | The status a pass decides and the cluster it leaves, over every answer of the cluster. |
| `Reconciler.PassMovesOrArchives` | upstream/pkg/reconciler/taskrun/taskrun.go:115-241 | Whatever the cluster answers, a pass moves the current attempt on, with no other pod than its own or an adoptable one, or archives exactly it; it never leaves a failure that is owed a retry. |
| `PassOutcomes.CancelledIsKilled` | upstream/pkg/reconciler/taskrun/taskrun.go:176-181 | A pass over a cancelled attempt that is not done fails it with `TaskRunCancelled` and a completion, archives nothing, makes no pod, and leaves no step of its pod running or waiting, whatever the cluster answers. |
| `PassOutcomes.TimedOutIsKilled` | upstream/pkg/reconciler/taskrun/taskrun.go:183-189 | One that has run out of time fails with `TaskRunTimeout` the same way, and is archived and begun anew if a retry is left. |
| `PassOutcomes.StuckIsKilled` | upstream/pkg/reconciler/taskrun/taskrun.go:191-195 | So does one whose first step or sidecar with an image that cannot be pulled is not in its grace period, which only `ImagePullBackOff` has, with `TaskRunImagePullFailed`. |
| `PassOutcomes.LastUsableIsTaken` | upstream/pkg/reconciler/taskrun/taskrun.go:607-612 | Of the listed pods the last is taken that the TaskRun controls, that has not failed and in which no step has, and that no archived attempt used. |
| `PassOutcomes.PodSucceeds` | upstream/pkg/reconciler/taskrun/taskrun.go:657-683 | A pod, recorded, listed or asked for, that is over without a failure makes the TaskRun succeed in that pod with what it reports. |
| `PassOutcomes.PodFails` | upstream/pkg/reconciler/taskrun/taskrun.go:657-683 | One that has failed fails the attempt, which keeps its report and is retried if a retry is left. |
| `PassOutcomes.TooLargeIsKilled` | upstream/pkg/reconciler/taskrun/taskrun.go:213-221 | Results over the size limit fail the attempt whatever the pod's verdict, and end its steps. |
| `PassOutcomes.InvalidResultsFail` | upstream/pkg/reconciler/taskrun/taskrun.go:673-681 | Results of a wrong type fail it. |
| `PassOutcomes.QuotaKeepsGoing` | upstream/pkg/reconciler/taskrun/taskrun.go:749-758 | A quota in the way never fails an attempt nor uses up a retry: the status is as before but not started. |
| `PassOutcomes.UnseenPodIsWaitedFor` | upstream/pkg/reconciler/taskrun/taskrun.go:761-762 | A pod that is there but not in the cache is waited for. |
| `PassOutcomes.RefusedPodFails` | upstream/pkg/reconciler/taskrun/taskrun.go:747-779 | Every other refusal of a pod, and a volume claim that cannot be made, fails the attempt with its own reason. |
| `PassOutcomes.PodMadeIff` | upstream/pkg/reconciler/taskrun/taskrun.go:632-655 | A pod is made, one and under the attempt's own name, exactly when the attempt needs one, nothing fails before it is asked for, and the API server makes it. |
| `PassOutcomes.NoPodMade` | upstream/pkg/reconciler/taskrun/taskrun.go:586-613 | None is made where the attempt has one, or where looking for it fails. |
| `PassOutcomes.HinderedChangesNothing` | upstream/pkg/reconciler/taskrun/taskrun.go:586-655 | A look-up, listing, substitution or readiness update that fails leaves the status as it was. |
| `PassOutcomes.PreparationDecides` | upstream/pkg/reconciler/taskrun/taskrun.go:197-207 | Before the pod: an invalid TaskRun fails, one still being resolved goes on under that reason, a passing error changes nothing; no pod is asked for. |
| `PassOutcomes.DoneStays` | upstream/pkg/reconciler/taskrun/taskrun.go:317-358 | A pass over a TaskRun that is done and owed no retry changes nothing but running sidecars that were stopped; failing to stop them fails it, unless it was cancelled or out of time. |
| `PassOutcomes.BrokenOffChangesNothing` | upstream/pkg/reconciler/taskrun/taskrun.go:150-174 | Where sidecar support cannot be found out, or the pod is missing or changed meanwhile, the pass ends without a change. |
| `PodReports.ConditionReported` | upstream/pkg/pod/status.go:119-169 | A TaskRun that is not done succeeds exactly when its pod is over without a failure, and fails exactly when it is over with one or is pending over a container configuration error. |
| `PodReports.ReasonReported` | upstream/pkg/pod/status.go:119-169 | While it goes on, the reason names what it waits for: nodes, images, or the pod. |
| `PodReports.ResultsReported` | upstream/pkg/pod/status.go:254-338 | Once it is done, the last value of every result of the pod is among the results, earlier ones keep their place, those the pod does not name keep their value, and nothing else is there, no name twice. |
| `PodReports.NothingReportedYet` | upstream/pkg/pod/status.go:254-256 | Until then no result is added. |
| `PodReports.StepsReported` | upstream/pkg/pod/status.go:141-166 | Every step container of the pod is among the steps exactly once with the pod's state; steps keep their places, and those the pod lacks their state; the sidecars are those of the pod. |
| `PodReports.SecondLookChangesNothing` | upstream/pkg/pod/status.go:119-169 | A second look at the same pod changes nothing in the status, results included. |
| `Reconciler.SuccessTakenBack` | upstream/pkg/reconciler/taskrun/taskrun.go:317-358 | A success with retries left is taken back and retried when its sidecars cannot be stopped. |
| `Retries.StepKeepsSound` | upstream/pkg/reconciler/taskrun/taskrun.go:115-241 | Every event of a run, a status stored from any stale reading included, keeps what every run keeps. |
| `Retries.RunKeepsSound` | upstream/pkg/reconciler/taskrun/taskrun.go:115-241 | So it is at every time of every run, with readings any amount behind, stored or lost, pods going away, and cancellation at any point. |
| `Retries.FailureIsFinal` | upstream/pkg/reconciler/taskrun/taskrun.go:360-370 | In every run a stored failure means cancelled or all retries used. |
| `Retries.AttemptsBounded` | upstream/pkg/reconciler/taskrun/taskrun.go:1131-1141 | In every run at most spec.retries attempts are archived, all of them failed and none with an archive of its own. |
| `RunReports.RunStaysTidy` | upstream/pkg/pod/status.go:119-169 | In every run no step and no result is ever reported twice. |
| `RunReports.SuccessIsStored` | upstream/pkg/reconciler/taskrun/taskrun.go:115-241 | A stored pass that finds the pod over without a failure leaves a success with the last value of every result of the pod. |
| `RunReports.SuccessIsFinal` | upstream/pkg/reconciler/taskrun/taskrun.go:317-358 | From then on condition, pod, results and steps never change, not even by a cancellation, as long as no pass works on an older reading or fails to stop the sidecars. |
| `Cancellation.CancelledPassEnds` | upstream/pkg/reconciler/taskrun/taskrun.go:176-181 | In every run the first stored pass that reads the TaskRun cancelled leaves it done, and failed for that reason if it was not done. |
| `Cancellation.CancelledForGood` | upstream/pkg/reconciler/taskrun/taskrun.go:176-181 | When no later pass works on an older reading, its status never changes again, and no more pods are made. |
| `Cancellation.KeepsDoneIff` | upstream/pkg/client/injection/reconciler/pipeline/v1/taskrun/reconciler.go:304-336 | A stored pass keeps an ended TaskRun done, whatever the cluster answers, if and only if its reading shows it cancelled, or done beyond any retry, or without a retry left and waiting for an image without a valid name. |
| `Cancellation.StaleStoreRevives` | upstream/pkg/client/injection/reconciler/pipeline/v1/taskrun/reconciler.go:304-336 | A run in which a status read before the cancellation is stored after the end and takes it back. |
| `Retries.AtMostOneLivePodPerAttempt` | upstream/pkg/reconciler/taskrun/taskrun.go:907-925 | In every run at most one pod per attempt is there at a time, and of every name as many pods were made as are gone or there. |
| `Retries.SecondPodMeansDeletion` | upstream/pkg/reconciler/taskrun/taskrun.go:648-655 | Between two pods made for one attempt the first has gone away. |
| `Retries.StepKeepsOrderly` | upstream/pkg/reconciler/taskrun/taskrun.go:115-241 | An event that stores only over the attempt it was read from keeps the archive growing and makes no pod of a later attempt. |
| `Retries.TimelyRunsKeepOrder` | upstream/pkg/reconciler/taskrun/taskrun.go:115-241 | So it is at every time of every run whose stored statuses were read within the attempt they are stored over, with stale lists and lost writes. |
| `Retries.ArchiveOnlyGrows` | upstream/pkg/reconciler/taskrun/taskrun.go:1131-1141 | In such a run archived attempts are never changed or dropped. |
| `Retries.StoringKeepsArchiveIff` | upstream/pkg/client/injection/reconciler/pipeline/v1/taskrun/reconciler.go:304-336 | Storing what a pass decided keeps the archive if and only if the pass read the current attempt, or the one before it and by its inputs archives that one again just as it stands; two attempts behind it never does. |
| `StaleStore.StaleStoreLosesOrder` | upstream/pkg/client/injection/reconciler/pipeline/v1/taskrun/reconciler.go:304-336 | A run of real passes in which a status read in the first attempt is stored over the second: the archived attempt is lost, and later the attempt that runs has the pod of an archived one. |
| `AttemptPods.OwnPodIsFresh` | upstream/pkg/pod/pod.go:476-488 | The name of the current attempt's own pod is in no archived attempt, where every archived one has an earlier name. |
| `AttemptPods.PassKeepsProperIff` | upstream/pkg/reconciler/taskrun/taskrun.go:586-655 | Over a status in which attempts have pods of their own or earlier attempts' and no two the same, a pass decides on such a status again if and only if it does not take over a listed pod of a later attempt. |
| `AttemptPods.RunIsProperIff` | upstream/pkg/reconciler/taskrun/taskrun.go:115-241 | In every run, however stale its stored statuses, that holds at all times if and only if no stored pass takes over a later attempt's pod. |
| `AttemptPods.TimelyIsModest` | upstream/pkg/reconciler/taskrun/taskrun.go:586-655 | No pass does while statuses are stored only over the attempt they were read from. |
| `AttemptPods.AttemptsHaveTheirOwnPods` | upstream/pkg/reconciler/taskrun/taskrun.go:586-655 | Then the non-empty pod names of archived attempts are pairwise distinct and the current pod is none of them. |
| `AttemptPods.PassKeepsInOrder` | upstream/pkg/reconciler/taskrun/taskrun.go:586-655 | A pass that reads the status as it stands keeps attempts' pods in order and makes none for an attempt beyond the next that could take one over. |
| `PodClash.ClashFreeIff` | upstream/pkg/reconciler/taskrun/taskrun.go:586-655 | From any sound status of a TaskRun that can go on: no continuation by passes, whatever the cluster answers, makes two attempts share a pod, if and only if the pods are in order and none has been made for an attempt beyond the next that could take one over. |
| `PodClash.ContinuationIsRun` | upstream/pkg/reconciler/taskrun/taskrun.go:115-241 | Such a continuation can follow any history: together they are a run. |
| `PodClash.SharingIff` | upstream/pkg/client/injection/reconciler/pipeline/v1/taskrun/reconciler.go:304-336 | So it is at any time of any run, with the failing runs constructed. |
| `Retries.WaitingSidecarUsesUpRetries` | upstream/pkg/reconciler/taskrun/taskrun.go:271-303 | A sidecar that cannot pull its image survives into the next attempt's status, so that all remaining retries are used up without one pod being made. |
| `StatusMerge.RemoveDuplicateResults` | upstream/pkg/pod/status.go:533-550 | First-occurrence order, last values. |
| `StatusMerge.MergeUnique` | upstream/pkg/pod/status.go:533-550 | A merge is determined by its input. |
| `StatusMerge.MergeAbsorbs` | upstream/pkg/pod/status.go:533-550 | Merging in two goes is merging at once. |
| `StatusMerge.SecondReconcileChangesNothing` | upstream/pkg/pod/status.go:166-166 | Reconciling the same finished pod again leaves the results exactly as they are, and only that is a merge. |
| `JsonText.QuoteReadsBack` | upstream/pkg/termination/write.go:49-52 | Every string, written as a JSON string with encoding/json's escapes, reads back as itself with each byte outside valid UTF-8 replaced, and reading stops at its end. |
| `JsonText.SanitizeShrinks` | upstream/pkg/termination/write.go:49-52 | Each invalid byte takes three bytes more when first written than when written again. |
| `JsonText.PlainIsQuoted` | upstream/pkg/termination/write.go:46-52 | Plain text is written as it is, between quotes. |
| `JsonText.EscapesAre` | upstream/pkg/termination/write.go:46-52 | The escapes of Go's encoder, character by character, line separators and invalid bytes included. |
| `JsonText.RunesAreRead` | upstream/pkg/termination/write.go:46-52 | The bytes that section 3 of RFC 3629 gives a code point are read as one character, for every code point that is no surrogate. |
| `JsonText.ReadIsRune` | upstream/pkg/termination/write.go:46-52 | Nothing else is: what is read as one character is the bytes of such a code point. |
| `TerminationCodec.RecordReadsBack` | upstream/pkg/result/result.go:50-57 | A record with its optional fields reads back field by field. |
| `TerminationCodec.ListReadsBack` | upstream/pkg/termination/write.go:38-47 | An encoded list decodes to the list with invalid bytes replaced, if and only if nothing follows it. |
| `TerminationCodec.PlainRecordText` | upstream/pkg/result/result.go:50-57 | The text of a result of plain text, with the names of its fields. |
| `TerminationCodec.DecodedIsBracketed` | upstream/pkg/termination/write.go:38-47 | What decodes is `null` or stands in brackets and begins with a record where there is one; a text that was cut off is not accepted. |
| `TerminationLog.MessageFile.constructor` | upstream/pkg/termination/write.go:33-65 | The file is absent at first. |
| `TerminationLog.MessageFile.WriteMessage` | upstream/pkg/termination/write.go:33-65 | What the file decodes to, plus the batch, is written over the start of the file without truncation when it fits 4096 bytes; otherwise the file stays as it is. |
| `TerminationLog.AppendIff` | upstream/pkg/termination/write.go:33-65 | An accepted batch leaves exactly the encoding of the extended list if and only if it takes up at least three bytes for each invalid byte already in the file; otherwise the file no longer decodes. |
| `TerminationLog.AppendLogIff` | upstream/pkg/termination/write.go:33-65 | The same over whole histories: the file is the encoding of what was appended exactly as long as every accepted batch met that condition, and the first that does not leaves a file that decodes to nothing. |
| `TerminationLog.AppendLog` | upstream/pkg/termination/write.go:33-65 | For batches of valid text, any sequence of writes leaves exactly the encoding of the accepted batches, within 4096 bytes and without a stale tail; rejected batches leave no trace. |
| `TerminationLog.InvalidBytesSpoilTheLog` | upstream/pkg/termination/write.go:55-62 | For every task result name and every batch of moderate size there is a value of that result after which both writes succeed and the file no longer decodes. |
| `TerminationParse.Compact` | upstream/pkg/termination/parse.go:42-52 | In place, exactly the zero entries are dropped and the order is kept. |
| `TerminationParse.SortSlice` | upstream/pkg/termination/parse.go:64-64 | Sorted strictly by key, with the same elements. |
| `TerminationParse.Collect` | upstream/pkg/termination/parse.go:54-63 | One entry per key, the last one, in whatever order the map is walked. |
| `TerminationParse.ParseMessage` | upstream/pkg/termination/parse.go:32-66 | The result is strictly sorted by key and holds for each key its last non-zero entry; only a non-empty message that does not decode is an error. |
| `TerminationParse.ParseUnique` | upstream/pkg/termination/parse.go:54-65 | The result does not depend on the order in which the map is walked. |
| `TerminationParse.ParseAbsorbs` | upstream/pkg/termination/parse.go:42-65 | Parsing a parsed list followed by more is parsing it all at once. |
| `TerminationParse.MessageHoldsAccepted` | upstream/pkg/termination/parse.go:37-41 | After any writes of valid text the message decodes to exactly the accepted batches in order. |
| `Substitution.ApplyReplacements` | upstream/pkg/substitution/substitution.go:313-322 | Without ambiguous keys the output is the simultaneous replacement of the references in the input, whatever the order of the map; values are never looked at again. |
| `Substitution.PiecesAreInput` | upstream/pkg/substitution/substitution.go:313-322 | The pieces that replacement works on are the input, cut up. |
| `Substitution.BeginsRefIff` | upstream/pkg/substitution/substitution.go:316-316 | One reference begins another exactly when its key and `)` begin the other's key. |
| `Substitution.NoParenIsUnambiguous` | upstream/pkg/substitution/substitution.go:313-322 | Keys without `)` are never ambiguous. |
| `Substitution.OrderFree` | upstream/pkg/substitution/substitution.go:313-322 | Unambiguous keys: every argument order of the replacer gives the simultaneous replacement. |
| `Substitution.AmbiguityShows` | upstream/pkg/substitution/substitution.go:313-322 | Any ambiguous pair: two orders of the same map give different outputs on some input and values. |
| `Substitution.OrderFreeIff` | upstream/pkg/substitution/substitution.go:313-322 | For a set of keys: no values and no input let the order of the map show, if and only if no reference to a key begins another. |
| `Substitution.ApplyArrayReplacements` | upstream/pkg/substitution/substitution.go:327-346 | An input that is one whole array reference, starred or not, becomes that array; any other input becomes one replaced string. |
| `Substitution.ArrayOrderFreeIff` | upstream/pkg/substitution/substitution.go:327-342 | Array replacement is order-free on all inputs if and only if a key and its starred form never carry different arrays. |
| `SequentialReplace.FindAllRefs` | upstream/pkg/entrypoint/entrypointer.go:866-868 | For any regular expression whose matches start with `$` and do not depend on what follows: where every `$` starts a reference, exactly the references are found, in order. |
| `SequentialReplace.SequentialIsSimultaneous` | upstream/pkg/entrypoint/entrypointer.go:866-877 | Where no value of a text's references lets one of them begin, replacing the matches one after the other is replacing them all at once. |
| `SequentialReplace.ViolationShows` | upstream/pkg/entrypoint/entrypointer.go:866-877 | A value with a `$` from which a reference could begin, there or completed by following text, spoils a text. |
| `SequentialReplace.SequentialIff` | upstream/pkg/entrypoint/entrypointer.go:866-877 | For given values, every well-formed text comes out as if replaced at once if and only if no value holds a `$` from which a reference could begin that is replaced by something else. |
| `StepResultRefs.ResultMatchIsMatcher` | upstream/pkg/internal/resultref/resultref.go:45-53 | The lazy regular expression of step results is such an expression. |
| `StepResultRefs.ArtifactMatchIsMatcher` | upstream/internal/artifactref/artifactref.go:7-7 | So is the regular expression of step artifacts. |
| `StepResultRefs.ResultNamesMakeRefs` | upstream/pkg/internal/resultref/resultref.go:45-45 | Step and result names without `$`, `)` and line breaks make step-result references. |
| `StepResultRefs.ArtifactNamesMakeRefs` | upstream/internal/artifactref/artifactref.go:7-7 | Non-empty names that also hold no dot make step-artifact references, for inputs and outputs. |
| `StepResultRefs.StepResultsIff` | upstream/pkg/entrypoint/entrypointer.go:593-617 | The exact condition for step results. |
| `StepResultRefs.StepArtifactsIff` | upstream/pkg/entrypoint/entrypointer.go:797-845 | The exact condition for step artifacts. |
| `StepResultRefs.ResultValueIsRescanned` | upstream/pkg/entrypoint/entrypointer.go:593-617 | A result whose value is a reference to another result: some text that uses both does not come out as if replaced at once. |
| `StepResultRefs.ReplaceValue` | upstream/pkg/entrypoint/entrypointer.go:866-877 | An error exactly when some match has no value; otherwise every match in turn is replaced throughout. |
| `StepResultRefs.ReplaceArg` | upstream/pkg/entrypoint/entrypointer.go:596-614 | An error exactly when a look-up fails or an array stands in a larger argument; one array reference becomes the array; otherwise the matches are replaced in turn. |
| `StepResultRefs.ArgIsSimultaneous` | upstream/pkg/entrypoint/entrypointer.go:596-614 | On an argument of references whose values let none begin, that is the simultaneous expansion, errors included. |
| `StepResultRefs.WholeArgument` | upstream/pkg/entrypoint/entrypointer.go:593-625 | An argument that is one reference: an array becomes its elements, an empty one an empty argument, a string itself, and a failed look-up an error. |
| `StepResultRefs.ArrayInside` | upstream/pkg/entrypoint/entrypointer.go:593-625 | In a larger argument an array with elements is an error. |
| `StepResultRefs.ReplaceCommandAndArgs` | upstream/pkg/entrypoint/entrypointer.go:593-617 | An error exactly when some argument has one; command lines of such arguments are expanded argument by argument, in place. |
| `ResultRef.RoundTripIff` | upstream/pkg/internal/resultref/resultref.go:98-173 | A printed reference parses to itself if and only if it is an object attribute, or its result name holds no index and its index fits an int. |
| `ResultRef.RoundTrip` | upstream/pkg/internal/resultref/resultref.go:98-173 | In particular for all names without `.` and `[`. |
| `ResultRef.IndexedNameMisread` | upstream/pkg/internal/resultref/resultref.go:169-173 | A result named `a[0]` does not parse back. |
| `ResultRef.AcceptedIff` | upstream/pkg/internal/resultref/resultref.go:56-66 | Exactly the expressions of four or five parts with the fixed words in their places are accepted; one of five parts is told back by printing. |
| `ResultRef.OddIndexes` | upstream/pkg/internal/resultref/resultref.go:169-173 | Empty brackets are overlooked, digits with a star count as index 0, and a number too large as the largest int. |
| `Workspaces.FreeName` | upstream/pkg/workspace/apply.go:63-70 | The search gives the first of the rehashed names that is not taken. |
| `Workspaces.SearchEndsIff` | upstream/pkg/workspace/apply.go:63-70 | The search ends for all bindings if and only if every binding has a name to try that those before it did not take. |
| `Workspaces.NameIsHash` | upstream/pkg/workspace/apply.go:61-69 | A binding gets the hash of its name if that is free, otherwise the hash of that with a dollar sign if that is. |
| `Workspaces.AddVolume` | upstream/pkg/workspace/apply.go:72-96 | A claim met before gives its volume again; any other source gets a new volume; no source, none. |
| `Workspaces.CreateVolumes` | upstream/pkg/workspace/apply.go:55-99 | With distinct workspace names, every binding gets the volume of the first binding to its claim, or one of its own. |
| `Workspaces.SharedIff` | upstream/pkg/workspace/apply.go:55-99 | Two bindings share a volume name if and only if both name the same claim, under any hash; then they share the whole volume. |
| `WorkspaceDetails.VolumeOfBinding` | upstream/pkg/workspace/apply.go:71-100 | A binding to a claim has the volume of the first binding to it, any other its own, and one without a source none. |
| `WorkspaceMounts.IsolatedWorkspaces` | upstream/pkg/workspace/apply.go:127-138 | The workspaces that some step or sidecar asks for. |
| `WorkspaceMounts.MountIfAsked` | upstream/pkg/workspace/apply.go:194-206 | One mount is added, at the path asked for, exactly when the container asks. |
| `WorkspaceMounts.AddSidecarVolumeMount` | upstream/pkg/workspace/apply.go:224-231 | A mount is added unless its path is taken. |
| `WorkspaceMounts.MountIsolated` | upstream/pkg/workspace/apply.go:193-220 | Every container that asks gets the mount, and no other. |
| `WorkspaceMounts.MountShared` | upstream/pkg/workspace/apply.go:183-189 | Every sidecar gets the mount unless its path is taken. |
| `WorkspaceMounts.Declare` | upstream/pkg/workspace/apply.go:142-152 | An undeclared workspace is declared with the defaults; no other declaration changes its meaning. |
| `WorkspaceMounts.MountWorkspace` | upstream/pkg/workspace/apply.go:166-170 | An isolated workspace goes to those that ask, any other to the template and the sidecars. |
| `WorkspaceMounts.Apply` | upstream/pkg/workspace/apply.go:114-179 | The mounts and volumes of every binding are added, in order, and nothing is taken away. |
| `WorkspaceMounts.VolumesOnce` | upstream/pkg/workspace/apply.go:172-176 | Each volume is added once, and only volumes of bindings. |
| `WorkspaceMounts.StepSeesIff` | upstream/pkg/workspace/apply.go:114-220 | A step is given a volume if and only if some binding to it is shared or was asked for by the step. |
| `WorkspaceDetails.MountIs` | upstream/pkg/workspace/apply.go:159-164 | The mount of a binding has the volume's name, the declared path or `/workspace/` and the name, the binding's sub-path and the declared access. |
| `WorkspaceDetails.AskedMountIs` | upstream/pkg/workspace/apply.go:191-220 | A container that asks for the workspace gets the same, at the path of its first usage if that gives one. |
| `WorkspaceDetails.SidecarHolds` | upstream/pkg/workspace/apply.go:181-231 | A sidecar has its own mounts, those of bindings it asks for, and those of bindings nobody asks for whose path was free. |
| `WorkspaceDetails.StepAfterApply` | upstream/pkg/workspace/apply.go:114-179 | After Apply a step has exactly what it had, the mounts of bindings nobody asks for, and of those it asks for. |
| `WorkspaceDetails.VolumesAfterApply` | upstream/pkg/workspace/apply.go:172-176 | The task's volumes are those it had and the bindings' volumes, each once. |
| `WorkspaceMounts.MountsHaveVolumes` | upstream/pkg/workspace/apply.go:114-179 | Every mount given to a step is of a volume in the task's list. |
| `WorkspaceMounts.SidecarSeesIff` | upstream/pkg/workspace/apply.go:183-231 | A sidecar has a volume if and only if it mounts it itself, or some binding to it was asked for by the sidecar, or is shared at a path that is free after the bindings before it. |
| `WorkspaceMounts.SidecarVolumesListed` | upstream/pkg/workspace/apply.go:172-176 | Every volume given to a sidecar is in the task's list. |
| `WorkspaceMounts.IsolationIff` | upstream/pkg/workspace/apply.go:114-220 | An isolated workspace's volume reaches a step that did not ask for it exactly when another workspace bound to the same claim is shared or was asked for by that step. |
| `WorkspaceMounts.SidecarIsolationIff` | upstream/pkg/workspace/apply.go:114-231 | The same of a sidecar that did not ask: another workspace on the same claim was asked for by it, or is shared at a free path. |
| `WorkspaceMounts.SharedClaimUndoesIsolation` | upstream/pkg/workspace/apply.go:114-220 | With two workspaces on one claim, a step that asked for neither is given the volume of the isolated one. |
| `LimitRange.MaxRequest` | upstream/pkg/internal/computeresources/compare/compare.go:31-39 | The largest of three quantities. |
| `LimitRange.GetDefaultStepContainerRequest` | upstream/pkg/internal/computeresources/transformer.go:95-130 | Per resource, the largest of the shares and minimums of the container items, and attained by one of them; zero values are left out. |
| `LimitRange.SetRequests` | upstream/pkg/internal/computeresources/transformer.go:87-91 | A zero request takes the default, any other stays. |
| `LimitRange.TransformPod` | upstream/pkg/internal/computeresources/transformer.go:52-85 | In place, every step without requests takes the defaults, every other step has its zeros filled, and other containers stay. |
| `LimitRange.CpuIsShared` | upstream/pkg/internal/computeresources/transformer.go:113-117 | A default of d thousandths of a CPU, one container item without minimum and n steps: each step without a CPU request is given exactly d / n thousandths, rounded down. |
| `LimitRange.BytesAreShared` | upstream/pkg/internal/computeresources/transformer.go:113-117 | A default of d bytes of memory or ephemeral storage: each is given d / n bytes, rounded down. |
| `LimitRange.SharesComeNear` | upstream/pkg/internal/computeresources/transformer.go:113-117 | Whatever the default, n requests come to less than n thousandths of a CPU, or n bytes, above or below it. |
| `LimitRange.StepsCounted` | upstream/pkg/internal/computeresources/transformer.go:60-67 | n is the number of containers whose name says that they are steps. |
| `LimitRange.RequestAfter` | upstream/pkg/internal/computeresources/transformer.go:52-130 | A step that asked for none of a resource gets at least every minimum; what was asked for, and what is no step, stays. |
| `LimitRange.SharesWithinDefaultIff` | upstream/pkg/internal/computeresources/transformer.go:111-119 | The shares of all steps stay within the default if and only if the default is whole in the unit of division or the division leaves a remainder. |
| `LimitRange.TinyDefaultExceeded` | upstream/pkg/internal/computeresources/transformer.go:111-119 | A default of a billionth is given out as a whole unit. |
| `LimitRange.TotalBounded` | upstream/pkg/internal/computeresources/transformer.go:52-130 | What the transformation adds to a whole pod is within one item's default rounded up to the unit, or its minimum once per step. |
| `LimitRange.AddedExactly` | upstream/pkg/internal/computeresources/transformer.go:65-85 | A pod gains the default request once for every step that asked for none. |
| `LimitRange.TotalWithinIff` | upstream/pkg/internal/computeresources/transformer.go:52-130 | What a pod gains stays within one item's default, or its minimum once per step, if and only if some step had a request of its own, or some item supplies the default request as its minimum or as the share of a default that is whole or divides with a remainder. |

## Left out

- Breakpoints, the before-step debugger and their scripts: off throughout the protocol; their flags are printed and decoded.
- Running processes, signals, CEL evaluation and registry look-ups: what they return is an input, any value the code can receive.
- Clocks: times are only set or unset, and a timeout is an input of a pass.
- The Kubernetes API: listings, look-ups and creations are inputs; a listed pod that claims the TaskRun as its controller, and an existing pod of an attempt's name, are ones made for it; of one name there is at most one pod at a time.
- Labels, annotations, events, metrics, tracing and the text of messages.
- `prepare` in the reconciler is one input with four outcomes; the checks inside it are not modelled.
- Taking a cancellation back: a cancelled TaskRun stays cancelled in a run.
- Retries.TimelyRunsKeepOrder: for runs whose stored statuses were read within the attempt they are stored over; `StaleStoreLosesOrder` shows a run without that, and `StoringKeepsArchiveIff` says of each store when it keeps the archive.
- Retries.StoringKeepsArchiveIff: since times are only set or unset, an attempt archived again counts as unchanged whatever its completion time; with real times a store from one attempt behind almost never keeps the archive.
- Cancellation.CancelledForGood: for runs in which no pass after the end works on an older reading; `StaleStoreRevives` shows a run without that, and `KeepsDoneIff` says of each reading when it keeps the end.
- RunReports.SuccessIsFinal: for runs in which no pass after the success works on an older reading or fails to stop the sidecars; `DoneStays` says of each pass what it changes.
- PodReports.ResultsReported: which results a pod has, filtered by the task's declarations from termination messages or the sidecar's log, is an input.
- PodReports.StepsReported: container names of a pod are distinct, as the API server demands; a step's status is its name and state.
- PodClash.ClashFreeIff: continuations are passes that read the status as it stands; a TaskRun that is done or cancelled, or whose status shows an image that cannot be pulled, is outside it.
- Substitution.OrderFreeIff: the condition is exact for a set of keys over all values; for given values ambiguous keys may still come out alike.
- Reconciler.TaskRun.MakeTaskRunStatus: init containers, artifacts and the text of termination messages are not modelled.
- Reconciler.TaskRun.StopSidecars: what the stopped sidecars' statuses are is an input.
- StepProtocol.Invariant: a running command is taken not to write into its own run directory, which is writable to it; a command that did could post for its own step.
- CommandLine.OrderContainers: the termination message path of a step is not modelled; its downward mount is one of the step's own mounts in a pod.
- Entrypoint.Entrypointer.Go: reading results and artifacts after the command is not modelled beyond being able to fail the process.
- StepProtocol.GoFollowsPhases: a failed wait is matched with the result of a stat, not with the files of the state.
- StepProtocol.ExitTellsStatus: a process that fails over its termination message after posting exits with 1, and what the kubelet reports of a killed one is any failure.
- CommandLineRoundTrip.DecodedIff: the values of the credential, result extraction and spire flags are printed but not compared after decoding; timeouts and when expressions are compared as text; result names are comma-free, as their validation demands.
- StepArguments.DecodedCarriesStep: for tasks whose result names hold no commas, as their validation demands.
- RunVolumes.SingleWriterIff: mount paths are taken to be clean; how the kubelet resolves links is not modelled.
- PodOrder.OrderIff: the pod's run and downward volumes are taken to be mounted by the controller only, as validation demands of steps but not of a step template; what other volumes hold is any content at any time; of two mounts at one path, which the API server refuses, either may decide; breakpoints are off.
- PodNames.PodNameInjective: for attempt numbers that fit a Go int; suffixes long enough to be hashed themselves do not occur.
- TerminationCodec.ListReadsBack: `Decode` reads what the writer produces and `null`; other JSON layouts, string-typed result types and surrogate escapes are not modelled, nor negative type numbers.
- TerminationLog.MessageFile.WriteMessage: I/O errors and a nil batch, which would be written as `null`, are not modelled; callers never pass one.
- TerminationParse.SortSlice: an insertion sort stands for the library's sort.
- Substitution.ApplyReplacements: the library's replacer is modelled by its documented matching order, not by its trie.
- Substitution.ApplyArrayReplacements: counting one occurrence in an input of the same length is written as equality.
- StepResultRefs.ReplaceCommandAndArgs: the simultaneous expansion is stated of arguments in which every `$` starts a reference; looking a reference up on disk, and an array index out of range there, are inputs; an empty array is replaced as one empty string, as in the code.
- ResultRef.RoundTripIff: for names without dots; with one the parts cannot be told apart.
- Workspaces.CreateVolumes: the hash is any function; the search is taken to end, and `SearchEndsIff` says when; the fields of sources other than claims are one text.
- WorkspaceMounts.StepSeesIff: merging the step template's mounts into a step by mount path comes after it and is not modelled.
- LimitRange.TransformPod: quantities are counted in billionths without overflow; requests of different containers are separate maps; limits of ranges other than containers are ignored, as in the code.
- LimitRange.CpuIsShared: the exact share is stated for one container item without a minimum; with several, each resource gets the largest share or minimum, as `GetDefaultStepContainerRequest` states.
- Substitution and validation of parameters in task specs, PipelineRun scheduling, resolvers, webhooks and conversions: other subsystems.
- Affinity assistants, default resource requirements and pod templates: they would add only easy members.

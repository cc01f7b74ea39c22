# Verified model of gpupgrade's hub and agent logic

gpupgrade moves a Greenplum cluster from one major version to the next. A hub
process runs long jobs in the background, records how each is doing in marker
files, sends work to one agent per host, and answers status requests by reading
the markers and the agents' texts. This project models that logic and proves
what it promises, for all inputs, all faults and all interleavings.

## What is modelled

**The marker-file protocol** (`Markers`, `Programs`, `Operations`, `Checklist`,
`Drivers`, `HubSystem`, `Earned`, `Observations`, `ResetWindows`,
`DisturbedRuns`, `FaultFree`, `FailedResets`, `WhileRunning`, `StateCheck`,
`ShutDownClusters`). A background job is a tree of filesystem
calls and commands, each with what follows its success and its failure. The
methods of `Checklist` and `Drivers` have the form of the source's methods, and
each is proved to behave as its tree, whatever the environment answers.
`HubSystem` interleaves the jobs call by call, lets the hub crash and restart
between any two calls, and lets every call fail. A call that reports an error
may have taken effect all the same, and a failed removal of a directory may
leave any subset of its files. A status poll changes nothing, so a poll is a
pair of instants of a run: what its Stat saw and what its Glob saw.

- *One marker.* The drivers that give up when their reset fails (seginstall,
  start-agents, validate-start-cluster) keep at most one marker in every
  reachable state, so polls of them never report too many files. The drivers
  that carry on (share-oids and the two gpstop directories) keep it exactly
  when they find nothing but an in-progress marker, and over every run in which
  their directory can be removed. For any step and any run it holds exactly when
  no job marks the step in progress beside another file.
- *What polls see.* In the order of their Globs, polls see PENDING, RUNNING,
  PENDING and then one conclusion for good. For every step, from one successful
  reset to the next, that holds exactly when the window is undisturbed: no reset
  in between takes a concluding marker away, and no job marks the step in progress
  once more. The second cannot happen to the guarded steps; neither can happen
  before the directory is next removed. Both happen in the code, and
  `DisturbedRuns` exhibits a run of each: a reset may remove `completed` and then
  fail, so that COMPLETE is followed by PENDING; and share-oids, which goes on
  after a failed reset, may write `in.progress` beside `completed`.
- *Completed is earned.* Wherever `completed` appears, the job that wrote it had
  met the step's success condition, stated on the commands it had run.
- *At work.* While a command that a job runs only after marking its step is being
  executed, the marker is there, and polls of the guarded steps and of the shutdown
  say RUNNING.
- *Failing resets.* Which commands each job runs whatever fails, and what it does
  when its directory cannot be reset or marked.
- *Fault-free outcomes.* Which commands each job runs and which one marker it
  leaves behind: `completed` exactly when its success condition held. Shutting
  down when only one cluster is running ends in FAILED even if that cluster was
  stopped, because the reader wants two `completed` files. Share-oids whose
  hostnames cannot be read completes without copying anything, since the code
  only logs that error.

**Status texts** (`Text`, `ConversionStatus`, `StatusConversion`,
`StatusUpgrade`, `DoneFiles`, `ShellParser`, `ConvertPrimary`). Agents print one
line per segment, the hub joins them and looks for keywords. The decision is
proved to be the fold over the printed statuses and the keywords that hostnames
happen to contain, for all lists; with hostnames free of keywords it is the fold
over the statuses. From end to end it is exact for every configuration and
whatever hosts are connected: of several masters on one host the agent prints only
the last, and hosts that are not connected are not asked, so that their failures
do not show. The scanner of `*.done` files is proved to be a closed form in which
an unterminated last line is never looked at. The parser of the pg_upgrade command line recognises exactly
the port that was printed, and never finds a negative one.

**Planning and fan-out** (`Config`, `DataDirPairs`, `FanOut`, `ConvertPrimary`,
`AgentConns`, `Conversion`). Grouping by host, pairing old and new primaries, one
goroutine per agent under every schedule, and the agent's loop of copies and
starts; and all of it together: when the hub returns no error, pg_upgrade has been
started once for each old primary whose host is connected.

**Cached objects** (`ConfigReader`, `AgentConns`). The reader's file location is
fixed by the first call that names one. The hub names the old file when it is
created, so later requests for the new file are ignored: where the code means to
compare the old and the new configuration it reads one file twice, and the
pairing then pairs every primary with itself. The pairing is therefore stated
over two given configurations. A dial that fails leaves the connections made
before it in the cache; a later call returns that short list as a success, the
pairs of the hosts that are missing from it reach no agent, and the status of the
conversion leaves these hosts out. Both are complete exactly when every dial of
the call that made the connections worked.

Assumptions: at most one background job at a time writes to a step (the two
gpstop directories belong to one job), calls on one reader or one connection
cache do not overlap, and a configuration once loaded is the one all later calls
use. Another shutdown request may overwrite the postmaster flags while the old
cluster is being stopped; the flag of the new cluster that a shutdown is launched
with is the one it comes to read.

## Model

| member | source | states |
|---|---|---|
| Checklist.ChecklistManager.ResetStateDir | hub/upgradestatus/checklist_manager.go:64-77 | behaves as the reset of its program under any answers; success leaves an empty directory, failure never adds a file; nothing else changes |
| Checklist.ChecklistManager.MarkInProgress | hub/upgradestatus/checklist_manager.go:55-62 | behaves as its program; success adds the in-progress marker, failure adds nothing else |
| Checklist.ChecklistManager.MarkFailed | hub/upgradestatus/checklist_manager.go:27-39 | success replaces in-progress by failed; without an in-progress marker it fails and changes nothing |
| Checklist.ChecklistManager.MarkComplete | hub/upgradestatus/checklist_manager.go:41-53 | success replaces in-progress by completed; without an in-progress marker it fails and changes nothing |
| Drivers.ClusterSsher.RemoteExec | hub/cluster_ssher/cluster_ssher.go:62-93 | the method is its program under any answers: guarded reset and mark, then one command per host |
| Drivers.ClusterSsher.HandleStatusLogging | hub/cluster_ssher/cluster_ssher.go:95-107 | concludes the step failed or completed as told |
| Drivers.ClusterSsher.VerifySoftware | hub/cluster_ssher/cluster_ssher.go:38-43 | the seginstall job is its program under any answers |
| Drivers.ClusterSsher.Start | hub/cluster_ssher/cluster_ssher.go:45-60 | the start-agents job is its program; only the pings decide |
| Drivers.PingerManager.PingPollAgents | hub/services/hub_ping_agents.go:27-43 | at most ten rounds, success at the first round in which all agents answer |
| Drivers.PingerManager.PingAllAgents | hub/services/hub_ping_agents.go:45-56 | pings in order and gives up at the first agent that does not answer |
| Drivers.HubJobs.StartNewCluster | hub/services/hub_upgrade_validate_start_cluster.go:24-60 | the validate-start-cluster job is its program |
| Drivers.HubJobs.ShareOidFiles | hub/services/hub_upgrade_share_oids.go:23-68 | the share-oids job is its program; unreadable hostnames mean no host |
| Drivers.Pair.PrepareShutdownClusters | hub/services/hub_prepare_shutdown_clusters.go:14-22 | runs the shutdown job for the postmasters that have answered, and does nothing at all when neither did |
| Drivers.Pair.StopEverything | hub/cluster/cluster_pair.go:75-87 | the shutdown job is its program, old cluster first; the flag of the new cluster is read only after that, and counts as another request may have left it meanwhile |
| Drivers.Pair.StopCluster | hub/cluster/cluster_pair.go:109-134 | one gpstop, carried on after a failed reset, then whatever comes next |
| Programs.VerifySoftwareKeeps | hub/cluster_ssher/cluster_ssher.go:38-93 | from at most one marker, seginstall keeps at most one after every call, whatever fails |
| Programs.StartKeeps | hub/cluster_ssher/cluster_ssher.go:45-93 | the same for start-agents with its ping rounds |
| Programs.StartNewClusterKeeps | hub/services/hub_upgrade_validate_start_cluster.go:24-60 | the same for validate-start-cluster |
| Programs.UnguardedKeepsIff | hub/upgradestatus/checklist_manager.go:55-77 | a driver that carries on after a failed reset keeps at most one marker iff it finds nothing but in-progress |
| Programs.ShareOidFilesKeepsIff | hub/services/hub_upgrade_share_oids.go:27-68 | that condition for share-oids; after a removal that worked it keeps one marker |
| Programs.StopClusterKeepsIff | hub/cluster/cluster_pair.go:109-134 | that condition for each gpstop directory |
| StateCheck.TooManyIff | hub/upgradestatus/state_checker.go:23-43 | the too-many-files error is given iff both reads work and the directory holds two files |
| StateCheck.PollIs | hub/upgradestatus/state_checker.go:23-43 | every answer of every poll, by what its reads saw |
| StateCheck.ConclusiveIff | hub/upgradestatus/state_checker.go:23-43 | each of RUNNING, COMPLETE, FAILED is given by exactly one content of the directory |
| HubSystem.InvKept | hub/upgradestatus/checklist_manager.go:27-77 | every call, launch and crash keeps the invariant of all running jobs |
| HubSystem.OneMarkerIff | hub/upgradestatus/checklist_manager.go:55-77 | for every step and every run from at most one file: every reachable state has at most one iff no job marks the step in progress beside another file |
| HubSystem.GuardedOneMarker | hub/cluster_ssher/cluster_ssher.go:38-107 | in every reachable state of every interleaving a guarded step has at most one marker and its job keeps it so |
| HubSystem.GuardedPollNeverErrs | hub/upgradestatus/state_checker.go:23-43 | no poll of a guarded step ever reports more files than expected |
| HubSystem.RemovableOneMarker | hub/cluster/cluster_pair.go:109-134 | every step, share-oids and the two gpstop directories included, keeps at most one marker in every run whose removals of its directory work |
| HubSystem.RemovablePollNeverErrs | hub/upgradestatus/state_checker.go:23-43 | polls of the step in such a run never report more files than expected |
| HubSystem.CompletedIsEarned | hub/upgradestatus/checklist_manager.go:41-53 | the completed marker appears only by the call of a job that had met the success condition |
| HubSystem.CompletedTraced | hub/cluster_ssher/cluster_ssher.go:38-107 | wherever completed is seen, an earlier action wrote it, by a job that had earned it, and it has been there since |
| HubSystem.OperationAloneIsRun | hub/services/hub_upgrade_share_oids.go:15-68 | what a job does when run alone is one of the runs of the interleaved system |
| Earned.ProgramEarns | hub/cluster_ssher/cluster_ssher.go:38-107 | every job writes completed only after commands that entitle it to |
| Earned.SshEachEarns | hub/cluster_ssher/cluster_ssher.go:62-93 | seginstall: every host's command worked |
| Earned.PingPollEarns | hub/services/hub_ping_agents.go:27-56 | start-agents: fewer than ten failed rounds, then one in which all agents answered |
| Earned.RsyncEachEarns | hub/services/hub_upgrade_share_oids.go:45-67 | share-oids: every rsync worked |
| Earned.StopEarns | hub/cluster/cluster_pair.go:109-134 | gpstop: the command for that cluster worked |
| ResetWindows.StagesOf | hub/upgradestatus/checklist_manager.go:27-77 | from one successful reset to the next, undisturbed, the directory of any step only moves forward, failing resets and crashes included |
| ResetWindows.PatternIffUndisturbed | hub/upgradestatus/state_checker.go:23-43 | for every step, from one successful reset to the next: all polls see PENDING, RUNNING, PENDING, then one conclusion for good, iff no reset in between takes a concluding marker away and no job marks the step in progress once more |
| ResetWindows.PollPattern | hub/upgradestatus/state_checker.go:23-43 | consequence: up to the next attempt to remove the directory the pattern holds without any condition, for every step |
| Observations.PollIsInstant | hub/upgradestatus/state_checker.go:23-43 | a poll answers with the status of the directory at one instant inside it |
| DisturbedRuns.ForgetfulRun | hub/services/hub_upgrade_validate_start_cluster.go:24-60 | a run in which validate-start-cluster completes after a gpstart that worked, and the reset of the next launch fails but takes the marker away: polls see COMPLETE, then PENDING |
| DisturbedRuns.RemarkedRun | hub/services/hub_upgrade_share_oids.go:27-34 | a run in which share-oids completes and, after a failed reset that keeps the marker, marks itself in progress: polls see COMPLETE, then too many files |
| ResetWindows.PatternIffRemembered | hub/cluster_ssher/cluster_ssher.go:62-93 | consequence: for the guarded steps, where a second mark cannot happen, the condition is only that no concluding marker is taken away |
| ResetWindows.ForgottenBreaks | hub/upgradestatus/checklist_manager.go:64-77 | a concluding marker taken away is seen by two polls that break the pattern |
| ResetWindows.RemarkedBreaks | hub/upgradestatus/checklist_manager.go:55-62 | a step marked once more is seen by polls that break the pattern |
| ResetWindows.NeverRemarks | hub/cluster_ssher/cluster_ssher.go:62-93 | a guarded step is never marked once more, and no step is before its directory is removed again |
| FaultFree.SecondConcludeIsNoop | hub/upgradestatus/checklist_manager.go:27-39 | marking a step again that is no longer in progress changes no directory |
| FaultFree.VerifySoftwareRuns | hub/cluster_ssher/cluster_ssher.go:38-107 | without filesystem faults each host is tried once in order, and the one marker left is completed iff every command worked |
| FaultFree.StartRuns | hub/cluster_ssher/cluster_ssher.go:45-60 | without filesystem faults the one marker left is completed iff some ping round of ten was answered by all agents, whatever the remote commands did |
| FaultFree.StartNewClusterRuns | hub/services/hub_upgrade_validate_start_cluster.go:24-60 | without filesystem faults the one marker left is completed iff gpstart worked |
| FaultFree.ShareOidFilesRuns | hub/services/hub_upgrade_share_oids.go:45-67 | without filesystem faults each host is tried once in order, and the one marker left is failed iff some rsync failed |
| FaultFree.StopClusterRuns | hub/cluster/cluster_pair.go:109-134 | without filesystem faults one gpstop is run and its outcome is the only marker left |
| FailedResets.VerifySoftwareAlways | hub/cluster_ssher/cluster_ssher.go:38-107 | whatever fails: one command per host iff the directory could be reset and marked, otherwise none, and the step is marked failed if that can still be done |
| FailedResets.StartAlways | hub/cluster_ssher/cluster_ssher.go:45-60 | whatever fails: the same commands, and pings in any case, which alone decide what is marked |
| FailedResets.StartNewClusterAlways | hub/services/hub_upgrade_validate_start_cluster.go:24-60 | whatever fails: gpstart iff the directory could be reset and marked, otherwise nothing more |
| FailedResets.ShareOidFilesAlways | hub/services/hub_upgrade_share_oids.go:23-68 | whatever fails: one rsync per host in order |
| FailedResets.StopClusterAlways | hub/cluster/cluster_pair.go:109-134 | whatever fails: gpstop iff the mark could be written, even after a reset that failed |
| ShutDownClusters.GetStatus | hub/upgradestatus/shutdown_clusters.go:28-67 | when it is PENDING, RUNNING, COMPLETE or else FAILED, by the files that the three looks found |
| ShutDownClusters.ShutdownPollSound | hub/upgradestatus/shutdown_clusters.go:28-111 | in every run: COMPLETE means each cluster had been flagged running by a job whose gpstop of it succeeded; RUNNING means a marker was there |
| WhileRunning.ShutdownRunning | hub/upgradestatus/shutdown_clusters.go:44-51 | in every run: while a gpstop of the shutdown is being executed, a poll that finds it is RUNNING |
| WhileRunning.MarkedWhileRunning | hub/cluster/cluster_pair.go:109-134 | in every run: while an ssh of seginstall or start-agents, gpstart or gpstop is being executed, the step is marked in progress |
| WhileRunning.RunningWhileRunning | hub/upgradestatus/state_checker.go:23-43 | and a guarded step polled then is RUNNING |
| ShutDownClusters.CompleteMeansBothRan | hub/cluster/cluster_pair.go:75-94 | when all shutdowns of the run found the same postmasters, COMPLETE means they found both |
| ShutDownClusters.StopEverythingRuns | hub/cluster/cluster_pair.go:75-134 | which gpstops are run and what each directory holds afterwards |
| ShutDownClusters.ShutdownFinalStatus | hub/upgradestatus/shutdown_clusters.go:28-111 | after the job: COMPLETE iff both clusters ran and both stopped, otherwise FAILED |
| ConversionStatus.CheckConversionStatus | agent/services/conversion_status.go:14-47 | refuses iff there are no segments or a status is unknown; otherwise the first line is the text of the last segment with dbid 1 and content id -1 as MASTER, or empty without one, and the others are the texts of the other segments as PRIMARY, in order |
| ConversionStatus.ReplyLength | agent/services/conversion_status.go:14-47 | one line for the master, possibly empty, and one per other segment |
| ConversionStatus.LineContains | agent/services/conversion_status.go:30-42 | a line contains a keyword iff it reports that status or the hostname contains it |
| ConversionStatus.ReplyKeywordsExact | agent/services/conversion_status.go:14-47 | a reply carries a keyword iff a segment that is not a master, or the last master, has that status, or the hostname contains it |
| ConversionStatus.ReplyKeywords | agent/services/conversion_status.go:14-47 | with one master and a clean hostname: iff some segment has that status |
| StatusConversion.StatusConversion | hub/services/hub_status_conversion.go:11-44 | asks the agents of the connections in order, each about the content ids, dbids and directories of the segments of its host; the concatenated answers, or a refusal iff one of them refuses |
| StatusConversion.CollectedInOrder | hub/services/hub_status_conversion.go:19-39 | the strings of each agent follow those of the agents before it |
| StatusConversion.EverySegmentSentOnce | hub/services/hub_status_conversion.go:19-39 | whatever hosts are connected, each agent is sent content id, dbid and directory of each segment of its host in the order of the configuration, and together they are sent the segments of the connected hosts exactly: the configuration when all its hosts are connected |
| StatusConversion.AllAnswerIff | agent/services/conversion_status.go:15-17 | no agent is asked about no segments iff every connected host is in the configuration |
| StatusConversion.ConversionReplyLength | hub/services/hub_status_conversion.go:19-39 | as many strings as connected hosts plus the segments on them other than the one with dbid 1 and content id -1 |
| StatusConversion.DecisionByLines | hub/services/hub_status_upgrade.go:59-68 | deciding on the joined text is deciding line by line; no keyword arises where lines meet |
| StatusConversion.TextDecisionExact | hub/services/hub_status_upgrade.go:59-68 | the decision is the fold over the statuses and the keywords in hostnames, for all lists |
| StatusConversion.TextDecisionIsFold | hub/services/hub_status_upgrade.go:59-68 | with clean hostnames: any FAILED, else any RUNNING, else any COMPLETE, else PENDING |
| StatusConversion.ConvertPrimariesStatusExact | hub/services/hub_status_upgrade.go:59-68 | for every configuration and whatever hosts are connected: printing, collecting, joining and searching decide by the segments that have a line and by the hostnames |
| StatusConversion.ConvertPrimariesStatusIsTrue | hub/services/hub_status_upgrade.go:59-68 | with one master per host and clean hostnames that is the fold of the true statuses of the segments on the connected hosts |
| StatusConversion.AlwaysTrueIffCovered | hub/services/hub_status_conversion.go:19-39 | it is right about all segments, whatever their statuses, iff every host of the configuration is connected |
| StatusConversion.FailureNotSeen | hub/services/hub.go:126-160 | with a host that is not connected: its segments have failed, and the decision is COMPLETE |
| StatusUpgrade.MarkerChecksAnswer | hub/services/hub_status_upgrade.go:16-84 | in a report put together while jobs run, no marker check errs but that of share-oids after a removal that failed |
| StatusUpgrade.StepReported | hub/services/hub_status_upgrade.go:16-84 | while jobs run and crash, the report gives a step one status, that of its directory at an instant during the report |
| StatusUpgrade.EntriesAre | hub/services/hub_status_upgrade.go:16-84 | each of the ten steps has the status in the report that its own check gave and no other; the new cluster's configuration is COMPLETE iff its file can be stat'ed |
| StatusUpgrade.RowsInOrder | hub/services/hub_status_upgrade.go:70-83 | the entries come in one order |
| StatusUpgrade.EntryMissingIff | hub/services/hub_status_upgrade.go:16-84 | the report leaves a step out iff its directory held two files when listed |
| StatusUpgrade.ReportedCompleteIsEarned | hub/services/hub_status_upgrade.go:16-84 | a step reported COMPLETE was completed by the call of a job that had met its success condition, and has stayed so |
| StatusUpgrade.ConversionEntry | hub/services/hub_status_upgrade.go:49-68 | with one master per host and clean hostnames: the fold of the true statuses of the segments on the connected hosts, PENDING when one of these hosts is not in the configuration |
| StatusUpgrade.RefusedIsPending | hub/services/hub_status_upgrade.go:49-68 | PENDING when a connected agent did not answer or there are no connections |
| StatusUpgrade.EntryTrueIffAllDialed | hub/services/hub_status_upgrade.go:49-68 | over the hub's own connections the entry is right about all segments, whatever their statuses, iff every dial of the call that made them worked |
| DoneFiles.LatestDoneFile | hub/upgradestatus/pg_upgrade_status_checker.go:112-132 | the first of the files with the greatest known modification time |
| DoneFiles.LatestUnique | hub/upgradestatus/pg_upgrade_status_checker.go:112-132 | there is only one such file |
| DoneFiles.ScanLines | hub/upgradestatus/pg_upgrade_status_checker.go:134-158 | finds the keyword iff it is in the content up to its last newline |
| DoneFiles.IsUpgradeComplete | hub/upgradestatus/pg_upgrade_status_checker.go:96-159 | true iff the first file can be stat'ed and the latest file says so in a terminated line |
| DoneFiles.GetStatus | hub/upgradestatus/pg_upgrade_status_checker.go:36-70 | exactly when the status is PENDING, RUNNING, COMPLETE |
| DoneFiles.UnterminatedLineIsIgnored | hub/upgradestatus/pg_upgrade_status_checker.go:134-158 | after any lines, any last line without a newline does not count, and counts once it is terminated |
| DataDirPairs.Primaries | hub/services/hub_upgrade_convert_primaries.go:64-78 | maps each primary content id to its last primary |
| DataDirPairs.PrimariesUnique | hub/services/hub_upgrade_convert_primaries.go:64-78 | the map is determined by the configuration |
| DataDirPairs.GetDataDirPairs | hub/services/hub_upgrade_convert_primaries.go:56-103 | succeeds iff every last old primary has a last new primary on its host; then a pair is under a host iff it has the directory and port of a last old primary of that host first and those of the last new primary with its content id second, and none is there twice; an error names a last old primary that has no new one, or has its last one on another host; for any iteration order |
| DataDirPairs.MatchedMeans | hub/services/hub_upgrade_convert_primaries.go:80-101 | success in terms of the two configurations |
| DataDirPairs.PairedOnce | hub/services/hub_upgrade_convert_primaries.go:80-101 | a content id is in at most one pair of all hosts, under its own host, with old and new directories and ports |
| DataDirPairs.EveryPrimaryPaired | hub/services/hub_upgrade_convert_primaries.go:80-101 | on success every last old primary has such a pair |
| DataDirPairs.OrderIndependent | hub/services/hub_upgrade_convert_primaries.go:80-101 | iteration orders differ at most in the order within a host |
| DataDirPairs.SameConfigPairsItself | hub/services/hub_upgrade_convert_primaries.go:58-62 | one configuration read twice pairs every primary with itself |
| FanOut.InvAlways | hub/services/hub_upgrade_convert_primaries.go:20-53 | under every schedule the wait group counts the live goroutines and the channel the errors posted |
| FanOut.PostNeverBlocks | hub/services/hub_upgrade_convert_primaries.go:20-53 | no send on the error channel blocks |
| FanOut.NoDeadlock | hub/services/hub_upgrade_convert_primaries.go:20-53 | until the caller returns something can move |
| FanOut.SchedulesEnd | hub/services/hub_upgrade_convert_primaries.go:20-53 | every schedule is bounded, so with the above it ends with the caller returning |
| FanOut.ReportsEveryFailure | hub/services/hub_upgrade_convert_primaries.go:20-53 | the caller returns after all goroutines are gone and reports exactly the failed calls, none iff none failed |
| Config.SegmentsByHost | hub/services/hub.go:194-208 | each host of the configuration with the filter of the configuration by that host |
| Config.OnHostKeepsOrder | hub/services/hub.go:194-208 | the filter keeps the order of the configuration |
| Config.GroupsPartition | hub/services/hub.go:194-208 | the groups hold every segment with its multiplicity |
| AgentConns.Hub.AgentConns | hub/services/hub.go:126-160 | with connections: returns them iff they were all ready in one of three rounds, and never changes them; without: keeps those dialed before the first dial that failed, and returns them iff none did |
| AgentConns.Hub.EnsureConnsAreReady | hub/services/hub.go:162-182 | true iff one of three rounds finds every connection ready |
| AgentConns.CacheIsFinal | hub/services/hub.go:126-160 | a cache that is not empty never changes again |
| AgentConns.FilledOnce | hub/services/hub.go:126-160 | it was filled by one call, with a prefix of that call's hosts, all of them iff all its dials worked |
| AgentConns.LaterSuccess | hub/services/hub.go:126-160 | a later success returns exactly that cache and had a round in which all of it was ready |
| AgentConns.ConnsAreHosts | hub/services/hub.go:126-160 | the connections of any success are hosts of the configuration, each once |
| AgentConns.ConnsCoverIff | hub/services/hub.go:126-160 | they are all its hosts iff every dial of the call that made them worked |
| AgentConns.PairReachesAgentIff | hub/services/hub_upgrade_convert_primaries.go:20-53 | a pair is sent to an agent iff its host is among the connections |
| AgentConns.DispatchedOnce | hub/services/hub_upgrade_convert_primaries.go:20-53 | no pair is sent twice |
| Conversion.NoErrorStartsAll | hub/services/hub_upgrade_convert_primaries.go:14-54 | when the hub returns no error, under whatever schedule, pg_upgrade was started exactly for the pairs of the connected hosts |
| Conversion.EachPrimaryStartedOnce | hub/services/hub_upgrade_convert_primaries.go:14-54 | over distinct connections: once for each old primary whose host is connected, on the agent of that host, with its old and new directories and ports, and for nothing else |
| Conversion.HubConverts | hub/services/hub_upgrade_convert_primaries.go:14-103 | the same for the hub's own connections and pairs |
| Conversion.AllPrimariesStarted | hub/services/hub_upgrade_convert_primaries.go:14-54 | all hosts of the old configuration are connected when every dial of the call that made the connections worked |
| Conversion.ConvertedStarts | agent/services/convert_primary.go:31-59 | a request that succeeds starts pg_upgrade for its pairs, in order |
| ConvertPrimary.UpgradeConvertPrimarySegments | agent/services/convert_primary.go:15-60 | the commands issued and their outcomes, on success and for every place at which it gives up |
| ConvertPrimary.CommandAt | agent/services/convert_primary.go:31-59 | the command at each place of the log: all copies of a segment, then its start |
| ConvertPrimary.CommandTotal | agent/services/convert_primary.go:31-59 | segments times (OID files plus one) commands |
| ConvertPrimary.StartedBefore | agent/services/convert_primary.go:31-59 | giving up at segment k, every segment before k had its copies and then its start, all successful |
| ConvertPrimary.StoppedTail | agent/services/convert_primary.go:31-59 | the rest of the log is of segment k, only its last command failed, and nothing follows |
| ShellParser.IsPgUpgradeRunning | shellparsers/monitor_shell_parser.go:11-37 | true iff the leftmost match in the text names the target port |
| ShellParser.FindSubmatch | shellparsers/monitor_shell_parser.go:11-37 | the leftmost match and its digits, or nothing iff there is none |
| ShellParser.RoundTrip | agent/services/convert_primary.go:47-48 | on the printed command line exactly the printed port is recognised, and never a negative one |
| ConvertPrimary.CommandLineWords | agent/services/convert_primary.go:47-48 | for paths without spaces, the twelve words of the command line with every directory and port in its place |
| Text.DecimalInjective | agent/services/convert_primary.go:47-48 | different numbers are printed differently |
| Text.DecimalReads | agent/services/convert_primary.go:47-48 | a printed number is read back as itself |
| Text.JoinContains | hub/services/hub_status_upgrade.go:59-61 | joining with spaces neither makes nor loses a keyword |
| ConfigReader.LocationIsSticky | hub/configutils/config_reader.go:25-41 | over every history the first call that names a file fixes the only file ever read |
| ConfigReader.HubReadsOldFileOnly | hub/services/hub.go:74-90 | the hub's reader never reads the new file |
| ConfigReader.LoadedConfigStays | hub/configutils/config_reader.go:71-130 | a loaded configuration is never reloaded except by an explicit Read |
| ConfigReader.ConfigIsLastRead | hub/configutils/config_reader.go:43-68 | over every history a configuration with segments is what the last successful read gave |
| ConfigReader.ReadIsTaken | hub/configutils/config_reader.go:43-68 | and what a read of a named file gives is the configuration from then on |
| ConfigReader.Reader.OfOldClusterConfig | hub/configutils/config_reader.go:25-32 | names the old file on a new reader and does nothing on one that has a location |
| ConfigReader.Reader.OfNewClusterConfig | hub/configutils/config_reader.go:34-41 | names the new file on a new reader and does nothing on one that has a location |
| ConfigReader.Reader.Read | hub/configutils/config_reader.go:43-68 | works iff there is a location and its file can be parsed, and then takes its segments and bin directory; otherwise changes neither |
| ConfigReader.Reader.GetPortForSegment | hub/configutils/config_reader.go:71-92 | from the loaded segments, or those of the file when there are none: the port of the first with that dbid, else -1 |
| ConfigReader.Reader.GetHostnames | hub/configutils/config_reader.go:94-117 | from the loaded segments, or those of the file when there are none: every host once; an error iff there is nothing to answer from |
| ConfigReader.Reader.GetSegmentConfiguration | hub/configutils/config_reader.go:119-131 | the loaded segments, or those of the file when there are none, or nothing |
| ConfigReader.Reader.GetMasterDataDir | hub/configutils/config_reader.go:133-142 | from the same segments: the directory of the first with content -1, else nothing |

## Left out

- gRPC transport, the command line, logging, sleeps and timeouts: a remote call is an answer of the environment.
- The real filesystem, ssh, rsync, gpstop, gpstart, pgrep and pg_upgrade: their outcomes are parameters; globs and pgrep results enter as inputs.
- Database queries, JSON encoding and saving of configurations: the model starts from a parsed segment list.
- Reconfigure-ports and the markers of check-config: drivers of the same shape as share-oids without its loop.
- Disk space, version and object-count checks, and the command-line commanders: single-branch code.
- Two overlapping writers on one step, and the reader's lock: the source has no per-step lock, so two writers can leave two markers.
- Truncation of ports, dbids and content ids to 32 bits: values are taken to be in range.
- GetBinDir, GetBaseDir, GetMaster, the Pair's set-up and GetMasterPorts: plain lookups.
- Converting the master: a single command.
- Closing the connections when the hub stops: the cache is not used after that.
- The parent gpstop directory: whether Stat finds it is an input of the combined reader.
- Cleaning of paths when they are joined: paths are kept as the agent prints them.
- The goroutines of the fan-out are a state machine over values, as are histories of calls on the reader and the connection cache.
- StatusConversion.ConvertPrimariesStatusIsTrue: needs one master per host and hostnames without keywords, because the agent prints only the last of several masters and the hub searches the text; StatusConversion.ConvertPrimariesStatusExact says what holds without them.

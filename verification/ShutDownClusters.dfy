// The combined status of the two gpstop directories, read while the job that
// writes them runs.
module ShutDownClusters {
  import opened Idl
  import opened Markers
  import opened Programs
  import opened Operations
  import opened HubSystem
  import opened FaultFree

  // What one Glob over the two subdirectories saw of each. They are not read at
  // the same instant, and a Glob that fails sees nothing.
  datatype Glimpse = Glimpse(oldFiles: set<File>, newFiles: set<File>)

  function Matches(g: Glimpse, f: File): nat {
    (if f in g.oldFiles then 1 else 0) + (if f in g.newFiles then 1 else 0)
  }

  predicate InProgressFilesExist(g: Glimpse) {
    Matches(g, InProgress) != 0
  }

  predicate IsStopComplete(g: Glimpse) {
    Matches(g, Completed) == 2
  }

  // notExist: Stat found no gpstop directory; gpstopRunning: pgrep found one.
  // The in-progress markers are looked up twice, the completed ones once.
  function GetStatus(notExist: bool, gpstopRunning: bool, first: Glimpse, second: Glimpse,
                     third: Glimpse): (r: StepStatus)
    ensures r == PENDING <==> notExist
    ensures r == RUNNING <==>
              !notExist && gpstopRunning && (InProgress in first.oldFiles || InProgress in first.newFiles)
    ensures r == COMPLETE <==>
              && !notExist && !(gpstopRunning && (InProgress in first.oldFiles || InProgress in first.newFiles))
              && InProgress !in second.oldFiles && InProgress !in second.newFiles
              && Completed in third.oldFiles && Completed in third.newFiles
    ensures r != UNKNOWN_STATUS
  {
    if notExist then PENDING
    else if gpstopRunning && InProgressFilesExist(first) then RUNNING
    else if !InProgressFilesExist(second) && IsStopComplete(third) then COMPLETE
    else FAILED
  }

  // g sees of the old directory no more than it holds at instant x, and of the
  // new directory no more than it holds at instant y.
  ghost predicate Saw(g: Glimpse, states: seq<Hub>, x: nat, y: nat) {
    && x < |states| && y < |states|
    && g.oldFiles <= Listing(At(states[x].tree, GpstopOld))
    && g.newFiles <= Listing(At(states[y].tree, GpstopNew))
  }

  // Before instant i a shutdown job had found cluster s running and had run gpstop
  // on it successfully.
  ghost predicate Stopped(states: seq<Hub>, s: Step, i: nat) {
    exists k :: 0 <= k < i && k < |states| && StoppedAt(states[k], s)
  }

  ghost predicate StoppedAt(h: Hub, s: Step) {
    && GpstopOld in h.jobs && h.jobs[GpstopOld].operation.PrepareShutdownClusters?
    && (if s == GpstopOld then h.jobs[GpstopOld].operation.oldRunning else h.jobs[GpstopOld].operation.newRunning)
    && Ran(GpStop(s), true) in h.jobs[GpstopOld].job.log
  }

  lemma CompletedMeansStopped(states: seq<Hub>, actions: seq<Action>, s: Step, i: nat)
    requires IsRun(states, actions) && i < |states| && Owner(s) == GpstopOld
    requires Completed !in Listing(At(states[0].tree, s)) && Completed in Listing(At(states[i].tree, s))
    ensures Stopped(states, s, i)
  {
    var k := CompletedTraced(states, actions, s, i);
    var log := states[k].jobs[GpstopOld].job.log;
    assert log[|log| - 1] == Ran(GpStop(s), true);
    assert StoppedAt(states[k], s);
  }

  // In every run that starts from gpstop directories without a completed marker:
  // a poll that reports COMPLETE means that each cluster had been flagged as
  // running by a job whose gpstop of it succeeded; one that reports RUNNING saw
  // a marker.
  lemma ShutdownPollSound(states: seq<Hub>, actions: seq<Action>, notExist: bool, gpstopRunning: bool,
                          first: Glimpse, second: Glimpse, third: Glimpse, x1: nat, y1: nat, x3: nat, y3: nat)
    requires IsRun(states, actions)
    requires Completed !in Listing(At(states[0].tree, GpstopOld))
    requires Completed !in Listing(At(states[0].tree, GpstopNew))
    requires Saw(first, states, x1, y1) && Saw(third, states, x3, y3)
    ensures GetStatus(notExist, gpstopRunning, first, second, third) == COMPLETE ==>
              Stopped(states, GpstopOld, x3) && Stopped(states, GpstopNew, y3)
    ensures GetStatus(notExist, gpstopRunning, first, second, third) == RUNNING ==>
              gpstopRunning && (InProgress in Listing(At(states[x1].tree, GpstopOld)) ||
                                InProgress in Listing(At(states[y1].tree, GpstopNew)))
  {
    if IsStopComplete(third) {
      CompletedMeansStopped(states, actions, GpstopOld, x3);
      CompletedMeansStopped(states, actions, GpstopNew, y3);
    }
  }

  // When all shutdowns of the run found the same postmasters running, COMPLETE
  // means that they found both.
  ghost predicate ShutdownsAre(actions: seq<Action>, t: Operation) {
    forall i :: 0 <= i < |actions| && actions[i].Launch? && actions[i].operation.PrepareShutdownClusters? ==>
      actions[i].operation == t
  }

  lemma {:induction false} RunningShutdown(states: seq<Hub>, actions: seq<Action>, t: Operation, i: nat)
    requires IsRun(states, actions) && ShutdownsAre(actions, t) && i < |states|
    ensures GpstopOld in states[i].jobs ==> states[i].jobs[GpstopOld].operation == t
  {
    if i != 0 {
      RunningShutdown(states, actions, t, i - 1);
      assert states[i] == Perform(states[i - 1], actions[i - 1]);
    }
  }

  lemma CompleteMeansBothRan(states: seq<Hub>, actions: seq<Action>, oldRunning: bool, newRunning: bool, i: nat, j: nat)
    requires IsRun(states, actions) && ShutdownsAre(actions, PrepareShutdownClusters(oldRunning, newRunning))
    requires Stopped(states, GpstopOld, i) && Stopped(states, GpstopNew, j)
    ensures oldRunning && newRunning
  {
    var t := PrepareShutdownClusters(oldRunning, newRunning);
    var k :| 0 <= k < i && k < |states| && StoppedAt(states[k], GpstopOld);
    var m :| 0 <= m < j && m < |states| && StoppedAt(states[m], GpstopNew);
    RunningShutdown(states, actions, t, k);
    RunningShutdown(states, actions, t, m);
  }

  // The second half of the job.
  lemma StopNewRuns(newRunning: bool, w: World, env: Env) returns (ran: seq<Ran>)
    requires NoFsFaults(env)
    ensures |ran| == (if newRunning then 1 else 0) && (newRunning ==> ran[0].command == GpStop(GpstopNew))
    ensures var w' := Exec(StopNew(newRunning), w, env);
            w'.log == w.log + ran && w'.tree == if newRunning then w.tree[GpstopNew := Verdict(ran[0].ok)] else w.tree
  {
    ran := [];
    if newRunning {
      StopClusterRuns(GpstopNew, Done, w, env);
      ran := [Ran(GpStop(GpstopNew), env(w.clock + 3).commandOk)];
    } else {
      assert w.log + [] == w.log;
    }
  }

  lemma StopOldRuns(newRunning: bool, w: World, env: Env) returns (ran: Ran, w': World)
    requires NoFsFaults(env)
    ensures ran.command == GpStop(GpstopOld) && w'.log == w.log + [ran]
    ensures w'.tree == w.tree[GpstopOld := Verdict(ran.ok)]
    ensures Exec(StopEverything(true, newRunning), w, env) == Exec(StopNew(newRunning), w', env)
  {
    ran := Ran(GpStop(GpstopOld), env(w.clock + 3).commandOk);
    w' := Judged(w, GpstopOld, ran, 6);
    StopClusterRuns(GpstopOld, StopNew(newRunning), w, env);
  }

  lemma StopEverythingRuns(oldRunning: bool, newRunning: bool, w: World, env: Env)
      returns (ranOld: seq<Ran>, ranNew: seq<Ran>)
    requires NoFsFaults(env)
    ensures |ranOld| == (if oldRunning then 1 else 0) && (oldRunning ==> ranOld[0].command == GpStop(GpstopOld))
    ensures |ranNew| == (if newRunning then 1 else 0) && (newRunning ==> ranNew[0].command == GpStop(GpstopNew))
    ensures var w' := Exec(StopEverything(oldRunning, newRunning), w, env);
            && w'.log == w.log + ranOld + ranNew
            && At(w'.tree, GpstopOld) == (if oldRunning then Verdict(ranOld[0].ok) else At(w.tree, GpstopOld))
            && At(w'.tree, GpstopNew) == (if newRunning then Verdict(ranNew[0].ok) else At(w.tree, GpstopNew))
  {
    if oldRunning {
      var ran, w1 := StopOldRuns(newRunning, w, env);
      ranOld := [ran];
      ranNew := StopNewRuns(newRunning, w1, env);
    } else {
      ranOld := [];
      assert w.log + [] == w.log;
      ranNew := StopNewRuns(newRunning, w, env);
    }
  }

  // Without filesystem faults, once the job has finished: COMPLETE exactly when
  // both clusters were running and both stopped, and FAILED otherwise, also
  // when the only cluster that was running has been stopped.
  lemma ShutdownFinalStatus(oldRunning: bool, newRunning: bool, w: World, env: Env, gpstopRunning: bool)
      returns (ranOld: seq<Ran>, ranNew: seq<Ran>)
    requires NoFsFaults(env)
    requires Listing(At(w.tree, GpstopOld)) == {} && Listing(At(w.tree, GpstopNew)) == {}
    ensures Exec(StopEverything(oldRunning, newRunning), w, env).log == w.log + ranOld + ranNew
    ensures |ranOld| == (if oldRunning then 1 else 0) && |ranNew| == (if newRunning then 1 else 0)
    ensures oldRunning ==> ranOld[0].command == GpStop(GpstopOld)
    ensures newRunning ==> ranNew[0].command == GpStop(GpstopNew)
    ensures var t := Exec(StopEverything(oldRunning, newRunning), w, env).tree;
            var g := Glimpse(Listing(At(t, GpstopOld)), Listing(At(t, GpstopNew)));
            GetStatus(false, gpstopRunning, g, g, g) ==
            if oldRunning && newRunning && ranOld[0].ok && ranNew[0].ok then COMPLETE else FAILED
  {
    ranOld, ranNew := StopEverythingRuns(oldRunning, newRunning, w, env);
  }
}

// What each job does whatever fails: which commands it runs, and what is left of it
// when its directory cannot be reset or marked.
module FailedResets {
  import opened Markers
  import opened Programs
  import opened Earned
  import opened FaultFree

  // The three calls that open a job all work.
  predicate OpensAt(w: World, env: Env) {
    env(w.clock).fsOk && env(w.clock + 1).fsOk && env(w.clock + 2).fsOk
  }

  // A guarded job goes on with its body, in a directory that holds nothing but the
  // mark, or gives up with nothing run.
  lemma GuardedOpening(p: Prog, s: Step, body: Prog, giveUp: Prog, w: World, env: Env) returns (v: World)
    requires p == ResetStateDir(s, MarkInProgress(s, body, giveUp), giveUp)
    ensures v.log == w.log && v.tree == w.tree[s := At(v.tree, s)]
    ensures OpensAt(w, env) ==> At(v.tree, s) == Present({InProgress})
    ensures Reaches(p, w, if OpensAt(w, env) then body else giveUp, v, env)
  {
    var removed := Apply(RemoveAll, At(w.tree, s), env(w.clock));
    v := Left(w, s, removed.dir, 1);
    FsRuns(p, w, env);
    if removed.ok {
      v := MadeOrNot(p.onOk, s, body, giveUp, v, env);
      var q := if OpensAt(w, env) then body else giveUp;
      Through(p, w, p.onOk, Left(w, s, Absent, 1), q, v, env);
    }
  }

  lemma MadeOrNot(p: Prog, s: Step, body: Prog, giveUp: Prog, w: World, env: Env) returns (v: World)
    requires p == Fs(s, MkdirAll, MarkInProgress(s, body, giveUp), giveUp) && At(w.tree, s) == Absent
    ensures v.log == w.log && v.tree == w.tree[s := At(v.tree, s)]
    ensures var ok := env(w.clock).fsOk && env(w.clock + 1).fsOk;
            (ok ==> At(v.tree, s) == Present({InProgress})) && Reaches(p, w, if ok then body else giveUp, v, env)
  {
    var made := Apply(MkdirAll, Absent, env(w.clock));
    v := Left(w, s, made.dir, 1);
    FsRuns(p, w, env);
    if made.ok {
      var u := v;
      var marked := Apply(Create(InProgress), Present({}), env(w.clock + 1));
      assert {} + {InProgress} == {InProgress};
      FsRuns(p.onOk, u, env);
      v := Left(u, s, marked.dir, 1);
      Through(p, w, p.onOk, u, if marked.ok then body else giveUp, v, env);
      assert w.tree[s := made.dir][s := marked.dir] == w.tree[s := marked.dir];
    }
  }

  // Concluding runs no command, whatever comes of it.
  lemma ConcludeSilent(p: Prog, s: Step, f: File, next: Prog, w: World, env: Env) returns (v: World)
    requires p == Conclude(s, f, next, next)
    ensures v.log == w.log && Reaches(p, w, next, v, env)
  {
    var removed := Apply(Remove(InProgress), At(w.tree, s), env(w.clock));
    v := Left(w, s, removed.dir, 1);
    FsRuns(p, w, env);
    if removed.ok {
      var u := v;
      FsRuns(p.onOk, u, env);
      v := Left(u, s, Apply(Create(f), At(u.tree, s), env(u.clock)).dir, 1);
      Through(p, w, p.onOk, u, next, v, env);
    }
  }

  lemma ConcludeLog(p: Prog, s: Step, f: File, w: World, env: Env)
    requires p == Conclude(s, f, Done, Done)
    ensures Exec(p, w, env).log == w.log
  {
    var v := ConcludeSilent(p, s, f, Done, w, env);
    ReachesDone(p, w, v, env);
  }

  // Seginstall runs one command per host, or none when it cannot open its directory;
  // then it tries to mark the step failed in what is left of it.
  lemma VerifySoftwareAlways(hosts: seq<string>, w: World, env: Env) returns (ran: seq<Ran>, v: World)
    ensures if OpensAt(w, env) then OneEach(ran, hosts, h => Ssh(h)) else ran == []
    ensures Exec(VerifySoftware(hosts), w, env).log == w.log + ran
    ensures !OpensAt(w, env) ==>
              && v.log == w.log && v.tree == w.tree[Seginstall := At(v.tree, Seginstall)]
              && Exec(VerifySoftware(hosts), w, env) == Exec(Conclude(Seginstall, Failed, Done, Done), v, env)
  {
    var s, p := Seginstall, VerifySoftware(hosts);
    var failed, clean := HandleStatusLogging(s, true), HandleStatusLogging(s, false);
    v := GuardedOpening(p, s, SshEach(hosts, false, failed, clean), failed, w, env);
    if OpensAt(w, env) {
      var n;
      ran, n := SshEachRuns(hosts, false, failed, clean, v, env);
      var last, u := if AllOk(ran) then clean else failed, Since(v, ran, n);
      Through(p, w, SshEach(hosts, false, failed, clean), v, last, u, env);
      ReachesRuns(p, w, last, u, env);
      ConcludeLog(last, s, if AllOk(ran) then Completed else Failed, u, env);
    } else {
      ran := [];
      ReachesRuns(p, w, failed, v, env);
      ConcludeLog(failed, s, Failed, v, env);
      assert w.log + [] == w.log;
    }
  }

  // Start-agents runs one command per host or none, by the same rule, and pings in
  // any case; the pings alone decide what it marks.
  lemma StartAlways(hosts: seq<string>, agents: seq<string>, w: World, env: Env)
      returns (sshs: seq<Ran>, pings: seq<Ran>, up: bool, v: World)
    ensures if OpensAt(w, env) then OneEach(sshs, hosts, h => Ssh(h)) else sshs == []
    ensures if up then Reached(pings, agents) else RoundsFailed(pings, agents, 10)
    ensures v.log == w.log + sshs + pings && v.tree == w.tree[StartAgents := At(v.tree, StartAgents)]
    ensures Exec(Start(hosts, agents), w, env) ==
            Exec(Conclude(StartAgents, if up then Completed else Failed, Done, Done), v, env)
  {
    var p, body := Start(hosts, agents), SshEach(hosts, false, Pings(agents), Pings(agents));
    var u := GuardedOpening(p, StartAgents, body, Pings(agents), w, env);
    if OpensAt(w, env) {
      sshs, pings, up, v := StartSent(hosts, agents, p, body, w, u, env);
    } else {
      sshs := [];
      pings, up, v := StartUnsent(agents, p, w, u, env);
    }
    StartEnds(p, up, w, v, env);
  }

  lemma StartSent(hosts: seq<string>, agents: seq<string>, p: Prog, body: Prog, w: World, u: World, env: Env)
      returns (sshs: seq<Ran>, pings: seq<Ran>, up: bool, v: World)
    requires body == SshEach(hosts, false, Pings(agents), Pings(agents)) && Reaches(p, w, body, u, env)
    ensures OneEach(sshs, hosts, h => Ssh(h))
    ensures if up then Reached(pings, agents) else RoundsFailed(pings, agents, 10)
    ensures v.log == u.log + sshs + pings && v.tree == u.tree
    ensures Reaches(p, w, HandleStatusLogging(StartAgents, !up), v, env)
  {
    var n;
    sshs, pings, up, n := SentAndPinged(hosts, agents, body, u, env);
    v := Since(u, sshs + pings, n);
    assert u.log + sshs + pings == u.log + (sshs + pings);
    Through(p, w, body, u, HandleStatusLogging(StartAgents, !up), v, env);
  }

  lemma StartUnsent(agents: seq<string>, p: Prog, w: World, u: World, env: Env)
      returns (pings: seq<Ran>, up: bool, v: World)
    requires Reaches(p, w, Pings(agents), u, env)
    ensures if up then Reached(pings, agents) else RoundsFailed(pings, agents, 10)
    ensures v.log == u.log + [] + pings && v.tree == u.tree
    ensures Reaches(p, w, HandleStatusLogging(StartAgents, !up), v, env)
  {
    var n;
    pings, n, up := PingsRun(agents, u, env);
    v := Since(u, pings, n);
    assert u.log + [] == u.log;
    Through(p, w, Pings(agents), u, HandleStatusLogging(StartAgents, !up), v, env);
  }

  lemma StartEnds(p: Prog, up: bool, w: World, v: World, env: Env)
    requires Reaches(p, w, HandleStatusLogging(StartAgents, !up), v, env)
    ensures Exec(p, w, env) == Exec(Conclude(StartAgents, if up then Completed else Failed, Done, Done), v, env)
  {
    ReachesRuns(p, w, HandleStatusLogging(StartAgents, !up), v, env);
  }

  // validate-start-cluster runs gpstart, or does nothing more when it cannot open its
  // directory.
  lemma StartNewClusterAlways(w: World, env: Env) returns (ran: seq<Ran>, v: World)
    ensures if OpensAt(w, env) then |ran| == 1 && ran[0].command == GpStart else ran == []
    ensures Exec(StartNewCluster(), w, env).log == w.log + ran
    ensures !OpensAt(w, env) ==>
              && Exec(StartNewCluster(), w, env) == v && v.log == w.log
              && v.tree == w.tree[ValidateStartCluster := At(v.tree, ValidateStartCluster)]
  {
    var s, p := ValidateStartCluster, StartNewCluster();
    v := GuardedOpening(p, s, GpstartBody(), Done, w, env);
    if OpensAt(w, env) {
      var first := Ran(GpStart, env(v.clock).commandOk);
      ran := [first];
      CommandRuns(GpstartBody(), v, env);
      var q := if first.ok then Conclude(s, Completed, Done, Done) else Conclude(s, Failed, Done, Done);
      Through(p, w, GpstartBody(), v, q, After(v, first), env);
      ReachesRuns(p, w, q, After(v, first), env);
      ConcludeLog(q, s, if first.ok then Completed else Failed, After(v, first), env);
    } else {
      ran := [];
      ReachesDone(p, w, v, env);
      assert w.log + [] == w.log;
    }
  }

  // The share-oids loop tries every host, whatever its marks come to.
  lemma {:induction false} RsyncEachAlways(hosts: seq<string>, anyFailed: bool, w: World, env: Env)
      returns (ran: seq<Ran>, v: World)
    ensures OneEach(ran, hosts, h => Rsync(h)) && v.log == w.log + ran
    ensures Reaches(RsyncEach(hosts, anyFailed), w, Done, v, env)
  {
    var p := RsyncEach(hosts, anyFailed);
    if hosts == [] {
      ran := [];
      assert w.log + [] == w.log;
      if anyFailed {
        v := w;
        Stays(Done, w, env);
      } else {
        v := ConcludeSilent(p, ShareOids, Completed, Done, w, env);
      }
    } else {
      var first := Ran(Rsync(hosts[0]), env(w.clock).commandOk);
      var u := RsyncOnce(hosts, anyFailed, first, w, env);
      var rest;
      rest, v := RsyncEachAlways(hosts[1..], anyFailed || !first.ok, u, env);
      ran := [first] + rest;
      OneEachCons(first, rest, hosts, h => Rsync(h));
      assert w.log + [first] + rest == w.log + ran;
      Through(p, w, RsyncEach(hosts[1..], anyFailed || !first.ok), u, Done, v, env);
    }
  }

  lemma RsyncOnce(hosts: seq<string>, anyFailed: bool, first: Ran, w: World, env: Env) returns (u: World)
    requires hosts != [] && first == Ran(Rsync(hosts[0]), env(w.clock).commandOk)
    ensures u.log == w.log + [first]
    ensures Reaches(RsyncEach(hosts, anyFailed), w, RsyncEach(hosts[1..], anyFailed || !first.ok), u, env)
  {
    var p, onward := RsyncEach(hosts, anyFailed), RsyncEach(hosts[1..], true);
    CommandRuns(p, w, env);
    u := After(w, first);
    if !first.ok {
      u := ConcludeSilent(Conclude(ShareOids, Failed, onward, onward), ShareOids, Failed, onward, After(w, first), env);
      Through(p, w, Conclude(ShareOids, Failed, onward, onward), After(w, first), onward, u, env);
    }
  }

  // A driver that carries on reaches its mark, whatever becomes of its reset.
  lemma CarriesOn(p: Prog, s: Step, mark: Prog, w: World, env: Env) returns (v: World)
    requires p == ResetStateDir(s, mark, mark)
    ensures v.log == w.log && Reaches(p, w, mark, v, env)
    ensures env(w.clock).fsOk && env(w.clock + 1).fsOk ==> v == Left(w, s, Present({}), 2)
    ensures !env(w.clock).fsOk ==> v == Left(w, s, Apply(RemoveAll, At(w.tree, s), env(w.clock)).dir, 1)
  {
    var removed := Apply(RemoveAll, At(w.tree, s), env(w.clock));
    var u := Left(w, s, removed.dir, 1);
    v := u;
    FsRuns(p, w, env);
    if removed.ok {
      var made := Apply(MkdirAll, Absent, env(w.clock + 1));
      FsRuns(p.onOk, u, env);
      v := Left(u, s, made.dir, 1);
      LeftTwice(w, s, Absent, 1, made.dir, 1);
      Through(p, w, p.onOk, u, mark, v, env);
    }
  }

  // Share-oids tries every host once, in order, whatever fails.
  lemma ShareOidFilesAlways(hosts: seq<string>, w: World, env: Env) returns (ran: seq<Ran>)
    ensures OneEach(ran, hosts, h => Rsync(h)) && Exec(ShareOidFiles(hosts), w, env).log == w.log + ran
  {
    var p, mark, body := ShareOidFiles(hosts), ShareOidsAfterReset(hosts), RsyncEach(hosts, false);
    var v := CarriesOn(p, ShareOids, mark, w, env);
    var u := Left(v, ShareOids, Apply(Create(InProgress), At(v.tree, ShareOids), env(v.clock)).dir, 1);
    FsRuns(mark, v, env);
    Through(p, w, mark, v, body, u, env);
    var end;
    ran, end := RsyncEachAlways(hosts, false, u, env);
    Through(p, w, body, u, Done, end, env);
    ReachesDone(p, w, end, env);
  }

  // gpstop is run exactly when the mark could be written, in the directory as the
  // reset left it, even if the reset failed.
  lemma StopClusterAlways(s: Step, w: World, env: Env) returns (ran: seq<Ran>, v: World)
    ensures var marked := At(v.tree, s).Present? && env(v.clock).fsOk;
            if marked then |ran| == 1 && ran[0].command == GpStop(s) else ran == []
    ensures Exec(StopCluster(s, Done), w, env).log == w.log + ran
    ensures env(w.clock).fsOk && env(w.clock + 1).fsOk ==> v == Left(w, s, Present({}), 2)
    ensures !env(w.clock).fsOk ==> v == Left(w, s, Apply(RemoveAll, At(w.tree, s), env(w.clock)).dir, 1)
  {
    var p, mark, body := StopCluster(s, Done), StopAfterReset(s, Done), GpstopBody(s, Done);
    v := CarriesOn(p, s, mark, w, env);
    var r := Apply(Create(InProgress), At(v.tree, s), env(v.clock));
    var u := Left(v, s, r.dir, 1);
    FsRuns(mark, v, env);
    Through(p, w, mark, v, if r.ok then body else Done, u, env);
    if r.ok {
      ran := GpstopAlways(p, s, w, u, env);
    } else {
      ran := [];
      ReachesDone(p, w, u, env);
      assert w.log + [] == w.log;
    }
  }

  lemma GpstopAlways(p: Prog, s: Step, w: World, u: World, env: Env) returns (ran: seq<Ran>)
    requires Reaches(p, w, GpstopBody(s, Done), u, env) && u.log == w.log
    ensures |ran| == 1 && ran[0].command == GpStop(s) && Exec(p, w, env).log == w.log + ran
  {
    var first := Ran(GpStop(s), env(u.clock).commandOk);
    ran := [first];
    CommandRuns(GpstopBody(s, Done), u, env);
    var q := if first.ok then Conclude(s, Completed, Done, Done) else Conclude(s, Failed, Done, Done);
    Through(p, w, GpstopBody(s, Done), u, q, After(u, first), env);
    ReachesRuns(p, w, q, After(u, first), env);
    ConcludeLog(q, s, if first.ok then Completed else Failed, After(u, first), env);
  }
}

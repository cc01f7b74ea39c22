// What each job leaves behind when no filesystem call fails.
module FaultFree {
  import opened Markers
  import opened Programs
  import opened Earned

  ghost predicate NoFsFaults(env: Env) {
    forall n: nat :: env(n).fsOk
  }

  // w after n steps that left d in step s.
  function Left(w: World, s: Step, d: Dir, n: nat): World {
    World(w.tree[s := d], w.log, w.clock + n)
  }

  // w after a command.
  function After(w: World, ran: Ran): World {
    World(w.tree, w.log + [ran], w.clock + 1)
  }

  lemma LeftTwice(w: World, s: Step, d: Dir, n: nat, d': Dir, n': nat)
    ensures Left(Left(w, s, d, n), s, d', n') == Left(w, s, d', n + n')
  {
    assert w.tree[s := d][s := d'] == w.tree[s := d'];
  }

  // --- getting from one program to another -----------------------------------------

  // p, started in w, is q in v after n steps.
  ghost predicate ReachesIn(n: nat, p: Prog, w: World, q: Prog, v: World, env: Env) {
    if n == 0 then p == q && w == v
    else
      && !p.Done?
      && var r := Advance(w.tree, Job(p, w.log), env(w.clock));
         ReachesIn(n - 1, r.job.prog, World(r.tree, r.job.log, w.clock + 1), q, v, env)
  }

  ghost predicate Reaches(p: Prog, w: World, q: Prog, v: World, env: Env) {
    exists n: nat :: ReachesIn(n, p, w, q, v, env)
  }

  lemma {:induction false} ReachesInMore(n: nat, m: nat, p: Prog, w: World, q: Prog, v: World, r: Prog, u: World,
                                         env: Env)
    requires ReachesIn(n, p, w, q, v, env) && ReachesIn(m, q, v, r, u, env)
    ensures ReachesIn(n + m, p, w, r, u, env)
  {
    if n != 0 {
      var a := Advance(w.tree, Job(p, w.log), env(w.clock));
      ReachesInMore(n - 1, m, a.job.prog, World(a.tree, a.job.log, w.clock + 1), q, v, r, u, env);
    }
  }

  lemma Through(p: Prog, w: World, q: Prog, v: World, r: Prog, u: World, env: Env)
    requires Reaches(p, w, q, v, env) && Reaches(q, v, r, u, env)
    ensures Reaches(p, w, r, u, env)
  {
    var n: nat :| ReachesIn(n, p, w, q, v, env);
    var m: nat :| ReachesIn(m, q, v, r, u, env);
    ReachesInMore(n, m, p, w, q, v, r, u, env);
  }

  lemma {:induction false} ReachesInRuns(n: nat, p: Prog, w: World, q: Prog, v: World, env: Env)
    requires ReachesIn(n, p, w, q, v, env)
    ensures Exec(p, w, env) == Exec(q, v, env)
  {
    if n != 0 {
      var a := Advance(w.tree, Job(p, w.log), env(w.clock));
      ReachesInRuns(n - 1, a.job.prog, World(a.tree, a.job.log, w.clock + 1), q, v, env);
    }
  }

  lemma ReachesRuns(p: Prog, w: World, q: Prog, v: World, env: Env)
    requires Reaches(p, w, q, v, env)
    ensures Exec(p, w, env) == Exec(q, v, env)
  {
    var n: nat :| ReachesIn(n, p, w, q, v, env);
    ReachesInRuns(n, p, w, q, v, env);
  }

  lemma ReachesDone(p: Prog, w: World, v: World, env: Env)
    requires Reaches(p, w, Done, v, env)
    ensures Exec(p, w, env) == v
  {
    ReachesRuns(p, w, Done, v, env);
  }

  lemma Stays(p: Prog, w: World, env: Env)
    ensures Reaches(p, w, p, w, env)
  {
    assert ReachesIn(0, p, w, p, w, env);
  }

  lemma FsRuns(p: Prog, w: World, env: Env)
    requires p.Fs?
    ensures var r := Apply(p.call, At(w.tree, p.step), env(w.clock));
            Reaches(p, w, if r.ok then p.onOk else p.onErr, Left(w, p.step, r.dir, 1), env)
  {
    var r := Apply(p.call, At(w.tree, p.step), env(w.clock));
    var q, v := if r.ok then p.onOk else p.onErr, Left(w, p.step, r.dir, 1);
    assert ReachesIn(0, q, v, q, v, env);
    assert ReachesIn(1, p, w, q, v, env);
  }

  lemma CommandRuns(p: Prog, w: World, env: Env)
    requires p.Run?
    ensures var ok := env(w.clock).commandOk;
            Reaches(p, w, if ok then p.onOk else p.onErr, After(w, Ran(p.command, ok)), env)
  {
    var ok := env(w.clock).commandOk;
    var q, v := if ok then p.onOk else p.onErr, After(w, Ran(p.command, ok));
    assert ReachesIn(0, q, v, q, v, env);
    assert ReachesIn(1, p, w, q, v, env);
  }

  // --- the checklist manager ---------------------------------------------------------

  lemma ResetRuns(p: Prog, s: Step, ok: Prog, er: Prog, w: World, env: Env)
    requires NoFsFaults(env) && p == ResetStateDir(s, ok, er)
    ensures Reaches(p, w, ok, Left(w, s, Present({}), 2), env)
  {
    var removed := Left(w, s, Absent, 1);
    FsRuns(p, w, env);
    FsRuns(p.onOk, removed, env);
    LeftTwice(w, s, Absent, 1, Present({}), 1);
    Through(p, w, p.onOk, removed, ok, Left(w, s, Present({}), 2), env);
  }

  lemma MarkRuns(p: Prog, s: Step, ok: Prog, er: Prog, w: World, env: Env)
    requires NoFsFaults(env) && p == MarkInProgress(s, ok, er) && At(w.tree, s) == Present({})
    ensures Reaches(p, w, ok, Left(w, s, Present({InProgress}), 1), env)
  {
    assert {} + {InProgress} == {InProgress};
    FsRuns(p, w, env);
  }

  // Concluding a step that is in progress.
  lemma ConcludeRuns(p: Prog, s: Step, f: File, next: Prog, w: World, env: Env)
    requires NoFsFaults(env) && p == Conclude(s, f, next, next) && At(w.tree, s) == Present({InProgress})
    ensures Reaches(p, w, next, Left(w, s, Present({f}), 2), env)
  {
    assert {InProgress} - {InProgress} == {} && {} + {f} == {f};
    var cleared := Left(w, s, Present({}), 1);
    FsRuns(p, w, env);
    FsRuns(p.onOk, cleared, env);
    LeftTwice(w, s, Present({}), 1, Present({f}), 1);
    Through(p, w, p.onOk, cleared, next, Left(w, s, Present({f}), 2), env);
  }

  // Concluding a step that is not in progress changes nothing, whatever the
  // environment answers: the first Remove fails and no file is created.
  lemma SecondConcludeReaches(s: Step, f: File, ok: Prog, er: Prog, w: World, env: Env)
    requires InProgress !in Listing(At(w.tree, s))
    ensures Reaches(Conclude(s, f, ok, er), w, er, Left(w, s, At(w.tree, s), 1), env)
  {
    FsRuns(Conclude(s, f, ok, er), w, env);
  }

  lemma SecondConcludeIsNoop(s: Step, f: File, ok: Prog, er: Prog, w: World, env: Env)
    requires InProgress !in Listing(At(w.tree, s))
    ensures Exec(Conclude(s, f, ok, er), w, env) == Exec(er, Left(w, s, At(w.tree, s), 1), env)
  {
    SecondConcludeReaches(s, f, ok, er, w, env);
    ReachesRuns(Conclude(s, f, ok, er), w, er, Left(w, s, At(w.tree, s), 1), env);
  }

  // Resetting and marking in progress, whatever is done on errors.
  lemma OpeningRuns(p: Prog, s: Step, body: Prog, giveUp: Prog, onReset: Prog, w: World, env: Env)
    requires NoFsFaults(env) && p == ResetStateDir(s, MarkInProgress(s, body, giveUp), onReset)
    ensures Reaches(p, w, body, Left(w, s, Present({InProgress}), 3), env)
  {
    var mark, made := MarkInProgress(s, body, giveUp), Left(w, s, Present({}), 2);
    ResetRuns(p, s, mark, onReset, w, env);
    MarkRuns(mark, s, body, giveUp, made, env);
    LeftTwice(w, s, Present({}), 2, Present({InProgress}), 1);
    Through(p, w, mark, made, body, Left(w, s, Present({InProgress}), 3), env);
  }

  // The marker that a job leaves behind.
  function Verdict(ok: bool): Dir {
    Present({if ok then Completed else Failed})
  }

  lemma VerdictRuns(p: Prog, s: Step, ok: bool, next: Prog, w: World, env: Env)
    requires NoFsFaults(env) && At(w.tree, s) == Present({InProgress})
    requires p == Conclude(s, if ok then Completed else Failed, next, next)
    ensures Reaches(p, w, next, Left(w, s, Verdict(ok), 2), env)
  {
    ConcludeRuns(p, s, if ok then Completed else Failed, next, w, env);
  }

  // --- one command: gpstop and gpstart ------------------------------------------------

  // p runs c and concludes s by how that went.
  predicate Judges(p: Prog, s: Step, c: Command, next: Prog) {
    && p.Run? && p.command == c
    && p.onOk == Conclude(s, Completed, next, next) && p.onErr == Conclude(s, Failed, next, next)
  }

  // w after c has been run and judged, n steps later.
  function Judged(w: World, s: Step, ran: Ran, n: nat): World {
    World(w.tree[s := Verdict(ran.ok)], w.log + [ran], w.clock + n)
  }

  lemma JudgedRuns(p: Prog, s: Step, c: Command, next: Prog, w: World, env: Env)
    requires NoFsFaults(env) && Judges(p, s, c, next) && At(w.tree, s) == Present({InProgress})
    ensures Reaches(p, w, next, Judged(w, s, Ran(c, env(w.clock).commandOk), 3), env)
  {
    var ran := Ran(c, env(w.clock).commandOk);
    var q := if ran.ok then p.onOk else p.onErr;
    CommandRuns(p, w, env);
    VerdictRuns(q, s, ran.ok, next, After(w, ran), env);
    Through(p, w, q, After(w, ran), next, Judged(w, s, ran, 3), env);
  }

  lemma JudgedLater(w: World, s: Step, ran: Ran)
    ensures Judged(Left(w, s, Present({InProgress}), 3), s, ran, 3) == Judged(w, s, ran, 6)
  {
    assert w.tree[s := Present({InProgress})][s := Verdict(ran.ok)] == w.tree[s := Verdict(ran.ok)];
  }

  lemma ResetAndJudgedRuns(p: Prog, s: Step, c: Command, body: Prog, giveUp: Prog, onReset: Prog, next: Prog,
                           w: World, env: Env)
    requires NoFsFaults(env) && Judges(body, s, c, next)
    requires p == ResetStateDir(s, MarkInProgress(s, body, giveUp), onReset)
    ensures Reaches(p, w, next, Judged(w, s, Ran(c, env(w.clock + 3).commandOk), 6), env)
  {
    var ran, marked := Ran(c, env(w.clock + 3).commandOk), Left(w, s, Present({InProgress}), 3);
    OpeningRuns(p, s, body, giveUp, onReset, w, env);
    JudgedRuns(body, s, c, next, marked, env);
    JudgedLater(w, s, ran);
    Through(p, w, body, marked, next, Judged(w, s, ran, 6), env);
  }

  lemma StopClusterRuns(s: Step, next: Prog, w: World, env: Env)
    requires NoFsFaults(env)
    ensures Exec(StopCluster(s, next), w, env) ==
            Exec(next, Judged(w, s, Ran(GpStop(s), env(w.clock + 3).commandOk), 6), env)
  {
    var p, end := StopCluster(s, next), Judged(w, s, Ran(GpStop(s), env(w.clock + 3).commandOk), 6);
    ResetAndJudgedRuns(p, s, GpStop(s), GpstopBody(s, next), next, StopAfterReset(s, next), next, w, env);
    ReachesRuns(p, w, next, end, env);
  }

  // validate-start-cluster ends completed exactly when gpstart worked.
  lemma StartNewClusterRuns(w: World, env: Env) returns (ran: Ran)
    requires NoFsFaults(env)
    ensures ran.command == GpStart
    ensures Exec(StartNewCluster(), w, env) == Judged(w, ValidateStartCluster, ran, 6)
  {
    ran := Ran(GpStart, env(w.clock + 3).commandOk);
    ResetAndJudgedRuns(StartNewCluster(), ValidateStartCluster, GpStart, GpstartBody(), Done, Done, Done, w, env);
    ReachesDone(StartNewCluster(), w, Judged(w, ValidateStartCluster, ran, 6), env);
  }

  // --- one command per host -------------------------------------------------------------

  predicate AllOk(log: seq<Ran>) {
    forall r :: r in log ==> r.ok
  }

  lemma AllOkCons(first: Ran, rest: seq<Ran>)
    ensures AllOk([first] + rest) <==> first.ok && AllOk(rest)
  {
    assert forall r :: r in [first] + rest <==> r == first || r in rest;
  }

  // The commands run are one per host, in order.
  ghost predicate OneEach(ran: seq<Ran>, hosts: seq<string>, command: string -> Command) {
    |ran| == |hosts| && forall i :: 0 <= i < |hosts| ==> ran[i].command == command(hosts[i])
  }

  lemma OneEachCons(first: Ran, rest: seq<Ran>, hosts: seq<string>, command: string -> Command)
    requires hosts != [] && first.command == command(hosts[0]) && OneEach(rest, hosts[1..], command)
    ensures OneEach([first] + rest, hosts, command)
  {
  }

  // w after some commands, at time n.
  function Since(w: World, ran: seq<Ran>, n: nat): World {
    World(w.tree, w.log + ran, n)
  }

  lemma SinceTwice(w: World, ran: seq<Ran>, n: nat, more: seq<Ran>, n': nat)
    ensures Since(Since(w, ran, n), more, n') == Since(w, ran + more, n')
  {
    assert w.log + ran + more == w.log + (ran + more);
  }

  lemma {:induction false} SshEachRuns(hosts: seq<string>, anyFailed: bool, failed: Prog, clean: Prog, w: World,
                                       env: Env)
      returns (ran: seq<Ran>, n: nat)
    ensures OneEach(ran, hosts, h => Ssh(h))
    ensures Reaches(SshEach(hosts, anyFailed, failed, clean), w,
                    if anyFailed || !AllOk(ran) then failed else clean, Since(w, ran, n), env)
  {
    var p := SshEach(hosts, anyFailed, failed, clean);
    if hosts == [] {
      ran, n := [], w.clock;
      assert Since(w, [], n) == w;
      Stays(p, w, env);
    } else {
      var first := Ran(Ssh(hosts[0]), env(w.clock).commandOk);
      CommandRuns(p, w, env);
      var q, rest := SshEach(hosts[1..], anyFailed || !first.ok, failed, clean), [];
      rest, n := SshEachRuns(hosts[1..], anyFailed || !first.ok, failed, clean, Since(w, [first], w.clock + 1), env);
      ran := [first] + rest;
      OneEachCons(first, rest, hosts, h => Ssh(h));
      AllOkCons(first, rest);
      SinceTwice(w, [first], w.clock + 1, rest, n);
      Through(p, w, q, Since(w, [first], w.clock + 1),
              if anyFailed || !AllOk(ran) then failed else clean, Since(w, ran, n), env);
    }
  }

  // w after a job has run some commands and left its verdict.
  function Concluded(w: World, s: Step, ran: seq<Ran>, ok: bool, n: nat): World {
    World(w.tree[s := Verdict(ok)], w.log + ran, n)
  }

  // From the marked directory through some commands to the verdict.
  lemma EndsWith(body: Prog, s: Step, ran: seq<Ran>, n: nat, ok: bool, last: Prog, w: World, env: Env)
    requires NoFsFaults(env) && last == HandleStatusLogging(s, !ok)
    requires Reaches(body, Left(w, s, Present({InProgress}), 3), last,
                     Since(Left(w, s, Present({InProgress}), 3), ran, n), env)
    ensures Reaches(body, Left(w, s, Present({InProgress}), 3), Done, Concluded(w, s, ran, ok, n + 2), env)
  {
    var marked := Left(w, s, Present({InProgress}), 3);
    var v, end := Since(marked, ran, n), Concluded(w, s, ran, ok, n + 2);
    VerdictRuns(last, s, ok, Done, v, env);
    assert Left(v, s, Verdict(ok), 2) == end by {
      assert marked.tree[s := Verdict(ok)] == w.tree[s := Verdict(ok)];
    }
    Through(body, marked, last, v, Done, end, env);
  }

  // A guarded job, from its body's run.
  lemma GuardedRuns(p: Prog, s: Step, body: Prog, giveUp: Prog, w: World, end: World, env: Env)
    requires NoFsFaults(env) && p == ResetStateDir(s, MarkInProgress(s, body, giveUp), giveUp)
    requires Reaches(body, Left(w, s, Present({InProgress}), 3), Done, end, env)
    ensures Exec(p, w, env) == end
  {
    OpeningRuns(p, s, body, giveUp, giveUp, w, env);
    Through(p, w, body, Left(w, s, Present({InProgress}), 3), Done, end, env);
    ReachesDone(p, w, end, env);
  }

  // Seginstall ends completed exactly when every host's command worked.
  lemma VerifySoftwareRuns(hosts: seq<string>, w: World, env: Env) returns (ran: seq<Ran>, n: nat)
    requires NoFsFaults(env)
    ensures OneEach(ran, hosts, h => Ssh(h))
    ensures Exec(VerifySoftware(hosts), w, env) == Concluded(w, Seginstall, ran, AllOk(ran), n)
  {
    var s, m := Seginstall, 0;
    var failed, clean := HandleStatusLogging(s, true), HandleStatusLogging(s, false);
    var body := SshEach(hosts, false, failed, clean);
    ran, m := SshEachRuns(hosts, false, failed, clean, Left(w, s, Present({InProgress}), 3), env);
    EndsWith(body, s, ran, m, AllOk(ran), if AllOk(ran) then clean else failed, w, env);
    n := m + 2;
    GuardedRuns(VerifySoftware(hosts), s, body, failed, w, Concluded(w, s, ran, AllOk(ran), n), env);
  }

  // --- rounds of pings --------------------------------------------------------------------

  lemma {:induction false} PingAllRuns(agents: seq<string>, ok: Prog, er: Prog, w: World, env: Env)
      returns (ran: seq<Ran>, n: nat, up: bool)
    ensures if up then ran == AllPinged(agents) else RoundFailed(ran, agents)
    ensures Reaches(PingAllAgents(agents, ok, er), w, if up then ok else er, Since(w, ran, n), env)
  {
    var p := PingAllAgents(agents, ok, er);
    if agents == [] {
      ran, n, up := [], w.clock, true;
      assert Since(w, [], n) == w;
      Stays(p, w, env);
    } else {
      var first := Ran(Ping(agents[0]), env(w.clock).commandOk);
      var v := Since(w, [first], w.clock + 1);
      CommandRuns(p, w, env);
      if first.ok {
        var rest;
        rest, n, up := PingAllRuns(agents[1..], ok, er, v, env);
        ran := [first] + rest;
        SinceTwice(w, [first], w.clock + 1, rest, n);
        Through(p, w, PingAllAgents(agents[1..], ok, er), v, if up then ok else er, Since(w, ran, n), env);
        if !up { LaterFailure(rest, agents); }
      } else {
        ran, n, up := [first], w.clock + 1, false;
        FirstFailure(agents);
      }
    }
  }

  // The pings are answered in some round, or all the rounds fail.
  ghost predicate PollEnds(pings: seq<Ran>, agents: seq<string>, rounds: nat, up: bool) {
    if up then
      exists failed, k: nat ::
        k < rounds && RoundsFailed(failed, agents, k) && pings == failed + AllPinged(agents)
    else RoundsFailed(pings, agents, rounds)
  }

  // `before` are the rounds that have failed so far.
  lemma {:induction false} PingPollRuns(rounds: nat, agents: seq<string>, ok: Prog, er: Prog, w: World, env: Env,
                                        failed: nat, before: seq<Ran>) returns (ran: seq<Ran>, n: nat, up: bool)
    requires RoundsFailed(before, agents, failed)
    ensures PollEnds(before + ran, agents, failed + rounds, up)
    ensures Reaches(PingPollAgents(rounds, agents, ok, er), w, if up then ok else er, Since(w, ran, n), env)
  {
    var p := PingPollAgents(rounds, agents, ok, er);
    if rounds == 0 {
      ran, n, up := [], w.clock, false;
      assert Since(w, [], n) == w && before + [] == before;
      Stays(p, w, env);
    } else {
      var next := PingPollAgents(rounds - 1, agents, ok, er);
      ran, n, up := PingAllRuns(agents, ok, next, w, env);
      if !up {
        OneMoreRound(before, ran, agents, failed);
        var round, m, rest := ran, n, [];
        rest, n, up := PingPollRuns(rounds - 1, agents, ok, er, Since(w, round, m), env, failed + 1, before + round);
        ran := round + rest;
        assert before + round + rest == before + ran;
        SinceTwice(w, round, m, rest, n);
        Through(p, w, next, Since(w, round, m), if up then ok else er, Since(w, ran, n), env);
      }
    }
  }

  lemma SentAndPinged(hosts: seq<string>, agents: seq<string>, body: Prog, w: World, env: Env)
      returns (sshs: seq<Ran>, pings: seq<Ran>, up: bool, n: nat)
    requires body == SshEach(hosts, false, Pings(agents), Pings(agents))
    ensures OneEach(sshs, hosts, h => Ssh(h))
    ensures if up then Reached(pings, agents) else RoundsFailed(pings, agents, 10)
    ensures Reaches(body, w, HandleStatusLogging(StartAgents, !up), Since(w, sshs + pings, n), env)
  {
    var p, m := Pings(agents), 0;
    sshs, m := SshEachRuns(hosts, false, p, p, w, env);
    pings, n, up := PingsRun(agents, Since(w, sshs, m), env);
    SinceTwice(w, sshs, m, pings, n);
    Through(body, w, p, Since(w, sshs, m), HandleStatusLogging(StartAgents, !up), Since(w, sshs + pings, n), env);
  }

  lemma PingsRun(agents: seq<string>, w: World, env: Env) returns (ran: seq<Ran>, n: nat, up: bool)
    ensures if up then Reached(ran, agents) else RoundsFailed(ran, agents, 10)
    ensures Reaches(Pings(agents), w, HandleStatusLogging(StartAgents, !up), Since(w, ran, n), env)
  {
    var clean, failed := HandleStatusLogging(StartAgents, false), HandleStatusLogging(StartAgents, true);
    ran, n, up := PingPollRuns(PING_ROUNDS, agents, clean, failed, w, env, 0, []);
    assert [] + ran == ran;
    TenRounds(ran, agents, up);
  }

  lemma TenRounds(pings: seq<Ran>, agents: seq<string>, up: bool)
    requires PollEnds(pings, agents, PING_ROUNDS, up)
    ensures if up then Reached(pings, agents) else RoundsFailed(pings, agents, 10)
  {
  }

  // Start-agents ends completed exactly when some round of ten was answered by
  // all agents, whatever the remote commands did.
  lemma StartRuns(hosts: seq<string>, agents: seq<string>, w: World, env: Env)
      returns (sshs: seq<Ran>, pings: seq<Ran>, up: bool, n: nat)
    requires NoFsFaults(env)
    ensures OneEach(sshs, hosts, h => Ssh(h))
    ensures if up then Reached(pings, agents) else RoundsFailed(pings, agents, 10)
    ensures Exec(Start(hosts, agents), w, env) == Concluded(w, StartAgents, sshs + pings, up, n)
  {
    var s, p := StartAgents, Pings(agents);
    var body := SshEach(hosts, false, p, p);
    sshs, pings, up, n := SentAndPinged(hosts, agents, body, Left(w, s, Present({InProgress}), 3), env);
    EndsWith(body, s, sshs + pings, n, up, HandleStatusLogging(s, !up), w, env);
    n := n + 2;
    GuardedRuns(Start(hosts, agents), s, body, p, w, Concluded(w, s, sshs + pings, up, n), env);
  }

  // --- share-oids --------------------------------------------------------------------------

  // One rsync per host in order; the marker says whether all of them worked.
  lemma {:induction false} RsyncEachRuns(hosts: seq<string>, anyFailed: bool, w: World, env: Env)
      returns (ran: seq<Ran>, n: nat)
    requires NoFsFaults(env)
    requires At(w.tree, ShareOids) == Present({if anyFailed then Failed else InProgress})
    ensures OneEach(ran, hosts, h => Rsync(h))
    ensures Reaches(RsyncEach(hosts, anyFailed), w, Done, Concluded(w, ShareOids, ran, !anyFailed && AllOk(ran), n),
            env)
    decreases hosts
  {
    if hosts == [] {
      ran := [];
      n := NoHostLeft(anyFailed, w, env);
    } else {
      var first := Ran(Rsync(hosts[0]), env(w.clock).commandOk);
      var v := HostDone(hosts, anyFailed, first, w, env);
      var rest;
      rest, n := RsyncEachRuns(hosts[1..], anyFailed || !first.ok, v, env);
      ran := [first] + rest;
      OneEachCons(first, rest, hosts, h => Rsync(h));
      AllOkCons(first, rest);
      var end := Concluded(w, ShareOids, ran, !anyFailed && AllOk(ran), n);
      ConcludedLater(w, v, ShareOids, first, rest, !anyFailed && AllOk(ran), n);
      Through(RsyncEach(hosts, anyFailed), w, RsyncEach(hosts[1..], anyFailed || !first.ok), v, Done, end, env);
    }
  }

  lemma ConcludedLater(w: World, v: World, s: Step, first: Ran, rest: seq<Ran>, ok: bool, n: nat)
    requires v.log == w.log + [first] && v.tree == w.tree[s := At(v.tree, s)]
    ensures Concluded(v, s, rest, ok, n) == Concluded(w, s, [first] + rest, ok, n)
  {
    assert w.log + [first] + rest == w.log + ([first] + rest);
    assert w.tree[s := At(v.tree, s)][s := Verdict(ok)] == w.tree[s := Verdict(ok)];
  }

  lemma NoHostLeft(anyFailed: bool, w: World, env: Env) returns (n: nat)
    requires NoFsFaults(env)
    requires At(w.tree, ShareOids) == Present({if anyFailed then Failed else InProgress})
    ensures Reaches(RsyncEach([], anyFailed), w, Done, Concluded(w, ShareOids, [], !anyFailed, n), env)
  {
    if anyFailed {
      n := w.clock;
      assert Concluded(w, ShareOids, [], false, n) == w by {
        assert w.tree[ShareOids := Present({Failed})] == w.tree by { assert ShareOids in w.tree; }
      }
      Stays(Done, w, env);
    } else {
      n := w.clock + 2;
      VerdictRuns(RsyncEach([], false), ShareOids, true, Done, w, env);
      assert Concluded(w, ShareOids, [], true, n) == Left(w, ShareOids, Verdict(true), 2);
    }
  }

  // One round of the loop: the rsync and, if it fails, marking failed, for the
  // first time or again.
  lemma HostDone(hosts: seq<string>, anyFailed: bool, first: Ran, w: World, env: Env) returns (v: World)
    requires NoFsFaults(env) && hosts != [] && first == Ran(Rsync(hosts[0]), env(w.clock).commandOk)
    requires At(w.tree, ShareOids) == Present({if anyFailed then Failed else InProgress})
    ensures v.log == w.log + [first] && v.tree == w.tree[ShareOids := At(v.tree, ShareOids)]
    ensures At(v.tree, ShareOids) == Present({if anyFailed || !first.ok then Failed else InProgress})
    ensures Reaches(RsyncEach(hosts, anyFailed), w, RsyncEach(hosts[1..], anyFailed || !first.ok), v, env)
  {
    var p, ran := RsyncEach(hosts, anyFailed), After(w, first);
    CommandRuns(p, w, env);
    if first.ok {
      v := ran;
      assert w.tree[ShareOids := At(v.tree, ShareOids)] == w.tree by { assert ShareOids in w.tree; }
    } else {
      var onward := RsyncEach(hosts[1..], true);
      var steps := MarkedFailed(anyFailed, onward, ran, env);
      v := Left(ran, ShareOids, Present({Failed}), steps);
      Through(p, w, Conclude(ShareOids, Failed, onward, onward), ran, onward, v, env);
    }
  }

  lemma MarkedFailed(again: bool, onward: Prog, w: World, env: Env) returns (steps: nat)
    requires NoFsFaults(env)
    requires At(w.tree, ShareOids) == Present({if again then Failed else InProgress})
    ensures Reaches(Conclude(ShareOids, Failed, onward, onward), w, onward,
            Left(w, ShareOids, Present({Failed}), steps), env)
  {
    if again {
      steps := 1;
      SecondConcludeReaches(ShareOids, Failed, onward, onward, w, env);
    } else {
      steps := 2;
      ConcludeRuns(Conclude(ShareOids, Failed, onward, onward), ShareOids, Failed, onward, w, env);
    }
  }

  lemma ShareOidFilesRuns(hosts: seq<string>, w: World, env: Env) returns (ran: seq<Ran>, n: nat)
    requires NoFsFaults(env)
    ensures OneEach(ran, hosts, h => Rsync(h))
    ensures Exec(ShareOidFiles(hosts), w, env) == Concluded(w, ShareOids, ran, AllOk(ran), n)
  {
    var s, p, body := ShareOids, ShareOidFiles(hosts), RsyncEach(hosts, false);
    var marked := Left(w, s, Present({InProgress}), 3);
    OpeningRuns(p, s, body, body, ShareOidsAfterReset(hosts), w, env);
    ran, n := RsyncEachRuns(hosts, false, marked, env);
    var end := Concluded(w, s, ran, AllOk(ran), n);
    assert Concluded(marked, s, ran, AllOk(ran), n) == end by {
      assert marked.tree[s := Verdict(AllOk(ran))] == w.tree[s := Verdict(AllOk(ran))];
    }
    Through(p, w, body, marked, Done, end, env);
    ReachesDone(p, w, end, env);
  }
}

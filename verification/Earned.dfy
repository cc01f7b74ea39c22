// A `completed` marker is only ever written by a run whose success condition
// held: what the commands of that run answered, for each background job.
module Earned {
  import opened Markers
  import opened Programs
  import opened Operations

  function AllSsh(hosts: seq<string>): seq<Ran> {
    if hosts == [] then [] else [Ran(Ssh(hosts[0]), true)] + AllSsh(hosts[1..])
  }

  function AllRsync(hosts: seq<string>): seq<Ran> {
    if hosts == [] then [] else [Ran(Rsync(hosts[0]), true)] + AllRsync(hosts[1..])
  }

  // A ping round in which every agent answered.
  function AllPinged(agents: seq<string>): seq<Ran> {
    if agents == [] then [] else [Ran(Ping(agents[0]), true)] + AllPinged(agents[1..])
  }

  // A ping round given up at the first agent that did not answer.
  ghost predicate RoundFailed(r: seq<Ran>, agents: seq<string>) {
    exists k :: 0 <= k < |agents| && r == AllPinged(agents[..k]) + [Ran(Ping(agents[k]), false)]
  }

  ghost predicate RoundsFailed(log: seq<Ran>, agents: seq<string>, n: nat)
    decreases n
  {
    if n == 0 then log == []
    else exists i :: 0 <= i <= |log| && RoundsFailed(log[..i], agents, n - 1) && RoundFailed(log[i..], agents)
  }

  // Nothing, or one ssh to each host in order with whatever outcome.
  ghost predicate SshPart(log: seq<Ran>, hosts: seq<string>) {
    log == [] || (|log| == |hosts| && forall i :: 0 <= i < |log| ==> log[i].command == Ssh(hosts[i]))
  }

  // Fewer than ten failed rounds, then one in which all answered.
  ghost predicate Reached(pings: seq<Ran>, agents: seq<string>) {
    exists failed, n: nat :: n < 10 && RoundsFailed(failed, agents, n) && pings == failed + AllPinged(agents)
  }

  ghost predicate Answered(log: seq<Ran>, hosts: seq<string>, agents: seq<string>) {
    exists before, pings :: SshPart(before, hosts) && Reached(pings, agents) && log == before + pings
  }

  // The commands a run of t has issued entitle it to complete step s.
  ghost predicate EarnedBy(t: Operation, s: Step, log: seq<Ran>) {
    match t
    case CheckSeginstall(hosts) => s == Seginstall && log == AllSsh(hosts)
    case PrepareStartAgents(hosts, agents) => s == StartAgents && Answered(log, hosts, agents)
    case UpgradeShareOids(hosts) => s == ShareOids && log == AllRsync(hosts)
    case UpgradeValidateStartCluster => s == ValidateStartCluster && log == [Ran(GpStart, true)]
    case PrepareShutdownClusters(old_, new_) =>
      && (s == GpstopOld || s == GpstopNew)
      && (if s == GpstopOld then old_ else new_)
      && log != [] && log[|log| - 1] == Ran(GpStop(s), true)
  }

  // Having issued log, p writes Completed only when t has earned it.
  ghost predicate Earns(p: Prog, log: seq<Ran>, t: Operation) {
    match p
    case Done => true
    case Run(c, ok, er) => Earns(ok, log + [Ran(c, true)], t) && Earns(er, log + [Ran(c, false)], t)
    case Fs(s, c, ok, er) =>
      && (c == Create(Completed) ==> EarnedBy(t, s, log))
      && Earns(ok, log, t) && Earns(er, log, t)
  }

  lemma ConcludeEarns(s: Step, f: File, next: Prog, log: seq<Ran>, t: Operation)
    requires Earns(next, log, t)
    requires f == Completed ==> EarnedBy(t, s, log)
    ensures Earns(Conclude(s, f, next, next), log, t)
  {
    assert Earns(Fs(s, Create(f), next, next), log, t);
  }

  lemma ResetEarns(s: Step, body: Prog, giveUp: Prog, onReset: Prog, log: seq<Ran>, t: Operation)
    requires Earns(body, log, t) && Earns(giveUp, log, t)
    requires Earns(onReset, log, t) || onReset == MarkInProgress(s, body, giveUp)
    ensures Earns(ResetStateDir(s, MarkInProgress(s, body, giveUp), onReset), log, t)
  {
    var mark := MarkInProgress(s, body, giveUp);
    assert Earns(mark, log, t);
    assert Earns(Fs(s, MkdirAll, mark, onReset), log, t);
  }

  lemma {:induction false} SshEachEarns(hosts: seq<string>, anyFailed: bool, log: seq<Ran>, t: Operation)
    requires t.CheckSeginstall?
    requires !anyFailed ==> log + AllSsh(hosts) == AllSsh(t.hosts)
    ensures var failed, clean := HandleStatusLogging(Seginstall, true), HandleStatusLogging(Seginstall, false);
            Earns(SshEach(hosts, anyFailed, failed, clean), log, t)
  {
    if hosts == [] {
      assert log + [] == log;
      ConcludeEarns(Seginstall, if anyFailed then Failed else Completed, Done, log, t);
    } else {
      assert log + [Ran(Ssh(hosts[0]), true)] + AllSsh(hosts[1..]) == log + AllSsh(hosts);
      SshEachEarns(hosts[1..], anyFailed, log + [Ran(Ssh(hosts[0]), true)], t);
      SshEachEarns(hosts[1..], true, log + [Ran(Ssh(hosts[0]), false)], t);
    }
  }

  // A round fails at its first agent, or later.
  lemma FirstFailure(agents: seq<string>)
    requires agents != []
    ensures RoundFailed([Ran(Ping(agents[0]), false)], agents)
  {
    assert AllPinged(agents[..0]) + [Ran(Ping(agents[0]), false)] == [Ran(Ping(agents[0]), false)];
  }

  lemma LaterFailure(r: seq<Ran>, agents: seq<string>)
    requires agents != [] && RoundFailed(r, agents[1..])
    ensures RoundFailed([Ran(Ping(agents[0]), true)] + r, agents)
  {
    var rest := agents[1..];
    var k :| 0 <= k < |rest| && r == AllPinged(rest[..k]) + [Ran(Ping(rest[k]), false)];
    assert agents[..k + 1][1..] == rest[..k];
    assert [Ran(Ping(agents[0]), true)] + r == AllPinged(agents[..k + 1]) + [Ran(Ping(agents[k + 1]), false)];
  }

  lemma {:induction false} PingAllEarns(agents: seq<string>, ok: Prog, er: Prog, log: seq<Ran>, t: Operation)
    requires Earns(ok, log + AllPinged(agents), t)
    requires forall r :: RoundFailed(r, agents) ==> Earns(er, log + r, t)
    ensures Earns(PingAllAgents(agents, ok, er), log, t)
  {
    if agents == [] {
      assert log + AllPinged(agents) == log;
    } else {
      var up := Ran(Ping(agents[0]), true);
      assert log + [up] + AllPinged(agents[1..]) == log + AllPinged(agents);
      forall r | RoundFailed(r, agents[1..]) ensures Earns(er, log + [up] + r, t) {
        LaterFailure(r, agents);
        assert log + [up] + r == log + ([up] + r);
      }
      PingAllEarns(agents[1..], ok, er, log + [up], t);
      FirstFailure(agents);
    }
  }

  lemma OneMoreRound(failed: seq<Ran>, r: seq<Ran>, agents: seq<string>, n: nat)
    requires RoundsFailed(failed, agents, n) && RoundFailed(r, agents)
    ensures RoundsFailed(failed + r, agents, n + 1)
  {
    var log := failed + r;
    assert log[..|failed|] == failed && log[|failed|..] == r;
  }

  lemma {:induction false} PingPollEarns(rounds: nat, n: nat, before: seq<Ran>, failed: seq<Ran>, t: Operation)
    requires t.PrepareStartAgents? && rounds + n == PING_ROUNDS
    requires SshPart(before, t.hosts) && RoundsFailed(failed, t.agents, n)
    ensures Earns(PingPollAgents(rounds, t.agents,
                                 HandleStatusLogging(StartAgents, false), HandleStatusLogging(StartAgents, true)),
                  before + failed, t)
  {
    var clean, failing := HandleStatusLogging(StartAgents, false), HandleStatusLogging(StartAgents, true);
    var log := before + failed;
    if rounds == 0 {
      ConcludeEarns(StartAgents, Failed, Done, log, t);
    } else {
      var next := PingPollAgents(rounds - 1, t.agents, clean, failing);
      AnsweredEarns(before, failed, n, t);
      forall r | RoundFailed(r, t.agents) ensures Earns(next, before + (failed + r), t) {
        OneMoreRound(failed, r, t.agents, n);
        PingPollEarns(rounds - 1, n + 1, before, failed + r, t);
      }
      RoundEarns(before, failed, clean, next, t);
    }
  }

  lemma RoundEarns(before: seq<Ran>, failed: seq<Ran>, clean: Prog, next: Prog, t: Operation)
    requires t.PrepareStartAgents? && Earns(clean, before + failed + AllPinged(t.agents), t)
    requires forall r :: RoundFailed(r, t.agents) ==> Earns(next, before + (failed + r), t)
    ensures Earns(PingAllAgents(t.agents, clean, next), before + failed, t)
  {
    forall r | RoundFailed(r, t.agents) ensures Earns(next, before + failed + r, t) {
      assert before + failed + r == before + (failed + r);
    }
    PingAllEarns(t.agents, clean, next, before + failed, t);
  }

  lemma AnsweredEarns(before: seq<Ran>, failed: seq<Ran>, n: nat, t: Operation)
    requires t.PrepareStartAgents? && n < PING_ROUNDS
    requires SshPart(before, t.hosts) && RoundsFailed(failed, t.agents, n)
    ensures Earns(HandleStatusLogging(StartAgents, false), before + failed + AllPinged(t.agents), t)
  {
    var pings := failed + AllPinged(t.agents);
    assert Reached(pings, t.agents);
    assert before + failed + AllPinged(t.agents) == before + pings;
    ConcludeEarns(StartAgents, Completed, Done, before + pings, t);
  }

  // Ssh to every host, then go on with next whatever the outcomes.
  lemma {:induction false} SshEachThenEarns(hosts: seq<string>, anyFailed: bool, next: Prog, log: seq<Ran>,
                                            t: Operation)
    requires t.PrepareStartAgents?
    requires |log| + |hosts| == |t.hosts| && hosts == t.hosts[|log|..]
    requires forall i :: 0 <= i < |log| ==> log[i].command == Ssh(t.hosts[i])
    requires forall l :: SshPart(l, t.hosts) ==> Earns(next, l, t)
    ensures Earns(SshEach(hosts, anyFailed, next, next), log, t)
  {
    if hosts == [] {
      assert SshPart(log, t.hosts);
    } else {
      SshEachThenEarns(hosts[1..], anyFailed, next, log + [Ran(Ssh(hosts[0]), true)], t);
      SshEachThenEarns(hosts[1..], true, next, log + [Ran(Ssh(hosts[0]), false)], t);
    }
  }

  // Once an rsync has failed, the driver never writes Completed.
  lemma {:induction false} RsyncEachEarns(hosts: seq<string>, anyFailed: bool, log: seq<Ran>, t: Operation)
    requires t.UpgradeShareOids?
    requires !anyFailed ==> log + AllRsync(hosts) == AllRsync(t.hosts)
    ensures Earns(RsyncEach(hosts, anyFailed), log, t)
  {
    if hosts == [] {
      assert log + [] == log;
      if !anyFailed { ConcludeEarns(ShareOids, Completed, Done, log, t); }
    } else {
      var ok, er := log + [Ran(Rsync(hosts[0]), true)], log + [Ran(Rsync(hosts[0]), false)];
      assert ok + AllRsync(hosts[1..]) == log + AllRsync(hosts);
      RsyncEachEarns(hosts[1..], anyFailed, ok, t);
      RsyncEachEarns(hosts[1..], true, er, t);
      ConcludeEarns(ShareOids, Failed, RsyncEach(hosts[1..], true), er, t);
    }
  }

  lemma StopEarns(s: Step, next: Prog, log: seq<Ran>, t: Operation)
    requires forall l :: Earns(next, l, t)
    requires t.PrepareShutdownClusters? && (s == GpstopOld || s == GpstopNew)
    requires if s == GpstopOld then t.oldRunning else t.newRunning
    ensures Earns(StopCluster(s, next), log, t)
  {
    ConcludeEarns(s, Completed, next, log + [Ran(GpStop(s), true)], t);
    ConcludeEarns(s, Failed, next, log + [Ran(GpStop(s), false)], t);
    ResetEarns(s, GpstopBody(s, next), next, StopAfterReset(s, next), log, t);
  }

  lemma VerifySoftwareEarns(t: Operation)
    requires t.CheckSeginstall?
    ensures Earns(Program(t), [], t)
  {
    var failed, clean := HandleStatusLogging(Seginstall, true), HandleStatusLogging(Seginstall, false);
    SshEachEarns(t.hosts, false, [], t);
    ConcludeEarns(Seginstall, Failed, Done, [], t);
    ResetEarns(Seginstall, SshEach(t.hosts, false, failed, clean), failed, failed, [], t);
  }

  lemma StartEarns(t: Operation)
    requires t.PrepareStartAgents?
    ensures Earns(Program(t), [], t)
  {
    var pings := Pings(t.agents);
    forall l | SshPart(l, t.hosts) ensures Earns(pings, l, t) {
      PingPollEarns(PING_ROUNDS, 0, l, [], t);
      assert l + [] == l;
    }
    SshEachThenEarns(t.hosts, false, pings, [], t);
    ResetEarns(StartAgents, SshEach(t.hosts, false, pings, pings), pings, pings, [], t);
  }

  lemma StartNewClusterEarns(t: Operation)
    requires t.UpgradeValidateStartCluster?
    ensures Earns(Program(t), [], t)
  {
    var s := ValidateStartCluster;
    ConcludeEarns(s, Completed, Done, [Ran(GpStart, true)], t);
    ConcludeEarns(s, Failed, Done, [Ran(GpStart, false)], t);
    assert [] + [Ran(GpStart, true)] == [Ran(GpStart, true)] && [] + [Ran(GpStart, false)] == [Ran(GpStart, false)];
    ResetEarns(s, GpstartBody(), Done, Done, [], t);
  }

  lemma ProgramEarns(t: Operation)
    ensures Earns(Program(t), [], t)
  {
    match t
    case CheckSeginstall(_) => VerifySoftwareEarns(t);
    case PrepareStartAgents(_, _) => StartEarns(t);
    case UpgradeShareOids(hosts) =>
      RsyncEachEarns(hosts, false, [], t);
      ResetEarns(ShareOids, RsyncEach(hosts, false), RsyncEach(hosts, false), ShareOidsAfterReset(hosts), [], t);
    case UpgradeValidateStartCluster => StartNewClusterEarns(t);
    case PrepareShutdownClusters(old_, new_) =>
      forall l ensures Earns(StopNew(new_), l, t) {
        if new_ { StopEarns(GpstopNew, Done, l, t); }
      }
      if old_ { StopEarns(GpstopOld, StopNew(new_), [], t); }
  }
}

// The background jobs as the hub runs them, each proved to be its program.
module Drivers {
  import opened Markers
  import opened Programs
  import opened Checklist
  import CR = ConfigReader

  // The agents the hub has clients for; empty when the configuration could not
  // be read.
  class PingerManager {
    const m: Machine
    const rpcClients: seq<string>

    constructor (m: Machine, rpcClients: seq<string>)
      ensures this.m == m && this.rpcClients == rpcClients
    {
      this.m := m;
      this.rpcClients := rpcClients;
    }

    method PingPollAgents() returns (ok: bool)
      modifies m
      ensures forall a, b :: Exec(Programs.PingPollAgents(PING_ROUNDS, rpcClients, a, b), old(m.Now()), m.env) ==
                             Exec(if ok then a else b, m.Now(), m.env)
      ensures m.tree == old(m.tree)
    {
      ok := false;
      var i := 0;
      while i < PING_ROUNDS
        invariant 0 <= i <= PING_ROUNDS && !ok
        invariant m.tree == old(m.tree)
        invariant forall a, b :: Exec(Programs.PingPollAgents(PING_ROUNDS, rpcClients, a, b), old(m.Now()), m.env) ==
                                 Exec(Programs.PingPollAgents(PING_ROUNDS - i, rpcClients, a, b), m.Now(), m.env)
      {
        ok := PingAllAgents();
        if ok {
          return;
        }
        i := i + 1;
      }
    }

    method PingAllAgents() returns (ok: bool)
      modifies m
      ensures forall a, b :: Exec(Programs.PingAllAgents(rpcClients, a, b), old(m.Now()), m.env) ==
                             Exec(if ok then a else b, m.Now(), m.env)
      ensures m.tree == old(m.tree)
    {
      assert rpcClients[0..] == rpcClients;
      for i := 0 to |rpcClients|
        invariant m.tree == old(m.tree)
        invariant forall a, b :: Exec(Programs.PingAllAgents(rpcClients, a, b), old(m.Now()), m.env) ==
                                 Exec(Programs.PingAllAgents(rpcClients[i..], a, b), m.Now(), m.env)
      {
        assert rpcClients[i..][1..] == rpcClients[i + 1..];
        ok := m.Execute(Ping(rpcClients[i]));
        if !ok {
          return;
        }
      }
      ok := true;
    }
  }

  class ClusterSsher {
    const m: Machine
    const checklistWriter: ChecklistManager
    const agentPinger: PingerManager

    predicate Valid() {
      checklistWriter.m == m && agentPinger.m == m
    }

    constructor (cw: ChecklistManager, ap: PingerManager)
      requires cw.m == ap.m
      ensures Valid() && m == cw.m && checklistWriter == cw && agentPinger == ap
    {
      m := cw.m;
      checklistWriter := cw;
      agentPinger := ap;
    }

    method RemoteExec(hostnames: seq<string>, s: Step) returns (anyFailed: bool)
      requires Valid()
      modifies m
      ensures forall failed, clean :: Exec(Programs.RemoteExec(s, hostnames, failed, clean), old(m.Now()), m.env) ==
                                      Exec(if anyFailed then failed else clean, m.Now(), m.env)
    {
      var ok := checklistWriter.ResetStateDir(s);
      if !ok {
        return true;
      }
      ok := checklistWriter.MarkInProgress(s);
      if !ok {
        return true;
      }
      anyFailed := SshToEach(hostnames);
    }

    // The loop of RemoteExec.
    method SshToEach(hostnames: seq<string>) returns (anyFailed: bool)
      modifies m
      ensures forall failed, clean :: Exec(SshEach(hostnames, false, failed, clean), old(m.Now()), m.env) ==
                                      Exec(if anyFailed then failed else clean, m.Now(), m.env)
    {
      anyFailed := false;
      assert hostnames[0..] == hostnames;
      for i := 0 to |hostnames|
        invariant forall failed, clean :: Exec(SshEach(hostnames, false, failed, clean), old(m.Now()), m.env) ==
                                          Exec(SshEach(hostnames[i..], anyFailed, failed, clean), m.Now(), m.env)
      {
        assert hostnames[i..][1..] == hostnames[i + 1..];
        var ran := m.Execute(Ssh(hostnames[i]));
        if !ran {
          anyFailed := true;
        }
      }
    }

    method HandleStatusLogging(s: Step, anyFailed: bool)
      requires Valid()
      modifies m
      ensures m.Now() == Exec(Programs.HandleStatusLogging(s, anyFailed), old(m.Now()), m.env)
    {
      if anyFailed {
        var _ := checklistWriter.MarkFailed(s);
        return;
      }
      var _ := checklistWriter.MarkComplete(s);
    }

    method VerifySoftware(hostnames: seq<string>)
      requires Valid()
      modifies m
      ensures m.Now() == Exec(Programs.VerifySoftware(hostnames), old(m.Now()), m.env)
    {
      var anyFailed := RemoteExec(hostnames, Seginstall);
      HandleStatusLogging(Seginstall, anyFailed);
    }

    method Start(hostnames: seq<string>)
      requires Valid()
      modifies m
      ensures m.Now() == Exec(Programs.Start(hostnames, agentPinger.rpcClients), old(m.Now()), m.env)
    {
      ghost var pings := Pings(agentPinger.rpcClients);
      var _ := RemoteExec(hostnames, StartAgents);
      assert Exec(Programs.RemoteExec(StartAgents, hostnames, pings, pings), old(m.Now()), m.env) ==
             Exec(pings, m.Now(), m.env);
      var ok := agentPinger.PingPollAgents();
      HandleStatusLogging(StartAgents, !ok);
    }
  }

  class HubJobs {
    const m: Machine

    constructor (m: Machine)
      ensures this.m == m
    {
      this.m := m;
    }

    method StartNewCluster()
      modifies m
      ensures m.Now() == Exec(Programs.StartNewCluster(), old(m.Now()), m.env)
    {
      var c := new ChecklistManager(m);
      var ok := c.ResetStateDir(ValidateStartCluster);
      if !ok {
        return;
      }
      ok := c.MarkInProgress(ValidateStartCluster);
      if !ok {
        return;
      }
      RunGpstart(c);
    }

    // Start the new cluster and record how that went.
    method RunGpstart(c: ChecklistManager)
      requires c.m == m
      modifies m
      ensures m.Now() == Exec(GpstartBody(), old(m.Now()), m.env)
    {
      var ok := m.Execute(GpStart);
      if !ok {
        var _ := c.MarkFailed(ValidateStartCluster);
        return;
      }
      ok := c.MarkComplete(ValidateStartCluster);
    }

    // Hostnames that cannot be read are only logged: the loop then has no host.
    method ShareOidFiles(hosts: CR.Hostnames)
      modifies m
      ensures m.Now() == Exec(Programs.ShareOidFiles(if hosts.Hostnames? then hosts.names else []), old(m.Now()), m.env)
    {
      var c := new ChecklistManager(m);
      var hostnames := match hosts case Hostnames(names) => names case Unavailable => [];
      OpenShareOids(c, hostnames);

      var anyFailed := false;
      assert hostnames[0..] == hostnames;
      for i := 0 to |hostnames|
        invariant Exec(Programs.ShareOidFiles(hostnames), old(m.Now()), m.env) ==
                  Exec(RsyncEach(hostnames[i..], anyFailed), m.Now(), m.env)
      {
        assert hostnames[i..][1..] == hostnames[i + 1..];
        anyFailed := ShareWith(c, hostnames[i..], anyFailed);
      }
      if !anyFailed {
        var _ := c.MarkComplete(ShareOids);
      }
    }

    // Reset and mark in progress; the errors are only logged.
    method OpenShareOids(c: ChecklistManager, ghost hostnames: seq<string>)
      requires c.m == m
      modifies m
      ensures Exec(Programs.ShareOidFiles(hostnames), old(m.Now()), m.env) ==
              Exec(RsyncEach(hostnames, false), m.Now(), m.env)
    {
      var _ := c.ResetStateDir(ShareOids);
      assert Exec(Programs.ShareOidFiles(hostnames), old(m.Now()), m.env) ==
             Exec(ShareOidsAfterReset(hostnames), m.Now(), m.env);
      var _ := c.MarkInProgress(ShareOids);
    }

    // One round of the loop, for the first of the remaining hosts.
    method ShareWith(c: ChecklistManager, hosts: seq<string>, anyFailed: bool) returns (failed: bool)
      requires c.m == m && hosts != []
      modifies m
      ensures Exec(RsyncEach(hosts, anyFailed), old(m.Now()), m.env) ==
              Exec(RsyncEach(hosts[1..], failed), m.Now(), m.env)
    {
      ghost var onward := RsyncEach(hosts[1..], true);
      var ok := m.Execute(Rsync(hosts[0]));
      assert Exec(RsyncEach(hosts, anyFailed), old(m.Now()), m.env) ==
             Exec(if ok then RsyncEach(hosts[1..], anyFailed) else Conclude(ShareOids, Failed, onward, onward),
                 m.Now(), m.env);
      failed := anyFailed;
      if !ok {
        var _ := c.MarkFailed(ShareOids);
        failed := true;
      }
    }
  }

  // What happens to the flags of a pair while its old cluster is being stopped:
  // nothing, or another request looks at the postmasters and overwrites them.
  datatype Meanwhile = Undisturbed | AskedAgain(oldAnswers: bool, newAnswers: bool)

  // The pair of clusters, with what the last look at their postmasters found.
  class Pair {
    const m: Machine
    var oldPostmasterRunning: bool
    var newPostmasterRunning: bool

    constructor (m: Machine)
      ensures this.m == m
    {
      this.m := m;
    }

    // The arguments are the answers of the two pgrep commands.
    method EitherPostmasterRunning(oldAnswers: bool, newAnswers: bool) returns (either: bool)
      modifies this
      ensures oldPostmasterRunning == oldAnswers && newPostmasterRunning == newAnswers
      ensures either <==> Programs.StopEverything(oldPostmasterRunning, newPostmasterRunning) != Done
    {
      oldPostmasterRunning := oldAnswers;
      newPostmasterRunning := newAnswers;
      either := oldPostmasterRunning || newPostmasterRunning;
    }

    // Either postmaster running is what there is to do: the job is the one for the
    // answers just given, and empty when both are no.
    method PrepareShutdownClusters(oldAnswers: bool, newAnswers: bool, meanwhile: Meanwhile) returns (started: bool)
      modifies this, m
      ensures var newRead := if oldAnswers && meanwhile.AskedAgain? then meanwhile.newAnswers else newAnswers;
              m.Now() == Exec(Programs.StopEverything(oldAnswers, newRead), old(m.Now()), m.env)
      ensures !started ==> m.Now() == old(m.Now())
    {
      started := EitherPostmasterRunning(oldAnswers, newAnswers);
      if started {
        StopEverything(meanwhile);
      }
    }

    // The flag of the new cluster is read only when the old one has been dealt with.
    method StopEverything(meanwhile: Meanwhile)
      modifies this, m
      ensures var newRead := if old(oldPostmasterRunning) && meanwhile.AskedAgain? then meanwhile.newAnswers
                             else old(newPostmasterRunning);
              m.Now() == Exec(Programs.StopEverything(old(oldPostmasterRunning), newRead), old(m.Now()), m.env)
    {
      if oldPostmasterRunning {
        StopCluster(GpstopOld);
        if meanwhile.AskedAgain? {
          var _ := EitherPostmasterRunning(meanwhile.oldAnswers, meanwhile.newAnswers);
        }
      }
      if newPostmasterRunning {
        StopCluster(GpstopNew);
      }
    }

    method StopCluster(s: Step)
      modifies m
      ensures forall next :: Exec(Programs.StopCluster(s, next), old(m.Now()), m.env) == Exec(next, m.Now(), m.env)
    {
      var c := new ChecklistManager(m);
      var _ := c.ResetStateDir(s);
      assert forall next :: Exec(Programs.StopCluster(s, next), old(m.Now()), m.env) ==
                            Exec(StopAfterReset(s, next), m.Now(), m.env);
      StopReset(c, s);
    }

    // The rest of StopCluster, whatever became of its reset.
    method StopReset(c: ChecklistManager, s: Step)
      requires c.m == m
      modifies m
      ensures forall next :: Exec(StopAfterReset(s, next), old(m.Now()), m.env) == Exec(next, m.Now(), m.env)
    {
      var ok := c.MarkInProgress(s);
      if !ok {
        return;
      }
      assert forall next :: Exec(StopAfterReset(s, next), old(m.Now()), m.env) ==
                            Exec(GpstopBody(s, next), m.Now(), m.env);
      RunGpstop(c, s);
    }

    method RunGpstop(c: ChecklistManager, s: Step)
      requires c.m == m
      modifies m
      ensures forall next :: Exec(GpstopBody(s, next), old(m.Now()), m.env) == Exec(next, m.Now(), m.env)
    {
      var ok := m.Execute(GpStop(s));
      assert forall next :: Exec(GpstopBody(s, next), old(m.Now()), m.env) ==
                            Exec(Conclude(s, if ok then Completed else Failed, next, next), m.Now(), m.env);
      if !ok {
        var _ := c.MarkFailed(s);
        return;
      }
      var _ := c.MarkComplete(s);
    }
  }
}

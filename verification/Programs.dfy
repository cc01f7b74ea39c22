// The hub's background jobs as programs over marker files.
module Programs {
  import opened Markers

  // --- checklist manager ----------------------------------------------------

  function ResetStateDir(s: Step, ok: Prog, er: Prog): Prog {
    Fs(s, RemoveAll, Fs(s, MkdirAll, ok, er), er)
  }

  function MarkInProgress(s: Step, ok: Prog, er: Prog): Prog {
    Fs(s, Create(InProgress), ok, er)
  }

  // MarkFailed and MarkComplete: remove the in-progress marker, then write f.
  function Conclude(s: Step, f: File, ok: Prog, er: Prog): Prog {
    Fs(s, Remove(InProgress), Fs(s, Create(f), ok, er), er)
  }

  // --- seginstall and start-agents -------------------------------------------

  function SshEach(hosts: seq<string>, anyFailed: bool, failed: Prog, clean: Prog): Prog {
    if hosts == [] then (if anyFailed then failed else clean)
    else Run(Ssh(hosts[0]),
             SshEach(hosts[1..], anyFailed, failed, clean),
             SshEach(hosts[1..], true, failed, clean))
  }

  function RemoteExec(s: Step, hosts: seq<string>, failed: Prog, clean: Prog): Prog {
    ResetStateDir(s, MarkInProgress(s, SshEach(hosts, false, failed, clean), failed), failed)
  }

  function HandleStatusLogging(s: Step, anyFailed: bool): Prog {
    Conclude(s, if anyFailed then Failed else Completed, Done, Done)
  }

  function VerifySoftware(hosts: seq<string>): Prog {
    RemoteExec(Seginstall, hosts, HandleStatusLogging(Seginstall, true), HandleStatusLogging(Seginstall, false))
  }

  function PingAllAgents(agents: seq<string>, ok: Prog, er: Prog): Prog {
    if agents == [] then ok
    else Run(Ping(agents[0]), PingAllAgents(agents[1..], ok, er), er)
  }

  const PING_ROUNDS: nat := 10

  function PingPollAgents(rounds: nat, agents: seq<string>, ok: Prog, er: Prog): Prog {
    if rounds == 0 then er
    else PingAllAgents(agents, ok, PingPollAgents(rounds - 1, agents, ok, er))
  }

  // What Start does after the remote commands, whether or not they worked.
  function Pings(agents: seq<string>): Prog {
    PingPollAgents(PING_ROUNDS, agents,
                   HandleStatusLogging(StartAgents, false), HandleStatusLogging(StartAgents, true))
  }

  function Start(hosts: seq<string>, agents: seq<string>): Prog {
    RemoteExec(StartAgents, hosts, Pings(agents), Pings(agents))
  }

  // --- validate-start-cluster ------------------------------------------------

  function GpstartBody(): Prog {
    var s := ValidateStartCluster;
    Run(GpStart, Conclude(s, Completed, Done, Done), Conclude(s, Failed, Done, Done))
  }

  function StartNewCluster(): Prog {
    var s := ValidateStartCluster;
    ResetStateDir(s, MarkInProgress(s, GpstartBody(), Done), Done)
  }

  // --- share-oids: errors of the reset and of the first mark are only logged ---

  function RsyncEach(hosts: seq<string>, anyFailed: bool): Prog {
    if hosts == [] then (if anyFailed then Done else Conclude(ShareOids, Completed, Done, Done))
    else
      var onward := RsyncEach(hosts[1..], true);
      Run(Rsync(hosts[0]), RsyncEach(hosts[1..], anyFailed), Conclude(ShareOids, Failed, onward, onward))
  }

  function ShareOidsAfterReset(hosts: seq<string>): Prog {
    MarkInProgress(ShareOids, RsyncEach(hosts, false), RsyncEach(hosts, false))
  }

  function ShareOidFiles(hosts: seq<string>): Prog {
    ResetStateDir(ShareOids, ShareOidsAfterReset(hosts), ShareOidsAfterReset(hosts))
  }

  // --- gpstop: the reset error is dropped ------------------------------------

  function GpstopBody(s: Step, next: Prog): Prog {
    Run(GpStop(s), Conclude(s, Completed, next, next), Conclude(s, Failed, next, next))
  }

  function StopAfterReset(s: Step, next: Prog): Prog {
    MarkInProgress(s, GpstopBody(s, next), next)
  }

  function StopCluster(s: Step, next: Prog): Prog {
    ResetStateDir(s, StopAfterReset(s, next), StopAfterReset(s, next))
  }

  function StopNew(newRunning: bool): Prog {
    if newRunning then StopCluster(GpstopNew, Done) else Done
  }

  function StopEverything(oldRunning: bool, newRunning: bool): Prog {
    if oldRunning then StopCluster(GpstopOld, StopNew(newRunning)) else StopNew(newRunning)
  }

  // --- loops of commands ---------------------------------------------------------

  lemma {:induction false} SshEachLeads(hosts: seq<string>, anyFailed: bool, failed: Prog, clean: Prog)
    ensures LeadsTo(SshEach(hosts, anyFailed, failed, clean), {failed, clean})
  {
    if hosts != [] {
      SshEachLeads(hosts[1..], anyFailed, failed, clean);
      SshEachLeads(hosts[1..], true, failed, clean);
    }
  }

  lemma {:induction false} PingAllLeads(agents: seq<string>, ok: Prog, er: Prog)
    ensures LeadsTo(PingAllAgents(agents, ok, er), {ok, er})
  {
    if agents != [] { PingAllLeads(agents[1..], ok, er); }
  }

  lemma {:induction false} PingPollLeads(rounds: nat, agents: seq<string>, ok: Prog, er: Prog)
    ensures LeadsTo(PingPollAgents(rounds, agents, ok, er), {ok, er})
  {
    if rounds != 0 {
      var next := PingPollAgents(rounds - 1, agents, ok, er);
      PingAllLeads(agents, ok, next);
      PingPollLeads(rounds - 1, agents, ok, er);
      LeadsThrough(PingAllAgents(agents, ok, next), {ok, next}, {ok, er});
    }
  }

  lemma RunLeads(p: Prog)
    requires p.Run?
    ensures LeadsTo(p, {p.onOk, p.onErr})
  {
    var ends := {p.onOk, p.onErr};
    assert LeadsTo(p.onOk, ends) && LeadsTo(p.onErr, ends);
  }

  lemma {:induction false} LeadsThrough(p: Prog, ends: set<Prog>, ends': set<Prog>)
    requires LeadsTo(p, ends) && forall q :: q in ends ==> LeadsTo(q, ends')
    ensures LeadsTo(p, ends')
    decreases p
  {
    if p !in ends {
      LeadsThrough(p.onOk, ends, ends');
      LeadsThrough(p.onErr, ends, ends');
    }
  }

  // The programs that the remote commands of a driver lead to.
  lemma RemoteBodyLeads(hosts: seq<string>, failed: Prog, clean: Prog)
    ensures LeadsTo(SshEach(hosts, false, failed, clean), {failed, clean})
  {
    SshEachLeads(hosts, false, failed, clean);
  }

  lemma PingsLead(agents: seq<string>)
    ensures LeadsTo(Pings(agents), {HandleStatusLogging(StartAgents, false), HandleStatusLogging(StartAgents, true)})
  {
    PingPollLeads(PING_ROUNDS, agents, HandleStatusLogging(StartAgents, false), HandleStatusLogging(StartAgents, true));
  }

  lemma {:induction false} ThroughConfined(p: Prog, ends: set<Prog>, own: set<Step>)
    requires LeadsTo(p, ends) && forall q :: q in ends ==> Confined(q, own)
    ensures Confined(p, own)
    decreases p
  {
    if p !in ends {
      ThroughConfined(p.onOk, ends, own);
      ThroughConfined(p.onErr, ends, own);
    }
  }

  lemma {:induction false} ThroughKeeps(p: Prog, ends: set<Prog>, s: Step, d: Dir)
    requires LeadsTo(p, ends) && AtMostOne(Listing(d)) && forall q :: q in ends ==> Keeps(q, s, d)
    ensures Keeps(p, s, d)
    decreases p
  {
    if p !in ends {
      ThroughKeeps(p.onOk, ends, s, d);
      ThroughKeeps(p.onErr, ends, s, d);
    }
  }

  lemma {:induction false} ThroughQuiet(p: Prog, ends: set<Prog>, s: Step)
    requires LeadsTo(p, ends) && forall q :: q in ends ==> Quiet(q, s)
    ensures Quiet(p, s)
    decreases p
  {
    if p !in ends {
      ThroughQuiet(p.onOk, ends, s);
      ThroughQuiet(p.onErr, ends, s);
    }
  }

  // --- guarded drivers keep at most one marker --------------------------------

  // next keeps at most one file in s wherever it starts.
  ghost predicate Safe(next: Prog, s: Step) {
    forall d: Dir :: AtMostOne(Listing(d)) ==> Keeps(next, s, d)
  }

  lemma ConcludeKeeps(s: Step, f: File, next: Prog)
    requires Safe(next, s)
    ensures Safe(Conclude(s, f, next, next), s)
  {
    forall d: Dir | AtMostOne(Listing(d)) ensures Keeps(Conclude(s, f, next, next), s, d) {
      ConcludeKeepsFrom(s, f, next, d);
    }
  }

  lemma ConcludeKeepsFrom(s: Step, f: File, next: Prog, d: Dir)
    requires Safe(next, s) && AtMostOne(Listing(d))
    ensures Keeps(Conclude(s, f, next, next), s, d)
  {
    var second := Fs(s, Create(f), next, next);
    forall a: Answer
      ensures Keeps(if Apply(Remove(InProgress), d, a).ok then second else next, s, Apply(Remove(InProgress), d, a).dir)
    {
      var r := Apply(Remove(InProgress), d, a);
      assert AtMostOne(Listing(r.dir));
      if r.ok {
        assert Listing(r.dir) == {};
        forall b: Answer ensures AtMostOne(Listing(Apply(Create(f), r.dir, b).dir)) {}
      }
    }
  }

  lemma ThroughSafe(p: Prog, ends: set<Prog>, s: Step)
    requires LeadsTo(p, ends) && forall q :: q in ends ==> Safe(q, s)
    ensures Safe(p, s)
  {
    forall d: Dir | AtMostOne(Listing(d)) ensures Keeps(p, s, d) {
      ThroughKeeps(p, ends, s, d);
    }
  }

  // A marker written right after a successful reset, or an error anywhere in
  // between, leaves at most one file for whatever runs next.
  lemma GuardedKeeps(s: Step, body: Prog, giveUp: Prog, d: Dir)
    requires AtMostOne(Listing(d))
    requires Safe(body, s) && Safe(giveUp, s)
    ensures Keeps(ResetStateDir(s, MarkInProgress(s, body, giveUp), giveUp), s, d)
  {
    var mkdir := Fs(s, MkdirAll, MarkInProgress(s, body, giveUp), giveUp);
    RemadeKeeps(s, body, giveUp);
    forall a: Answer
      ensures Keeps(if Apply(RemoveAll, d, a).ok then mkdir else giveUp, s, Apply(RemoveAll, d, a).dir)
    {
      assert AtMostOne(Listing(Apply(RemoveAll, d, a).dir));
    }
  }

  lemma RemadeKeeps(s: Step, body: Prog, giveUp: Prog)
    requires Safe(body, s) && Safe(giveUp, s)
    ensures Keeps(Fs(s, MkdirAll, MarkInProgress(s, body, giveUp), giveUp), s, Absent)
  {
    var mark := MarkInProgress(s, body, giveUp);
    MarkKeeps(s, body, giveUp);
    forall a: Answer
      ensures Keeps(if Apply(MkdirAll, Absent, a).ok then mark else giveUp, s, Apply(MkdirAll, Absent, a).dir)
    {
      assert Listing(Apply(MkdirAll, Absent, a).dir) == {};
    }
  }

  lemma MarkKeeps(s: Step, body: Prog, giveUp: Prog)
    requires Safe(body, s) && Safe(giveUp, s)
    ensures Keeps(MarkInProgress(s, body, giveUp), s, Present({}))
  {
    forall a: Answer
      ensures Keeps(if Apply(Create(InProgress), Present({}), a).ok then body else giveUp, s,
                    Apply(Create(InProgress), Present({}), a).dir)
    {
      assert AtMostOne(Listing(Apply(Create(InProgress), Present({}), a).dir));
    }
  }

  lemma VerifySoftwareKeeps(hosts: seq<string>, d: Dir)
    requires AtMostOne(Listing(d))
    ensures Keeps(VerifySoftware(hosts), Seginstall, d)
  {
    var failed, clean := HandleStatusLogging(Seginstall, true), HandleStatusLogging(Seginstall, false);
    ConcludeKeeps(Seginstall, Failed, Done);
    ConcludeKeeps(Seginstall, Completed, Done);
    RemoteBodyLeads(hosts, failed, clean);
    ThroughSafe(SshEach(hosts, false, failed, clean), {failed, clean}, Seginstall);
    GuardedKeeps(Seginstall, SshEach(hosts, false, failed, clean), failed, d);
  }

  lemma StartKeeps(hosts: seq<string>, agents: seq<string>, d: Dir)
    requires AtMostOne(Listing(d))
    ensures Keeps(Start(hosts, agents), StartAgents, d)
  {
    ConcludeKeeps(StartAgents, Failed, Done);
    ConcludeKeeps(StartAgents, Completed, Done);
    PingsLead(agents);
    var pings := Pings(agents);
    ThroughSafe(pings, {HandleStatusLogging(StartAgents, false), HandleStatusLogging(StartAgents, true)}, StartAgents);
    RemoteBodyLeads(hosts, pings, pings);
    ThroughSafe(SshEach(hosts, false, pings, pings), {pings, pings}, StartAgents);
    GuardedKeeps(StartAgents, SshEach(hosts, false, pings, pings), pings, d);
  }

  lemma StartNewClusterKeeps(d: Dir)
    requires AtMostOne(Listing(d))
    ensures Keeps(StartNewCluster(), ValidateStartCluster, d)
  {
    var s := ValidateStartCluster;
    ConcludeKeeps(s, Failed, Done);
    ConcludeKeeps(s, Completed, Done);
    assert Safe(Done, s);
    RunLeads(GpstartBody());
    ThroughSafe(GpstartBody(), {Conclude(s, Completed, Done, Done), Conclude(s, Failed, Done, Done)}, s);
    GuardedKeeps(s, GpstartBody(), Done, d);
  }

  // --- unguarded drivers: exactly when they keep at most one marker -------------

  lemma {:induction false} RsyncEachKeeps(hosts: seq<string>, anyFailed: bool)
    ensures Safe(RsyncEach(hosts, anyFailed), ShareOids)
  {
    if hosts == [] {
      ConcludeKeeps(ShareOids, Completed, Done);
    } else {
      RsyncEachKeeps(hosts[1..], anyFailed);
      RsyncEachKeeps(hosts[1..], true);
      ConcludeKeeps(ShareOids, Failed, RsyncEach(hosts[1..], true));
    }
  }

  // Marking in progress whatever the reset did is safe exactly when the
  // directory holds nothing but the in-progress marker.
  lemma CarryOnKeepsIff(s: Step, body: Prog, giveUp: Prog, d: Dir)
    requires Safe(body, s) && Safe(giveUp, s) && AtMostOne(Listing(d))
    ensures Keeps(MarkInProgress(s, body, giveUp), s, d) <==> Listing(d) <= {InProgress}
  {
    if Keeps(MarkInProgress(s, body, giveUp), s, d) && d.Present? {
      var created := Apply(Create(InProgress), d, Answer(true, true, {}, true));
      assert Keeps(if created.ok then body else giveUp, s, created.dir);
      assert InProgress in Listing(created.dir);
    }
    if Listing(d) <= {InProgress} {
      forall a: Answer
        ensures Keeps(if Apply(Create(InProgress), d, a).ok then body else giveUp, s,
                Apply(Create(InProgress), d, a).dir)
      {
        assert Listing(Apply(Create(InProgress), d, a).dir) <= {InProgress};
      }
    }
  }

  // The whole driver: a reset that fails may leave the old marker in place.
  lemma UnguardedKeepsIff(s: Step, body: Prog, giveUp: Prog, d: Dir)
    requires Safe(body, s) && Safe(giveUp, s) && AtMostOne(Listing(d))
    ensures var mark := MarkInProgress(s, body, giveUp);
            Keeps(ResetStateDir(s, mark, mark), s, d) <==> Listing(d) <= {InProgress}
  {
    var mark := MarkInProgress(s, body, giveUp);
    var mkdir := Fs(s, MkdirAll, mark, mark);
    if Keeps(ResetStateDir(s, mark, mark), s, d) {
      var stuck := Apply(RemoveAll, d, Answer(false, false, Listing(d), true));
      assert Listing(stuck.dir) == Listing(d);
      assert Keeps(mark, s, stuck.dir);
      CarryOnKeepsIff(s, body, giveUp, stuck.dir);
    }
    if Listing(d) <= {InProgress} {
      forall a: Answer
        ensures Keeps(if Apply(RemoveAll, d, a).ok then mkdir else mark, s, Apply(RemoveAll, d, a).dir)
      {
        var r := Apply(RemoveAll, d, a);
        assert Listing(r.dir) <= {InProgress};
        CarryOnKeepsIff(s, body, giveUp, r.dir);
        forall b: Answer ensures Keeps(mark, s, Apply(MkdirAll, r.dir, b).dir) {
          assert Listing(Apply(MkdirAll, r.dir, b).dir) <= {InProgress};
          CarryOnKeepsIff(s, body, giveUp, Apply(MkdirAll, r.dir, b).dir);
        }
      }
    }
  }

  // --- what the unguarded drivers keep under a rule -------------------------------

  lemma {:induction false} KeepsIsUnder(rule: Rule, p: Prog, s: Step, d: Dir)
    requires Keeps(p, s, d)
    ensures KeepsUnder(rule, p, s, d)
    decreases p
  {
    match p
    case Done =>
    case Run(_, ok, er) =>
      KeepsIsUnder(rule, ok, s, d);
      KeepsIsUnder(rule, er, s, d);
    case Fs(s', c, ok, er) =>
      if s' != s {
        KeepsIsUnder(rule, ok, s, d);
        KeepsIsUnder(rule, er, s, d);
      } else {
        forall a: Answer ensures KeepsUnder(rule, if Apply(c, d, a).ok then ok else er, s, Apply(c, d, a).dir) {
          var r := Apply(c, d, a);
          assert Keeps(if r.ok then ok else er, s, r.dir);
          KeepsIsUnder(rule, if r.ok then ok else er, s, r.dir);
        }
      }
  }

  lemma SafeUnder(rule: Rule, p: Prog, s: Step, d: Dir)
    requires Safe(p, s) && AtMostOne(Listing(d))
    ensures KeepsUnder(rule, p, s, d)
  {
    KeepsIsUnder(rule, p, s, d);
  }

  lemma CarryOnKeepsUnder(s: Step, body: Prog, giveUp: Prog, d: Dir)
    requires Safe(body, s) && Safe(giveUp, s) && AtMostOne(Listing(d))
    ensures KeepsUnder(NoSecondFile, MarkInProgress(s, body, giveUp), s, d)
  {
    forall a: Answer | Allowed(NoSecondFile, Create(InProgress), d, a)
      ensures KeepsUnder(NoSecondFile, if Apply(Create(InProgress), d, a).ok then body else giveUp, s,
                         Apply(Create(InProgress), d, a).dir)
    {
      var r := Apply(Create(InProgress), d, a);
      assert AtMostOne(Listing(r.dir));
      SafeUnder(NoSecondFile, if r.ok then body else giveUp, s, r.dir);
    }
  }

  // A driver that carries on after a failed reset.
  lemma UnguardedKeepsUnder(rule: Rule, s: Step, body: Prog, giveUp: Prog, d: Dir)
    requires Safe(body, s) && Safe(giveUp, s) && AtMostOne(Listing(d)) && rule != Anything
    ensures var mark := MarkInProgress(s, body, giveUp); KeepsUnder(rule, ResetStateDir(s, mark, mark), s, d)
  {
    if rule == RemovalsWork {
      RemovableKeeps(s, body, giveUp, d);
    } else {
      ResetKeepsUnder(s, body, giveUp, d);
    }
  }

  lemma RemovableKeeps(s: Step, body: Prog, giveUp: Prog, d: Dir)
    requires Safe(body, s) && Safe(giveUp, s) && AtMostOne(Listing(d))
    ensures var mark := MarkInProgress(s, body, giveUp); KeepsUnder(RemovalsWork, ResetStateDir(s, mark, mark), s, d)
  {
    var mark := MarkInProgress(s, body, giveUp);
    var mkdir := Fs(s, MkdirAll, mark, mark);
    UnguardedKeepsIff(s, body, giveUp, Absent);
    assert Apply(RemoveAll, Absent, Answer(true, true, {}, true)) == Reply(true, Absent);
    assert Keeps(mkdir, s, Absent);
    KeepsIsUnder(RemovalsWork, mkdir, s, Absent);
  }

  lemma ResetKeepsUnder(s: Step, body: Prog, giveUp: Prog, d: Dir)
    requires Safe(body, s) && Safe(giveUp, s) && AtMostOne(Listing(d))
    ensures var mark := MarkInProgress(s, body, giveUp); KeepsUnder(NoSecondFile, ResetStateDir(s, mark, mark), s, d)
  {
    var mark := MarkInProgress(s, body, giveUp);
    var mkdir := Fs(s, MkdirAll, mark, mark);
    forall a: Answer
      ensures KeepsUnder(NoSecondFile, if Apply(RemoveAll, d, a).ok then mkdir else mark, s, Apply(RemoveAll, d, a).dir)
    {
      var r := Apply(RemoveAll, d, a);
      assert AtMostOne(Listing(r.dir));
      CarryOnKeepsUnder(s, body, giveUp, r.dir);
      MkdirKeepsUnder(s, mark, r.dir, body, giveUp);
    }
  }

  lemma MkdirKeepsUnder(s: Step, mark: Prog, d: Dir, body: Prog, giveUp: Prog)
    requires Safe(body, s) && Safe(giveUp, s) && AtMostOne(Listing(d)) && mark == MarkInProgress(s, body, giveUp)
    ensures KeepsUnder(NoSecondFile, Fs(s, MkdirAll, mark, mark), s, d)
  {
    forall a: Answer ensures KeepsUnder(NoSecondFile, mark, s, Apply(MkdirAll, d, a).dir) {
      assert AtMostOne(Listing(Apply(MkdirAll, d, a).dir));
      CarryOnKeepsUnder(s, body, giveUp, Apply(MkdirAll, d, a).dir);
    }
  }

  lemma ShareOidFilesKeepsUnder(rule: Rule, hosts: seq<string>, d: Dir)
    requires AtMostOne(Listing(d)) && rule != Anything
    ensures KeepsUnder(rule, ShareOidFiles(hosts), ShareOids, d)
  {
    RsyncEachKeeps(hosts, false);
    UnguardedKeepsUnder(rule, ShareOids, RsyncEach(hosts, false), RsyncEach(hosts, false), d);
  }

  lemma StopClusterKeepsUnder(rule: Rule, s: Step, next: Prog, d: Dir)
    requires AtMostOne(Listing(d)) && rule != Anything && Safe(next, s)
    ensures KeepsUnder(rule, StopCluster(s, next), s, d)
  {
    ConcludeKeeps(s, Completed, next);
    ConcludeKeeps(s, Failed, next);
    RunLeads(GpstopBody(s, next));
    ThroughSafe(GpstopBody(s, next), {Conclude(s, Completed, next, next), Conclude(s, Failed, next, next)}, s);
    UnguardedKeepsUnder(rule, s, GpstopBody(s, next), next, d);
  }

  // Stopping one cluster leaves the other's directory to what comes next.
  lemma OtherStopKeepsUnder(rule: Rule, s: Step, next: Prog, s': Step, d: Dir)
    requires s != s' && KeepsUnder(rule, next, s', d)
    ensures KeepsUnder(rule, StopCluster(s, next), s', d)
  {
    AwayConcludeKeepsUnder(rule, s, Completed, next, s', d);
    AwayConcludeKeepsUnder(rule, s, Failed, next, s', d);
    assert KeepsUnder(rule, GpstopBody(s, next), s', d);
    var mark := StopAfterReset(s, next);
    assert KeepsUnder(rule, mark, s', d);
    assert KeepsUnder(rule, Fs(s, MkdirAll, mark, mark), s', d);
  }

  lemma AwayConcludeKeepsUnder(rule: Rule, s: Step, f: File, next: Prog, s': Step, d: Dir)
    requires s != s' && KeepsUnder(rule, next, s', d)
    ensures KeepsUnder(rule, Conclude(s, f, next, next), s', d)
  {
    assert KeepsUnder(rule, Fs(s, Create(f), next, next), s', d);
  }

  lemma ElsewhereSafe(p: Prog, own: set<Step>, s: Step)
    requires Confined(p, own) && s !in own
    ensures Safe(p, s)
  {
    forall d: Dir | AtMostOne(Listing(d)) ensures Keeps(p, s, d) {
      ElsewhereKeeps(p, own, s, d);
    }
  }

  // A program that stays away from s keeps s as it is.
  lemma {:induction false} ElsewhereKeeps(p: Prog, own: set<Step>, s: Step, d: Dir)
    requires Confined(p, own) && s !in own && AtMostOne(Listing(d))
    ensures Keeps(p, s, d)
    decreases p
  {
    if !p.Done? {
      ElsewhereKeeps(p.onOk, own, s, d);
      ElsewhereKeeps(p.onErr, own, s, d);
    }
  }

  lemma ShareOidFilesKeepsIff(hosts: seq<string>, d: Dir)
    requires AtMostOne(Listing(d))
    ensures Keeps(ShareOidFiles(hosts), ShareOids, d) <==> Listing(d) <= {InProgress}
    ensures Keeps(ShareOidsAfterReset(hosts), ShareOids, d) <==> Listing(d) <= {InProgress}
    ensures Keeps(ShareOidFiles(hosts).onOk, ShareOids, Absent)
  {
    RsyncEachKeeps(hosts, false);
    UnguardedKeepsIff(ShareOids, RsyncEach(hosts, false), RsyncEach(hosts, false), Absent);
    assert Apply(RemoveAll, Absent, Answer(true, true, {}, true)) == Reply(true, Absent);
    UnguardedKeepsIff(ShareOids, RsyncEach(hosts, false), RsyncEach(hosts, false), d);
    CarryOnKeepsIff(ShareOids, RsyncEach(hosts, false), RsyncEach(hosts, false), d);
  }

  lemma StopClusterKeepsIff(s: Step, next: Prog, own: set<Step>, d: Dir)
    requires AtMostOne(Listing(d))
    requires Confined(next, own) && s !in own
    ensures Keeps(StopCluster(s, next), s, d) <==> Listing(d) <= {InProgress}
    ensures Keeps(StopAfterReset(s, next), s, d) <==> Listing(d) <= {InProgress}
  {
    forall d': Dir | AtMostOne(Listing(d')) ensures Keeps(next, s, d') {
      ElsewhereKeeps(next, own, s, d');
    }
    ConcludeKeeps(s, Completed, next);
    ConcludeKeeps(s, Failed, next);
    assert Safe(next, s);
    RunLeads(GpstopBody(s, next));
    ThroughSafe(GpstopBody(s, next), {Conclude(s, Completed, next, next), Conclude(s, Failed, next, next)}, s);
    UnguardedKeepsIff(s, GpstopBody(s, next), next, d);
    CarryOnKeepsIff(s, GpstopBody(s, next), next, d);
  }

  // --- every driver moves a step forward only --------------------------------------

  lemma ConcludeQuiet(s: Step, f: File, next: Prog)
    requires Concludes(f) && Quiet(next, s)
    ensures Quiet(Conclude(s, f, next, next), s)
  {
    var second := Fs(s, Create(f), next, next);
    assert Tidy(second, s) && Reserved(second, s) && Steady(second, s, Cleared);
    forall g: Stage ensures Steady(Conclude(s, f, next, next), s, g) {
      assert Steady(next, s, g);
    }
  }

  // Resetting and marking in progress, whatever is done when the reset fails.
  lemma ResetQuiet(s: Step, body: Prog, giveUp: Prog, onReset: Prog)
    requires Quiet(body, s) && Quiet(giveUp, s)
    requires if Guarded(s) then Quiet(onReset, s) else onReset == MarkInProgress(s, body, giveUp)
    ensures Quiet(ResetStateDir(s, MarkInProgress(s, body, giveUp), onReset), s)
  {
    var mark := MarkInProgress(s, body, giveUp);
    MarkSteady(s, body, giveUp);
    var mkdir := Fs(s, MkdirAll, mark, onReset);
    assert Remade(mkdir, s);
    forall g: Stage ensures Steady(mkdir, s, g) && Steady(onReset, s, g) {}
  }

  lemma MarkSteady(s: Step, body: Prog, giveUp: Prog)
    requires Quiet(body, s) && Quiet(giveUp, s)
    ensures var mark := MarkInProgress(s, body, giveUp);
            Opens(mark, s) && Tidy(mark, s) && forall g: Stage :: Steady(mark, s, g)
  {
    var mark := MarkInProgress(s, body, giveUp);
    forall g: Stage ensures Steady(mark, s, g) {
      assert Steady(giveUp, s, g) && Steady(giveUp, s, Marked) && Steady(body, s, Marked);
    }
  }

  lemma {:induction false} ElsewhereQuiet(p: Prog, own: set<Step>, s: Step)
    requires Confined(p, own) && s !in own
    ensures Quiet(p, s)
    decreases p
  {
    if !p.Done? {
      ElsewhereQuiet(p.onOk, own, s);
      ElsewhereQuiet(p.onErr, own, s);
    }
  }

  lemma {:induction false} RsyncEachQuiet(hosts: seq<string>, anyFailed: bool)
    ensures Quiet(RsyncEach(hosts, anyFailed), ShareOids)
  {
    if hosts == [] {
      ConcludeQuiet(ShareOids, Completed, Done);
    } else {
      RsyncEachQuiet(hosts[1..], anyFailed);
      RsyncEachQuiet(hosts[1..], true);
      ConcludeQuiet(ShareOids, Failed, RsyncEach(hosts[1..], true));
      RunQuiet(RsyncEach(hosts, anyFailed), ShareOids);
    }
  }

  lemma RunQuiet(p: Prog, s: Step)
    requires p.Run? && Quiet(p.onOk, s) && Quiet(p.onErr, s)
    ensures Quiet(p, s)
  {
    RunLeads(p);
    ThroughQuiet(p, {p.onOk, p.onErr}, s);
  }

  lemma {:induction false} RsyncEachConfined(hosts: seq<string>, anyFailed: bool)
    ensures Confined(RsyncEach(hosts, anyFailed), {ShareOids})
  {
    if hosts != [] {
      RsyncEachConfined(hosts[1..], anyFailed);
      RsyncEachConfined(hosts[1..], true);
    }
  }

  lemma StopQuiet(s: Step, next: Prog)
    requires !Guarded(s) && Quiet(next, s)
    ensures Quiet(StopCluster(s, next), s)
  {
    ConcludeQuiet(s, Failed, next);
    ConcludeQuiet(s, Completed, next);
    RunQuiet(GpstopBody(s, next), s);
    ResetQuiet(s, GpstopBody(s, next), next, StopAfterReset(s, next));
  }

  // Stopping one cluster does nothing to the directory of the other.
  lemma OtherStopQuiet(s: Step, next: Prog, s': Step)
    requires s != s' && Quiet(next, s')
    ensures Quiet(StopCluster(s, next), s')
  {
    AwayQuiet(s, Create(Completed), next, next, s');
    AwayQuiet(s, Remove(InProgress), Fs(s, Create(Completed), next, next), next, s');
    AwayQuiet(s, Create(Failed), next, next, s');
    AwayQuiet(s, Remove(InProgress), Fs(s, Create(Failed), next, next), next, s');
    RunQuiet(GpstopBody(s, next), s');
    var mark := StopAfterReset(s, next);
    AwayQuiet(s, Create(InProgress), GpstopBody(s, next), next, s');
    AwayQuiet(s, MkdirAll, mark, mark, s');
    AwayQuiet(s, RemoveAll, Fs(s, MkdirAll, mark, mark), mark, s');
  }

  lemma AwayQuiet(s: Step, c: Call, ok: Prog, er: Prog, s': Step)
    requires s != s' && Quiet(ok, s') && Quiet(er, s')
    ensures Quiet(Fs(s, c, ok, er), s')
  {
  }
}

// The conversion of the primaries end to end: pairs, connections, one goroutine
// per agent, and what the agents do.
module Conversion {
  import opened Config
  import opened DataDirPairs
  import opened AgentConns
  import CP = ConvertPrimary
  import FO = FanOut

  // What the machine of an agent answers, and what the agent made of its request.
  datatype Agent = Agent(globOk: bool, oidFiles: seq<string>, mkdirOk: nat -> bool, commandOk: nat -> bool)

  datatype Answer = Answer(reply: CP.Reply, log: seq<CP.Ran>)

  // Each agent gets the pairs of its own host.
  ghost predicate Answered(conns: seq<string>, pairs: map<string, seq<DataDirPair>>,
                           agents: seq<Agent>, answers: seq<Answer>) {
    && |agents| == |conns| && |answers| == |conns|
    && forall i :: 0 <= i < |conns| ==>
         CP.Outcome(PairsFor(pairs, conns[i]), agents[i].globOk, agents[i].oidFiles, agents[i].mkdirOk,
                    agents[i].commandOk, answers[i].reply, answers[i].log)
  }

  // Everything but a converted reply is an error for the hub.
  function Failing(answers: seq<Answer>): (r: seq<bool>)
    ensures |r| == |answers|
  {
    seq(|answers|, i requires 0 <= i < |answers| => answers[i].reply != CP.Converted)
  }

  // The pairs for which pg_upgrade was started successfully, in order.
  function Starts(log: seq<CP.Ran>): seq<DataDirPair> {
    if log == [] then []
    else
      var last := log[|log| - 1];
      Starts(log[..|log| - 1]) + if last.command.StartUpgrade? && last.ok then [last.command.pair] else []
  }

  function AllStarts(answers: seq<Answer>): seq<DataDirPair> {
    if answers == [] then [] else AllStarts(answers[..|answers| - 1]) + Starts(answers[|answers| - 1].log)
  }

  lemma {:induction false} StartsJoin(a: seq<CP.Ran>, b: seq<CP.Ran>)
    ensures Starts(a + b) == Starts(a) + Starts(b)
  {
    if b == [] {
      assert a + b == a;
    } else {
      var n := |b| - 1;
      StartsJoin(a, b[..n]);
      StartsSnoc(a, b[..n], b[n]);
      assert b[..n] + [b[n]] == b;
    }
  }

  lemma StartsSnoc(a: seq<CP.Ran>, b: seq<CP.Ran>, last: CP.Ran)
    requires Starts(a + b) == Starts(a) + Starts(b)
    ensures Starts(a + (b + [last])) == Starts(a) + Starts(b + [last])
  {
    assert a + (b + [last]) == a + b + [last];
    StartsLast(a + b, last);
    StartsLast(b, last);
  }

  lemma StartsLast(log: seq<CP.Ran>, last: CP.Ran)
    ensures Starts(log + [last]) ==
            Starts(log) + if last.command.StartUpgrade? && last.ok then [last.command.pair] else []
  {
    assert (log + [last])[..|log|] == log;
  }

  lemma {:induction false} CopiesStartNothing(log: seq<CP.Ran>)
    requires forall r :: r in log ==> r.command.Copy?
    ensures Starts(log) == []
  {
    if log != [] { CopiesStartNothing(log[..|log| - 1]); }
  }

  lemma SegmentStarts(p: DataDirPair, oidFiles: seq<string>)
    ensures Starts(CP.Succeeded(CP.SegmentCommands(p, oidFiles))) == [p]
  {
    var log := CP.Succeeded(CP.SegmentCommands(p, oidFiles));
    CopiesStartNothing(log[..|oidFiles|]);
  }

  // A request that succeeds starts pg_upgrade for its pairs, in order.
  lemma {:induction false} ConvertedStarts(pairs: seq<DataDirPair>, oidFiles: seq<string>)
    ensures Starts(CP.Succeeded(CP.AllCommands(pairs, oidFiles))) == pairs
  {
    if pairs != [] {
      var n := |pairs| - 1;
      ConvertedStarts(pairs[..n], oidFiles);
      CP.AllCommandsStep(pairs, oidFiles, n);
      assert pairs[..n + 1] == pairs;
      StartsJoin(CP.Succeeded(CP.AllCommands(pairs[..n], oidFiles)),
                 CP.Succeeded(CP.SegmentCommands(pairs[n], oidFiles)));
      SegmentStarts(pairs[n], oidFiles);
    }
  }

  lemma {:induction false} AllConverted(conns: seq<string>, pairs: map<string, seq<DataDirPair>>,
                                        agents: seq<Agent>, answers: seq<Answer>)
    requires Answered(conns, pairs, agents, answers)
    requires forall i :: 0 <= i < |answers| ==> answers[i].reply == CP.Converted
    ensures AllStarts(answers) == Dispatched(conns, pairs)
  {
    if conns != [] {
      var n := |conns| - 1;
      AllConverted(conns[..n], pairs, agents[..n], answers[..n]);
      ConvertedStarts(PairsFor(pairs, conns[n]), agents[n].oidFiles);
    }
  }

  // The hub returns without an error, under whatever schedule: pg_upgrade has been
  // started exactly for the pairs of the connected hosts.
  lemma NoErrorStartsAll(conns: seq<string>, pairs: map<string, seq<DataDirPair>>,
                         agents: seq<Agent>, answers: seq<Answer>,
                         states: seq<FO.State>, actions: seq<FO.Action>, k: nat)
    requires Answered(conns, pairs, agents, answers)
    requires FO.IsSchedule(states, actions, Failing(answers)) && k < |states|
    requires states[k].result == FO.Returned(0)
    ensures AllStarts(answers) == Dispatched(conns, pairs)
  {
    FO.ReportsEveryFailure(states, actions, Failing(answers), k);
    forall i | 0 <= i < |answers| ensures answers[i].reply == CP.Converted { assert !Failing(answers)[i]; }
    AllConverted(conns, pairs, agents, answers);
  }

  // And each agent has started exactly the pairs of its own host.
  lemma AgentStarts(conns: seq<string>, pairs: map<string, seq<DataDirPair>>,
                    agents: seq<Agent>, answers: seq<Answer>,
                    states: seq<FO.State>, actions: seq<FO.Action>, k: nat, i: nat)
    requires Answered(conns, pairs, agents, answers)
    requires FO.IsSchedule(states, actions, Failing(answers)) && k < |states|
    requires states[k].result == FO.Returned(0) && i < |conns|
    ensures Starts(answers[i].log) == if conns[i] in pairs then pairs[conns[i]] else []
  {
    FO.ReportsEveryFailure(states, actions, Failing(answers), k);
    assert !Failing(answers)[i];
    ConvertedStarts(PairsFor(pairs, conns[i]), agents[i].oidFiles);
  }

  // Over distinct connections: once for each old primary content id whose host is
  // connected, on the agent of that host, with its old and new directories and
  // ports, and for nothing else.
  lemma EachPrimaryStartedOnce(conns: seq<string>, pairs: map<string, seq<DataDirPair>>,
                               oldConfig: SegmentConfiguration, newConfig: SegmentConfiguration,
                               agents: seq<Agent>, answers: seq<Answer>,
                               states: seq<FO.State>, actions: seq<FO.Action>, k: nat)
    requires PairsJoin(pairs, oldConfig, newConfig) && NoDuplicates(conns)
    requires Answered(conns, pairs, agents, answers)
    requires FO.IsSchedule(states, actions, Failing(answers)) && k < |states|
    requires states[k].result == FO.Returned(0)
    ensures NoDuplicates(AllStarts(answers))
    ensures forall p :: p in AllStarts(answers) <==> exists h :: h in conns && Joins(p, h, oldConfig, newConfig)
    ensures forall i, p :: 0 <= i < |conns| ==>
              (p in Starts(answers[i].log) <==> Joins(p, conns[i], oldConfig, newConfig))
  {
    NoErrorStartsAll(conns, pairs, agents, answers, states, actions, k);
    JoinedOnce(conns, pairs, oldConfig, newConfig);
    forall p ensures p in Dispatched(conns, pairs) <==> exists h :: h in conns && Joins(p, h, oldConfig, newConfig) {
      DispatchedHas(conns, pairs, p);
    }
    forall i, p | 0 <= i < |conns|
      ensures p in Starts(answers[i].log) <==> Joins(p, conns[i], oldConfig, newConfig)
    {
      AgentStarts(conns, pairs, agents, answers, states, actions, k, i);
    }
  }

  lemma {:induction false} JoinedOnce(conns: seq<string>, pairs: map<string, seq<DataDirPair>>,
                                      oldConfig: SegmentConfiguration, newConfig: SegmentConfiguration)
    requires PairsJoin(pairs, oldConfig, newConfig) && NoDuplicates(conns)
    ensures NoDuplicates(Dispatched(conns, pairs))
  {
    if conns != [] {
      var n := |conns| - 1;
      JoinedOnce(conns[..n], pairs, oldConfig, newConfig);
      forall p | p in Dispatched(conns[..n], pairs) ensures p !in PairsFor(pairs, conns[n]) {
        NotOnLast(conns, pairs, oldConfig, newConfig, p);
      }
      Disjoint(Dispatched(conns[..n], pairs), PairsFor(pairs, conns[n]));
    }
  }

  lemma Disjoint(a: seq<DataDirPair>, b: seq<DataDirPair>)
    requires NoDuplicates(a) && NoDuplicates(b) && forall p :: p in a ==> p !in b
    ensures NoDuplicates(a + b)
  {
    forall k | 0 <= k < |b| ensures b[k] !in a {
      assert b[k] in b;
    }
  }

  lemma NotOnLast(conns: seq<string>, pairs: map<string, seq<DataDirPair>>,
                  oldConfig: SegmentConfiguration, newConfig: SegmentConfiguration, p: DataDirPair)
    requires conns != [] && PairsJoin(pairs, oldConfig, newConfig) && NoDuplicates(conns)
    requires p in Dispatched(conns[..|conns| - 1], pairs)
    ensures p !in PairsFor(pairs, conns[|conns| - 1])
  {
    var n := |conns| - 1;
    DispatchedHas(conns[..n], pairs, p);
    var h :| h in conns[..n] && h in pairs && p in pairs[h];
    var i :| 0 <= i < n && conns[i] == h;
    assert h != conns[n];
    OneHost(p, h, conns[n], oldConfig, newConfig);
  }

  // The hub's conversion: its connections are those of a successful call of
  // AgentConns, whose hostnames are those of one configuration, and its pairs are
  // those of the two configurations it was given. If it returns no error, an old
  // primary content id has had pg_upgrade started for it, once, exactly when its
  // host is among those connections.
  lemma HubConverts(caches: seq<seq<string>>, calls: seq<World>, replies: seq<Reply>, j: nat,
                    config: SegmentConfiguration, oldConfig: SegmentConfiguration, newConfig: SegmentConfiguration,
                    pairs: map<string, seq<DataDirPair>>, agents: seq<Agent>, answers: seq<Answer>,
                    states: seq<FO.State>, actions: seq<FO.Action>, k: nat)
    requires IsHistory(caches, calls, replies) && j < |calls| && replies[j].Conns? && FromConfig(calls, config)
    requires PairsJoin(pairs, oldConfig, newConfig)
    requires Answered(replies[j].hosts, pairs, agents, answers)
    requires FO.IsSchedule(states, actions, Failing(answers)) && k < |states|
    requires states[k].result == FO.Returned(0)
    ensures NoDuplicates(AllStarts(answers))
    ensures forall p :: p in AllStarts(answers) <==>
              exists h :: h in replies[j].hosts && Joins(p, h, oldConfig, newConfig)
    ensures forall i, p :: 0 <= i < |replies[j].hosts| ==>
              (p in Starts(answers[i].log) <==> Joins(p, replies[j].hosts[i], oldConfig, newConfig))
  {
    ConnsAreHosts(caches, calls, replies, j, config);
    EachPrimaryStartedOnce(replies[j].hosts, pairs, oldConfig, newConfig, agents, answers, states, actions, k);
  }

  // With connections made by a call all of whose dials worked, and the old primaries
  // on hosts of the reader's configuration: for all of them.
  lemma AllPrimariesStarted(caches: seq<seq<string>>, calls: seq<World>, replies: seq<Reply>, j: nat,
                            config: SegmentConfiguration, oldConfig: SegmentConfiguration) returns (f: nat)
    requires IsHistory(caches, calls, replies) && j < |calls| && replies[j].Conns? && FromConfig(calls, config)
    requires forall s :: s in oldConfig ==> HasHost(config, s.hostname)
    requires replies[j].hosts != []
    ensures f <= j && caches[f] == [] && calls[f].hostnames.Hostnames?
    ensures AllDialed(calls[f].hostnames.names, calls[f]) ==>
              forall s :: s in oldConfig ==> s.hostname in replies[j].hosts
  {
    f := ConnsCoverIff(caches, calls, replies, j, config);
  }
}

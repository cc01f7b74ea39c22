// The hub's cache of agent connections.
module AgentConns {
  import opened Config
  import opened ConfigReader
  import opened DataDirPairs

  // What the world answers during one call: the hostnames, whether the k-th
  // dial works, and whether connection i is Ready when looked at in a round.
  datatype World = World(hostnames: Hostnames, dials: nat -> bool, ready: (nat, nat) -> bool)

  // A connection is known by its host. NotReady, NoHostnames and DialFailed are
  // the errors.
  datatype Reply = Conns(hosts: seq<string>) | NotReady | NoHostnames | DialFailed

  const ROUNDS: nat := 3

  predicate AllReady(cache: seq<string>, w: World, round: nat) {
    forall i :: 0 <= i < |cache| ==> w.ready(round, i)
  }

  predicate SomeRoundReady(cache: seq<string>, w: World) {
    exists round :: 0 <= round < ROUNDS && AllReady(cache, w, round)
  }

  predicate AllDialed(names: seq<string>, w: World) {
    forall k :: 0 <= k < |names| ==> w.dials(k)
  }

  // What one call does to the cache: nothing when it holds connections;
  // otherwise it keeps those made before the first dial that failed.
  ghost predicate Effect(cache: seq<string>, w: World, r: Reply, cache': seq<string>) {
    if cache != [] then
      cache' == cache && r == if SomeRoundReady(cache, w) then Conns(cache) else NotReady
    else match w.hostnames
      case Unavailable => cache' == [] && r == NoHostnames
      case Hostnames(names) =>
        if AllDialed(names, w) then cache' == names && r == Conns(names)
        else
          && |cache'| < |names| && cache' == names[..|cache'|] && r == DialFailed
          && !w.dials(|cache'|) && forall k :: 0 <= k < |cache'| ==> w.dials(k)
  }

  class Hub {
    var agentConns: seq<string>

    constructor ()
      ensures agentConns == []
    {
      agentConns := [];
    }

    method AgentConns(w: World) returns (r: Reply)
      modifies this
      ensures Effect(old(agentConns), w, r, agentConns)
      ensures old(agentConns) != [] ==> agentConns == old(agentConns) && (r == Conns(agentConns) || r == NotReady)
      ensures old(agentConns) != [] ==>
                (r.Conns? <==> AllReady(agentConns, w, 0) || AllReady(agentConns, w, 1) || AllReady(agentConns, w, 2))
      ensures old(agentConns) == [] && w.hostnames.Unavailable? ==> r == NoHostnames && agentConns == []
      ensures old(agentConns) == [] && w.hostnames.Hostnames? ==>
                && agentConns <= w.hostnames.names
                && (forall k :: 0 <= k < |agentConns| ==> w.dials(k))
                && if |agentConns| == |w.hostnames.names| then r == Conns(agentConns)
                   else r == DialFailed && !w.dials(|agentConns|)
    {
      if agentConns != [] {
        var ok := EnsureConnsAreReady(w);
        if !ok {
          return NotReady;
        }
        return Conns(agentConns);
      }
      match w.hostnames
      case Unavailable => return NoHostnames;
      case Hostnames(hostnames) =>
        for k := 0 to |hostnames|
          invariant agentConns == hostnames[..k]
          invariant forall j :: 0 <= j < k ==> w.dials(j)
        {
          if !w.dials(k) {
            return DialFailed;
          }
          agentConns := agentConns + [hostnames[k]];
        }
        assert hostnames[..|hostnames|] == hostnames;
        return Conns(agentConns);
    }

    method EnsureConnsAreReady(w: World) returns (ok: bool)
      ensures ok <==> SomeRoundReady(agentConns, w)
      ensures ok <==> AllReady(agentConns, w, 0) || AllReady(agentConns, w, 1) || AllReady(agentConns, w, 2)
    {
      for i := 0 to ROUNDS
        invariant forall round :: 0 <= round < i ==> !AllReady(agentConns, w, round)
      {
        var ready := 0;
        for c := 0 to |agentConns|
          invariant 0 <= ready <= c
          invariant ready == c <==> forall j :: 0 <= j < c ==> w.ready(i, j)
        {
          if w.ready(i, c) {
            ready := ready + 1;
          }
        }
        if ready == |agentConns| {
          assert AllReady(agentConns, w, i);
          return true;
        }
      }
      return false;
    }
  }

  // A history of calls on one hub: caches[i] before call i.
  ghost predicate IsHistory(caches: seq<seq<string>>, calls: seq<World>, replies: seq<Reply>) {
    && |caches| == |calls| + 1 && |replies| == |calls| && caches[0] == []
    && forall i :: 0 <= i < |calls| ==> Effect(caches[i], calls[i], replies[i], caches[i + 1])
  }

  // Once a call has left connections behind, they are the cache for ever.
  lemma {:induction false} CacheIsFinal(caches: seq<seq<string>>, calls: seq<World>, replies: seq<Reply>, i: nat,
                                        j: nat)
    requires IsHistory(caches, calls, replies) && i <= j < |caches| && caches[i] != []
    ensures caches[j] == caches[i]
  {
    if i < j { CacheIsFinal(caches, calls, replies, i, j - 1); }
  }

  // The call that filled the cache.
  lemma {:induction false} FilledOnce(caches: seq<seq<string>>, calls: seq<World>, replies: seq<Reply>, j: nat)
      returns (f: nat)
    requires IsHistory(caches, calls, replies) && j < |caches| && caches[j] != []
    ensures f < j && caches[f] == [] && (forall i :: f < i <= j ==> caches[i] == caches[j])
    ensures calls[f].hostnames.Hostnames? && caches[j] <= calls[f].hostnames.names
    ensures caches[j] == calls[f].hostnames.names <==> AllDialed(calls[f].hostnames.names, calls[f])
  {
    if caches[j - 1] != [] {
      f := FilledOnce(caches, calls, replies, j - 1);
      CacheIsFinal(caches, calls, replies, j - 1, j);
    } else {
      f := j - 1;
    }
  }

  // A success after the cache was filled returns exactly the cache, which may
  // be short of hosts, and only when some round found all of it ready.
  lemma LaterSuccess(caches: seq<seq<string>>, calls: seq<World>, replies: seq<Reply>, j: nat) returns (f: nat)
    requires IsHistory(caches, calls, replies) && j < |calls| && caches[j] != [] && replies[j].Conns?
    ensures f < j && caches[f] == [] && replies[j] == Conns(caches[f + 1]) && SomeRoundReady(caches[f + 1], calls[j])
    ensures calls[f].hostnames.Hostnames? && caches[f + 1] <= calls[f].hostnames.names
    ensures replies[j].hosts == calls[f].hostnames.names <==> AllDialed(calls[f].hostnames.names, calls[f])
  {
    f := FilledOnce(caches, calls, replies, j);
    assert caches[f + 1] == caches[j];
    assert Effect(caches[j], calls[j], replies[j], caches[j + 1]);
  }

  // The call whose dials made the connections of the j-th call, a success.
  lemma FillingCall(caches: seq<seq<string>>, calls: seq<World>, replies: seq<Reply>, j: nat) returns (f: nat)
    requires IsHistory(caches, calls, replies) && j < |calls| && replies[j].Conns?
    ensures f <= j && caches[f] == [] && calls[f].hostnames.Hostnames? && replies[j].hosts <= calls[f].hostnames.names
    ensures replies[j].hosts == calls[f].hostnames.names <==> AllDialed(calls[f].hostnames.names, calls[f])
  {
    assert Effect(caches[j], calls[j], replies[j], caches[j + 1]);
    if caches[j] != [] {
      f := LaterSuccess(caches, calls, replies, j);
    } else {
      f := j;
    }
  }

  // The hostnames of all calls are those of one configuration, the one that is
  // kept once it is loaded; before that there are none.
  ghost predicate FromConfig(calls: seq<World>, config: SegmentConfiguration) {
    forall i :: 0 <= i < |calls| && calls[i].hostnames.Hostnames? && calls[i].hostnames.names != [] ==>
      HostList(calls[i].hostnames.names, config)
  }

  // The connections of a success: hosts of the configuration, each once.
  lemma ConnsAreHosts(caches: seq<seq<string>>, calls: seq<World>, replies: seq<Reply>, j: nat,
                      config: SegmentConfiguration)
    requires IsHistory(caches, calls, replies) && j < |calls| && replies[j].Conns? && FromConfig(calls, config)
    ensures NoDuplicates(replies[j].hosts) && Connected(replies[j].hosts, config)
  {
    var f := FillingCall(caches, calls, replies, j);
    PrefixConnected(replies[j].hosts, calls[f].hostnames.names, config);
  }

  lemma PrefixConnected(hosts: seq<string>, names: seq<string>, config: SegmentConfiguration)
    requires hosts <= names && (names != [] ==> HostList(names, config))
    ensures NoDuplicates(hosts) && Connected(hosts, config)
  {
    forall h | h in hosts ensures HasHost(config, h) {
      assert h in names;
    }
  }

  // They are all of its hosts exactly when every dial of that call worked.
  lemma ConnsCoverIff(caches: seq<seq<string>>, calls: seq<World>, replies: seq<Reply>, j: nat,
                      config: SegmentConfiguration) returns (f: nat)
    requires IsHistory(caches, calls, replies) && j < |calls| && replies[j].Conns? && FromConfig(calls, config)
    requires replies[j].hosts != []
    ensures f <= j && caches[f] == [] && calls[f].hostnames.Hostnames?
    ensures Covers(replies[j].hosts, config) <==> AllDialed(calls[f].hostnames.names, calls[f])
  {
    f := FillingCall(caches, calls, replies, j);
    var hosts, names := replies[j].hosts, calls[f].hostnames.names;
    assert HostList(names, config);
    if hosts != names {
      MissingHost(hosts, names);
      assert HasHost(config, names[|hosts|]);
    }
  }

  lemma MissingHost(hosts: seq<string>, names: seq<string>)
    requires hosts < names && NoDuplicates(names)
    ensures names[|hosts|] in names && names[|hosts|] !in hosts
  {
    forall i | 0 <= i < |hosts| ensures hosts[i] != names[|hosts|] {
      assert names[i] == hosts[i];
    }
  }

  // --- dispatching the pairs over the connections -----------------------------------

  function PairsFor(pairs: map<string, seq<DataDirPair>>, h: string): seq<DataDirPair> {
    if h in pairs then pairs[h] else []
  }

  // What the agents are asked to convert: the pairs of the connected hosts.
  function Dispatched(conns: seq<string>, pairs: map<string, seq<DataDirPair>>): seq<DataDirPair> {
    if conns == [] then []
    else
      var n := |conns| - 1;
      Dispatched(conns[..n], pairs) + PairsFor(pairs, conns[n])
  }

  lemma {:induction false} DispatchedHas(conns: seq<string>, pairs: map<string, seq<DataDirPair>>, p: DataDirPair)
    ensures p in Dispatched(conns, pairs) <==> exists h :: h in conns && h in pairs && p in pairs[h]
  {
    if conns != [] {
      var n := |conns| - 1;
      DispatchedHas(conns[..n], pairs, p);
      assert forall h :: h in conns <==> h in conns[..n] || h == conns[n];
    }
  }

  // A content id reaches an agent exactly when its host is connected: every one
  // does if and only if every host with pairs is. A cache short of hosts thus
  // leaves pairs out although the conversion reports success.
  lemma PairReachesAgentIff(conns: seq<string>, pairs: map<string, seq<DataDirPair>>, olds: map<int, Segment>,
                            news: map<int, Segment>, c: int)
    requires Matched(olds, news) && PairsOf(pairs, olds, news, olds.Keys) && c in olds
    ensures PairOf(olds, news, c) in Dispatched(conns, pairs) <==> olds[c].hostname in conns
  {
    var p := PairOf(olds, news, c);
    DispatchedHas(conns, pairs, p);
    assert c in olds.Keys;
    assert p.content == c;
  }

  lemma {:induction false} DispatchedOnce(conns: seq<string>, pairs: map<string, seq<DataDirPair>>,
                                          olds: map<int, Segment>, news: map<int, Segment>)
    requires Matched(olds, news) && PairsOf(pairs, olds, news, olds.Keys) && NoDuplicates(conns)
    ensures NoDuplicates(Dispatched(conns, pairs))
  {
    if conns != [] {
      var n := |conns| - 1;
      var front := Dispatched(conns[..n], pairs);
      DispatchedOnce(conns[..n], pairs, olds, news);
      if conns[n] in pairs {
        forall p | p in front ensures p !in pairs[conns[n]] {
          DispatchedHas(conns[..n], pairs, p);
          var h :| h in conns[..n] && h in pairs && p in pairs[h];
          assert olds[p.content].hostname == h;
          var i :| 0 <= i < n && conns[i] == h;
          assert h != conns[n];
        }
      }
    }
  }
}

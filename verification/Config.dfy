// The segment configuration and how its segments are spread over hosts.
module Config {

  datatype Segment = Segment(
    address: string, content: int, datadir: string, dbid: int, hostname: string,
    mode: string, status: string, port: int, preferredRole: string, role: string)

  type SegmentConfiguration = seq<Segment>

  // --- hosts -------------------------------------------------------------------

  ghost predicate NoDuplicates<T>(s: seq<T>) {
    forall i, j :: 0 <= i < j < |s| ==> s[i] != s[j]
  }

  lemma SomeElement<T>(s: set<T>) returns (x: T)
    requires s != {}
    ensures x in s
  {
    x :| x in s;
  }

  ghost predicate HasHost(config: SegmentConfiguration, h: string) {
    exists i :: 0 <= i < |config| && config[i].hostname == h
  }

  // hosts lists each host of the configuration once, in whatever order.
  ghost predicate HostList(hosts: seq<string>, config: SegmentConfiguration) {
    NoDuplicates(hosts) && forall h :: h in hosts <==> HasHost(config, h)
  }

  // The segments on host h, in the order of the configuration.
  function OnHost(config: SegmentConfiguration, h: string): (group: SegmentConfiguration)
    ensures forall s :: s in group <==> s in config && s.hostname == h
  {
    if config == [] then []
    else
      var last := config[|config| - 1];
      OnHost(config[..|config| - 1], h) + if last.hostname == h then [last] else []
  }

  // Every one of the hosts is in the configuration; some of its hosts may be missing.
  ghost predicate Connected(hosts: seq<string>, config: SegmentConfiguration) {
    forall h :: h in hosts ==> HasHost(config, h)
  }

  ghost predicate Covers(hosts: seq<string>, config: SegmentConfiguration) {
    forall h :: HasHost(config, h) ==> h in hosts
  }

  // The segments on any of the hosts, in the order of the configuration.
  function OnHosts(config: SegmentConfiguration, hosts: seq<string>): SegmentConfiguration {
    if config == [] then []
    else
      var last := config[|config| - 1];
      OnHosts(config[..|config| - 1], hosts) + if last.hostname in hosts then [last] else []
  }

  lemma OnHostsExtends(config: SegmentConfiguration, x: Segment, hosts: seq<string>)
    ensures OnHosts(config + [x], hosts) ==
            if x.hostname in hosts then OnHosts(config, hosts) + [x] else OnHosts(config, hosts)
  {
    var more := config + [x];
    assert more[..|config|] == config && more[|config|] == x;
    assert OnHosts(config, hosts) + [] == OnHosts(config, hosts);
  }

  lemma {:induction false} OnHostsHas(config: SegmentConfiguration, hosts: seq<string>, s: Segment)
    ensures s in OnHosts(config, hosts) <==> s in config && s.hostname in hosts
  {
    if config != [] {
      OnHostsHas(config[..|config| - 1], hosts, s);
      assert config == config[..|config| - 1] + [config[|config| - 1]];
    }
  }

  lemma {:induction false} OnAllHosts(config: SegmentConfiguration, hosts: seq<string>)
    requires forall i :: 0 <= i < |config| ==> config[i].hostname in hosts
    ensures OnHosts(config, hosts) == config
  {
    if config != [] {
      var front, x := config[..|config| - 1], config[|config| - 1];
      OnAllHosts(front, hosts);
      assert front + [x] == config;
    }
  }

  lemma CoveredIsAll(config: SegmentConfiguration, hosts: seq<string>)
    requires Covers(hosts, config)
    ensures OnHosts(config, hosts) == config
  {
    forall i | 0 <= i < |config| ensures config[i].hostname in hosts {
      assert HasHost(config, config[i].hostname);
    }
    OnAllHosts(config, hosts);
  }

  // The groups of the listed hosts, one after the other.
  function Groups(config: SegmentConfiguration, hosts: seq<string>): SegmentConfiguration {
    if hosts == [] then [] else OnHost(config, hosts[0]) + Groups(config, hosts[1..])
  }

  // x as often as it is there.
  function One(x: Segment, there: bool): multiset<Segment> {
    if there then multiset{x} else multiset{}
  }

  lemma {:induction false} GroupsExtend(config: SegmentConfiguration, x: Segment, hosts: seq<string>)
    requires NoDuplicates(hosts)
    ensures multiset(Groups(config + [x], hosts)) == multiset(Groups(config, hosts)) + One(x, x.hostname in hosts)
  {
    if hosts != [] {
      var h, rest := hosts[0], hosts[1..];
      GroupsExtend(config, x, rest);
      FirstHost(hosts, x.hostname);
      GroupExtends(config, x, h);
      Together(OnHost(config, h), Groups(config, rest), OnHost(config + [x], h), Groups(config + [x], rest),
               One(x, x.hostname == h), One(x, x.hostname in rest));
    }
  }

  lemma GroupExtends(config: SegmentConfiguration, x: Segment, h: string)
    ensures multiset(OnHost(config + [x], h)) == multiset(OnHost(config, h)) + One(x, x.hostname == h)
  {
    OneMore(config, x, h);
    if x.hostname == h {
      Append(OnHost(config, h), x);
    } else {
      assert OnHost(config, h) + [] == OnHost(config, h);
    }
  }

  lemma Append(config: SegmentConfiguration, x: Segment)
    ensures multiset(config + [x]) == multiset(config) + multiset{x}
  {
  }

  lemma FirstHost(hosts: seq<string>, h: string)
    requires hosts != [] && NoDuplicates(hosts)
    ensures h in hosts <==> h == hosts[0] || h in hosts[1..]
    ensures !(h == hosts[0] && h in hosts[1..])
  {
    assert hosts == [hosts[0]] + hosts[1..];
    forall i | 0 <= i < |hosts| - 1 ensures hosts[1..][i] != hosts[0] {
      assert hosts[1..][i] == hosts[i + 1];
    }
  }

  lemma Together(a: SegmentConfiguration, b: SegmentConfiguration, a': SegmentConfiguration, b': SegmentConfiguration,
                 m: multiset<Segment>, n: multiset<Segment>)
    requires multiset(a') == multiset(a) + m && multiset(b') == multiset(b) + n
    ensures multiset(a' + b') == multiset(a + b) + (m + n)
  {
  }

  // Grouping by some hosts loses and repeats none of their segments.
  lemma {:induction false} GroupsPartition(config: SegmentConfiguration, hosts: seq<string>)
    requires NoDuplicates(hosts)
    ensures multiset(Groups(config, hosts)) == multiset(OnHosts(config, hosts))
  {
    if config == [] {
      EmptyGroups(hosts);
    } else {
      var front, x := config[..|config| - 1], config[|config| - 1];
      assert front + [x] == config;
      GroupsPartition(front, hosts);
      GroupsExtend(front, x, hosts);
      Append(OnHosts(front, hosts), x);
      OnHostsExtends(front, x, hosts);
    }
  }

  lemma {:induction false} EmptyGroups(hosts: seq<string>)
    ensures Groups([], hosts) == []
  {
    if hosts != [] { EmptyGroups(hosts[1..]); }
  }

  // group is a subsequence of config: its elements are at the given places.
  ghost predicate AtPlaces(group: SegmentConfiguration, config: SegmentConfiguration, places: seq<nat>) {
    && |places| == |group|
    && (forall i :: 0 <= i < |places| ==> places[i] < |config| && group[i] == config[places[i]])
    && (forall i, j :: 0 <= i < j < |places| ==> places[i] < places[j])
  }

  // Each group keeps the order in which the configuration lists its segments.
  lemma {:induction false} OnHostKeepsOrder(config: SegmentConfiguration, h: string) returns (places: seq<nat>)
    ensures AtPlaces(OnHost(config, h), config, places)
  {
    if config == [] {
      places := [];
    } else {
      var n := |config| - 1;
      places := OnHostKeepsOrder(config[..n], h);
      PlacesExtend(OnHost(config[..n], h), config, places);
      if config[n].hostname == h { places := places + [n]; }
    }
  }

  lemma PlacesExtend(group: SegmentConfiguration, config: SegmentConfiguration, places: seq<nat>)
    requires config != [] && AtPlaces(group, config[..|config| - 1], places)
    ensures AtPlaces(group + [], config, places)
    ensures AtPlaces(group + [config[|config| - 1]], config, places + [|config| - 1])
  {
  }

  lemma GroupHasHost(config: SegmentConfiguration, h: string)
    ensures HasHost(config, h) <==> OnHost(config, h) != []
  {
    if OnHost(config, h) != [] {
      var s := OnHost(config, h)[0];
      assert s in config && s.hostname == h;
    }
    if HasHost(config, h) {
      var i :| 0 <= i < |config| && config[i].hostname == h;
      assert config[i] in OnHost(config, h);
    }
  }

  // The hosts of the configuration, each with its segments.
  ghost predicate Grouped(groups: map<string, SegmentConfiguration>, config: SegmentConfiguration) {
    && (forall h :: h in groups <==> HasHost(config, h))
    && (forall h :: h in groups ==> groups[h] == OnHost(config, h))
  }

  // What one round of the grouping loop does for host h.
  lemma GroupStepAt(groups: map<string, SegmentConfiguration>, config: SegmentConfiguration, x: Segment, h: string)
    requires Grouped(groups, config)
    ensures h in groups || h == x.hostname <==> HasHost(config + [x], h)
    ensures h == x.hostname ==> OnHost(config + [x], h) == if h in groups then groups[h] + [x] else [x]
    ensures h != x.hostname && h in groups ==> OnHost(config + [x], h) == groups[h]
  {
    OneMore(config, x, h);
    GroupHasHost(config, h);
  }

  lemma GroupStep(groups: map<string, SegmentConfiguration>, config: SegmentConfiguration, x: Segment)
    requires Grouped(groups, config)
    ensures Grouped(groups[x.hostname := if x.hostname in groups then groups[x.hostname] + [x] else [x]], config + [x])
  {
    var groups' := groups[x.hostname := if x.hostname in groups then groups[x.hostname] + [x] else [x]];
    forall h ensures h in groups' <==> HasHost(config + [x], h) {
      GroupStepAt(groups, config, x, h);
    }
    forall h | h in groups' ensures groups'[h] == OnHost(config + [x], h) {
      GroupStepAt(groups, config, x, h);
    }
  }

  lemma OneMore(config: SegmentConfiguration, x: Segment, h: string)
    ensures HasHost(config + [x], h) <==> HasHost(config, h) || h == x.hostname
    ensures OnHost(config + [x], h) == OnHost(config, h) + if x.hostname == h then [x] else []
  {
    var more := config + [x];
    assert more[..|config|] == config && more[|config|] == x;
    if HasHost(config, h) {
      var j :| 0 <= j < |config| && config[j].hostname == h;
      assert more[j].hostname == h;
    }
    if h == x.hostname { assert more[|config|].hostname == h; }
  }

  // The grouping loop of the hub.
  method SegmentsByHost(segments: SegmentConfiguration) returns (groups: map<string, SegmentConfiguration>)
    ensures Grouped(groups, segments)
    ensures forall h :: h in groups ==> groups[h] != []
  {
    groups := map[];
    for i := 0 to |segments|
      invariant Grouped(groups, segments[..i])
    {
      var segment := segments[i];
      var host := segment.hostname;
      GroupStep(groups, segments[..i], segment);
      assert segments[..i] + [segment] == segments[..i + 1];
      GroupHasHost(segments[..i], host);
      if host !in groups || |groups[host]| == 0 {
        groups := groups[host := [segment]];
      } else {
        groups := groups[host := groups[host] + [segment]];
      }
    }
    assert segments[..|segments|] == segments;
    forall h | h in groups ensures groups[h] != [] { GroupHasHost(segments, h); }
  }
}

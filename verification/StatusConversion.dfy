// The hub asks every agent for the statuses of its segments and decides the
// overall status of the conversion from the text it gets back.
module StatusConversion {
  import opened Idl
  import opened Text
  import opened Config
  import opened ConversionStatus

  datatype Request = Request(hostname: string, segments: seq<SegmentInfo>)

  // What calling the agent of a host gives; Refused also stands for an agent
  // that cannot be reached.
  type Agents = Request -> Reply

  type GroupsByHost = map<string, SegmentConfiguration>

  function Info(s: Segment): SegmentInfo {
    SegmentInfo(s.content, s.dbid, s.datadir)
  }

  function Infos(config: SegmentConfiguration): (r: seq<SegmentInfo>)
    ensures |r| == |config|
  {
    seq(|config|, i requires 0 <= i < |config| => Info(config[i]))
  }

  function RequestFor(groups: GroupsByHost, host: string): Request {
    Request(host, Infos(if host in groups then groups[host] else []))
  }

  function Requests(groups: GroupsByHost, hosts: seq<string>): (r: seq<Request>)
    ensures |r| == |hosts|
  {
    seq(|hosts|, i requires 0 <= i < |hosts| => RequestFor(groups, hosts[i]))
  }

  // The answers of the agents one after the other.
  function Collect(requests: seq<Request>, agents: Agents): seq<string> {
    if requests == [] then []
    else
      var n := |requests| - 1;
      Collect(requests[..n], agents) + match agents(requests[n]) case Statuses(lines) => lines case Refused => []
  }

  // The lines of agent i follow those of the agents before it.
  lemma {:induction false} CollectedInOrder(requests: seq<Request>, agents: Agents, i: nat)
    requires i < |requests| && Answering(requests, agents)
    ensures Collect(requests[..i], agents) + agents(requests[i]).lines <= Collect(requests, agents)
    decreases |requests|
  {
    var n := |requests| - 1;
    if i < n {
      CollectedInOrder(requests[..n], agents, i);
      assert requests[..n][..i] == requests[..i];
    } else {
      assert requests[..i] == requests[..n];
    }
  }

  lemma CollectOne(sent: seq<Request>, r: Request, agents: Agents)
    requires Answering(sent, agents) && agents(r).Statuses?
    ensures Collect(sent + [r], agents) == Collect(sent, agents) + agents(r).lines
    ensures Answering(sent + [r], agents)
  {
    assert (sent + [r])[..|sent|] == sent;
  }

  lemma RequestAt(groups: GroupsByHost, hosts: seq<string>, i: nat)
    requires i < |hosts|
    ensures Requests(groups, hosts)[..i + 1] == Requests(groups, hosts)[..i] + [RequestFor(groups, hosts[i])]
  {
  }

  // r asks about the segments of the group, in order: their content ids, dbids and
  // directories.
  ghost predicate AsksAbout(r: Request, h: string, group: SegmentConfiguration) {
    && r.hostname == h && |r.segments| == |group|
    && forall j :: 0 <= j < |group| ==>
         && r.segments[j].content == group[j].content && r.segments[j].dbid == group[j].dbid
         && r.segments[j].dataDir == group[j].datadir
  }

  lemma RequestAsks(groups: GroupsByHost, hosts: seq<string>, i: nat)
    requires i < |hosts|
    ensures AsksAbout(Requests(groups, hosts)[i], hosts[i], if hosts[i] in groups then groups[hosts[i]] else [])
  {
  }

  // The requests go to the first connections, each about the segments of its host.
  ghost predicate AskInOrder(sent: seq<Request>, conns: seq<string>, groups: GroupsByHost) {
    && |sent| <= |conns|
    && forall i :: 0 <= i < |sent| ==>
         AsksAbout(sent[i], conns[i], if conns[i] in groups then groups[conns[i]] else [])
  }

  lemma RequestsAsk(groups: GroupsByHost, conns: seq<string>, n: nat)
    requires n <= |conns|
    ensures AskInOrder(Requests(groups, conns)[..n], conns, groups)
  {
    forall k | 0 <= k < n
      ensures AsksAbout(Requests(groups, conns)[k], conns[k], if conns[k] in groups then groups[conns[k]] else [])
    {
      RequestAsks(groups, conns, k);
    }
  }

  method AgentSegments(segments: SegmentConfiguration) returns (infos: seq<SegmentInfo>)
    ensures infos == Infos(segments)
    ensures |infos| == |segments|
    ensures forall j :: 0 <= j < |segments| ==>
              infos[j].content == segments[j].content && infos[j].dbid == segments[j].dbid &&
              infos[j].dataDir == segments[j].datadir
  {
    infos := [];
    for j := 0 to |segments|
      invariant infos == Infos(segments)[..j]
    {
      infos := infos + [SegmentInfo(segments[j].content, segments[j].dbid, segments[j].datadir)];
    }
  }

  predicate Answering(requests: seq<Request>, agents: Agents) {
    forall i :: 0 <= i < |requests| ==> agents(requests[i]).Statuses?
  }

  // The first n hosts have been asked and have answered.
  ghost predicate Asked(sent: seq<Request>, statuses: seq<string>, n: nat, groups: GroupsByHost, conns: seq<string>,
                        agents: Agents) {
    n <= |conns| && sent == Requests(groups, conns)[..n] && Answering(sent, agents) && statuses == Collect(sent, agents)
  }

  lemma OneMoreAsked(sent: seq<Request>, statuses: seq<string>, n: nat, groups: GroupsByHost, conns: seq<string>,
                     agents: Agents)
    requires n < |conns| && Asked(sent, statuses, n, groups, conns, agents)
    ensures var r := RequestFor(groups, conns[n]);
            && sent + [r] == Requests(groups, conns)[..n + 1]
            && (agents(r).Statuses? ==> Asked(sent + [r], statuses + agents(r).lines, n + 1, groups, conns, agents))
  {
    var r := RequestFor(groups, conns[n]);
    RequestAt(groups, conns, n);
    if agents(r).Statuses? { CollectOne(sent, r, agents); }
  }

  // The last request was refused, all those before it were answered.
  ghost predicate Stopped(sent: seq<Request>, agents: Agents) {
    && sent != [] && agents(sent[|sent| - 1]).Refused? && Answering(sent[..|sent| - 1], agents)
  }

  lemma RefusedStops(sent: seq<Request>, r: Request, agents: Agents)
    requires Answering(sent, agents) && agents(r).Refused?
    ensures Stopped(sent + [r], agents)
  {
    assert (sent + [r])[..|sent|] == sent;
  }

  // The lines of all agents, or a refusal if one of them refuses.
  function Gathered(conns: seq<string>, groups: GroupsByHost, agents: Agents): Reply {
    if Answering(Requests(groups, conns), agents) then Statuses(Collect(Requests(groups, conns), agents)) else Refused
  }

  lemma StoppedIsRefused(sent: seq<Request>, groups: GroupsByHost, conns: seq<string>, agents: Agents)
    requires |sent| <= |conns| && sent == Requests(groups, conns)[..|sent|] && Stopped(sent, agents)
    ensures Gathered(conns, groups, agents).Refused?
  {
    assert Requests(groups, conns)[|sent| - 1] == sent[|sent| - 1];
  }

  // `sent` records the calls that were made.
  method StatusConversion(conns: seq<string>, groups: GroupsByHost, agents: Agents)
      returns (reply: Reply, sent: seq<Request>)
    ensures reply == Gathered(conns, groups, agents)
    ensures reply.Statuses? ==> sent == Requests(groups, conns)
    ensures AskInOrder(sent, conns, groups)
    ensures reply.Refused? ==>
              |sent| <= |conns| && sent == Requests(groups, conns)[..|sent|] && Stopped(sent, agents)
  {
    var statuses: seq<string> := [];
    sent := [];
    for i := 0 to |conns|
      invariant Asked(sent, statuses, i, groups, conns, agents)
    {
      var segments := if conns[i] in groups then groups[conns[i]] else [];
      var agentSegments := AgentSegments(segments);
      var request := Request(conns[i], agentSegments);
      OneMoreAsked(sent, statuses, i, groups, conns, agents);
      RequestsAsk(groups, conns, i + 1);
      match agents(request)
      case Refused =>
        RefusedStops(sent, request, agents);
        StoppedIsRefused(sent + [request], groups, conns, agents);
        return Refused, sent + [request];
      case Statuses(lines) =>
        sent, statuses := sent + [request], statuses + lines;
    }
    assert Requests(groups, conns)[..|conns|] == Requests(groups, conns);
    RequestsAsk(groups, conns, |conns|);
    return Statuses(statuses), sent;
  }

  // --- the decision ----------------------------------------------------------------

  function ConvertPrimariesStatus(statuses: seq<string>): StepStatus {
    var text := Join(statuses, " ");
    if Contains(text, "FAILED") then FAILED
    else if Contains(text, "RUNNING") then RUNNING
    else if Contains(text, "COMPLETE") then COMPLETE
    else PENDING
  }

  // Any FAILED, else any RUNNING, else any COMPLETE, else PENDING.
  function Overall(statuses: seq<StepStatus>): StepStatus {
    if FAILED in statuses then FAILED
    else if RUNNING in statuses then RUNNING
    else if COMPLETE in statuses then COMPLETE
    else PENDING
  }

  // Searching the joined text is searching its lines.
  lemma DecisionBySearch(lines: seq<string>)
    ensures ConvertPrimariesStatus(lines) ==
            if SomeLine(lines, FAILED) then FAILED
            else if SomeLine(lines, RUNNING) then RUNNING
            else if SomeLine(lines, COMPLETE) then COMPLETE
            else PENDING
  {
    JoinContains(lines, StatusName(FAILED));
    JoinContains(lines, StatusName(RUNNING));
    JoinContains(lines, StatusName(COMPLETE));
  }

  lemma DecisionByLines(lines: seq<string>, statuses: seq<StepStatus>)
    requires forall k :: IsKeyword(k) ==> (SomeLine(lines, k) <==> k in statuses)
    ensures ConvertPrimariesStatus(lines) == Overall(statuses)
  {
    DecisionBySearch(lines);
    assert IsKeyword(FAILED) && IsKeyword(RUNNING) && IsKeyword(COMPLETE);
  }

  // One line of a reply before it is printed; NoMaster is the empty string an
  // agent without the master puts first.
  datatype Entry = NoMaster | Entry(status: StepStatus, segment: SegmentInfo, hostname: string)

  function Print(entries: seq<Entry>): seq<string> {
    if entries == [] then []
    else [match entries[0] case NoMaster => "" case Entry(st, s, h) => Line(st, s, h)] + Print(entries[1..])
  }

  function Reported(entries: seq<Entry>): seq<StepStatus> {
    if entries == [] then []
    else (if entries[0].NoMaster? then [] else [entries[0].status]) + Reported(entries[1..])
  }

  // The keywords that the hostnames smuggle into the text.
  function Spurious(entries: seq<Entry>): seq<StepStatus> {
    if entries == [] then []
    else (if entries[0].NoMaster? then [] else Named(entries[0].hostname)) + Spurious(entries[1..])
  }

  function Named(hostname: string): (ks: seq<StepStatus>)
    ensures forall k :: k in ks <==> IsKeyword(k) && Contains(hostname, StatusName(k))
  {
    (if Contains(hostname, "FAILED") then [FAILED] else []) +
    (if Contains(hostname, "RUNNING") then [RUNNING] else []) +
    (if Contains(hostname, "COMPLETE") then [COMPLETE] else [])
  }

  lemma {:induction false} PrintKeywords(entries: seq<Entry>, k: StepStatus)
    requires IsKeyword(k)
    ensures SomeLine(Print(entries), k) <==> k in Reported(entries) || k in Spurious(entries)
  {
    if entries != [] {
      var e, rest := entries[0], entries[1..];
      PrintKeywords(rest, k);
      var line := Print(entries)[0];
      assert Print(entries) == [line] + Print(rest);
      assert !Contains("", StatusName(k));
      if e.Entry? { LineContains(e.status, e.segment, e.hostname, k); }
      assert forall l :: l in Print(entries) <==> l == line || l in Print(rest);
    }
  }

  // Deciding on the text is deciding on the statuses and on the keywords in the
  // hostnames, for all lists.
  lemma TextDecisionExact(entries: seq<Entry>)
    ensures ConvertPrimariesStatus(Print(entries)) == Overall(Reported(entries) + Spurious(entries))
  {
    forall k | IsKeyword(k) ensures SomeLine(Print(entries), k) <==> k in Reported(entries) + Spurious(entries) {
      PrintKeywords(entries, k);
    }
    DecisionByLines(Print(entries), Reported(entries) + Spurious(entries));
  }

  lemma {:induction false} NothingSpurious(entries: seq<Entry>)
    requires forall e :: e in entries && e.Entry? ==> Clean(e.hostname)
    ensures Spurious(entries) == []
  {
    if entries != [] { NothingSpurious(entries[1..]); }
  }

  // With hostnames free of keywords, it is deciding on the statuses.
  lemma TextDecisionIsFold(entries: seq<Entry>)
    requires forall e :: e in entries && e.Entry? ==> Clean(e.hostname)
    ensures ConvertPrimariesStatus(Print(entries)) == Overall(Reported(entries))
  {
    TextDecisionExact(entries);
    NothingSpurious(entries);
    assert Reported(entries) + [] == Reported(entries);
  }

  // --- end to end -------------------------------------------------------------------

  // The true status of a segment: what its agent finds for it.
  type Truth = (string, SegmentInfo) -> StepStatus

  function AgentsTelling(truth: Truth): Agents {
    (r: Request) => Report(r.segments, r.hostname, CheckerOf(truth, r.hostname))
  }

  function CheckerOf(truth: Truth, hostname: string): Checker {
    (s: SegmentInfo) => Checked(truth(hostname, s))
  }

  function TrueStatuses(config: SegmentConfiguration, truth: Truth): seq<StepStatus> {
    seq(|config|, i requires 0 <= i < |config| => truth(config[i].hostname, Info(config[i])))
  }

  // Whatever hosts are connected, each agent is sent the segments of its own host.
  lemma SentOwnSegments(config: SegmentConfiguration, conns: seq<string>, groups: GroupsByHost, i: nat)
    requires Grouped(groups, config) && i < |conns|
    ensures Requests(groups, conns)[i] == Request(conns[i], Infos(OnHost(config, conns[i])))
    ensures OnHost(config, conns[i]) != [] <==> HasHost(config, conns[i])
  {
    GroupHasHost(config, conns[i]);
  }

  // Together they are sent every segment of the connected hosts once: all of the
  // configuration when all its hosts are connected.
  lemma EverySegmentSentOnce(config: SegmentConfiguration, conns: seq<string>, groups: GroupsByHost)
    requires Grouped(groups, config) && NoDuplicates(conns)
    ensures forall i :: 0 <= i < |conns| ==> AsksAbout(Requests(groups, conns)[i], conns[i], OnHost(config, conns[i]))
    ensures multiset(Groups(config, conns)) == multiset(OnHosts(config, conns))
    ensures Covers(conns, config) ==> multiset(Groups(config, conns)) == multiset(config)
  {
    forall i | 0 <= i < |conns|
      ensures AsksAbout(Requests(groups, conns)[i], conns[i], OnHost(config, conns[i]))
    {
      SentOwnSegments(config, conns, groups, i);
      RequestAsks(groups, conns, i);
    }
    GroupsPartition(config, conns);
    if Covers(conns, config) { CoveredIsAll(config, conns); }
  }

  // No agent refuses exactly when every connected host is in the configuration.
  lemma AllAnswerIff(config: SegmentConfiguration, conns: seq<string>, groups: GroupsByHost, truth: Truth)
    requires Grouped(groups, config)
    ensures Answering(Requests(groups, conns), AgentsTelling(truth)) <==> Connected(conns, config)
  {
    forall i | 0 <= i < |conns|
      ensures AgentsTelling(truth)(Requests(groups, conns)[i]).Statuses? <==> HasHost(config, conns[i])
    {
      SentOwnSegments(config, conns, groups, i);
    }
    if Answering(Requests(groups, conns), AgentsTelling(truth)) {
      forall h | h in conns ensures HasHost(config, h) {
        var i :| 0 <= i < |conns| && conns[i] == h;
        assert AgentsTelling(truth)(Requests(groups, conns)[i]).Statuses?;
      }
    }
  }

  // The number of lines: one per host and one per segment that is not a master.
  function PrimariesOn(config: SegmentConfiguration, hosts: seq<string>): nat {
    if hosts == [] then 0
    else
      var n := |hosts| - 1;
      PrimariesOn(config, hosts[..n]) + CountPrimaries(Infos(OnHost(config, hosts[n])))
  }

  lemma CountExtends(front: SegmentConfiguration, x: Segment)
    ensures CountPrimaries(Infos(front + [x])) == CountPrimaries(Infos(front)) + if IsMaster(Info(x)) then 0 else 1
  {
    assert Infos(front + [x])[..|front|] == Infos(front);
  }

  lemma GroupCount(config: SegmentConfiguration, x: Segment, h: string)
    ensures CountPrimaries(Infos(OnHost(config + [x], h))) ==
            CountPrimaries(Infos(OnHost(config, h))) + if x.hostname == h && !IsMaster(Info(x)) then 1 else 0
  {
    OneMore(config, x, h);
    CountExtends(OnHost(config, h), x);
    assert OnHost(config, h) + [] == OnHost(config, h);
  }

  lemma LastHost(hosts: seq<string>, h: string)
    requires NoDuplicates(hosts) && hosts != []
    ensures var n := |hosts| - 1;
            && (h in hosts <==> h in hosts[..n] || h == hosts[n])
            && !(h in hosts[..n] && h == hosts[n])
  {
    assert hosts == hosts[..|hosts| - 1] + [hosts[|hosts| - 1]];
  }

  lemma {:induction false} PrimariesExtend(config: SegmentConfiguration, x: Segment, hosts: seq<string>)
    requires NoDuplicates(hosts)
    ensures PrimariesOn(config + [x], hosts) ==
            PrimariesOn(config, hosts) + if x.hostname in hosts && !IsMaster(Info(x)) then 1 else 0
  {
    if hosts != [] {
      var n := |hosts| - 1;
      PrimariesExtend(config, x, hosts[..n]);
      GroupCount(config, x, hosts[n]);
      LastHost(hosts, x.hostname);
    }
  }

  lemma {:induction false} PrimariesTotal(config: SegmentConfiguration, hosts: seq<string>)
    requires NoDuplicates(hosts)
    ensures PrimariesOn(config, hosts) == CountPrimaries(Infos(OnHosts(config, hosts)))
  {
    if config == [] {
      NoPrimaries(hosts);
    } else {
      var front, x := config[..|config| - 1], config[|config| - 1];
      assert front + [x] == config;
      PrimariesTotal(front, hosts);
      PrimariesExtend(front, x, hosts);
      CountOnHosts(front, x, hosts);
    }
  }

  lemma CountOnHosts(config: SegmentConfiguration, x: Segment, hosts: seq<string>)
    ensures CountPrimaries(Infos(OnHosts(config + [x], hosts))) ==
            CountPrimaries(Infos(OnHosts(config, hosts))) + if x.hostname in hosts && !IsMaster(Info(x)) then 1 else 0
  {
    OnHostsExtends(config, x, hosts);
    CountExtends(OnHosts(config, hosts), x);
  }

  lemma {:induction false} NoPrimaries(hosts: seq<string>)
    ensures PrimariesOn([], hosts) == 0
  {
    if hosts != [] { NoPrimaries(hosts[..|hosts| - 1]); }
  }

  // The lines agent h sends.
  function LinesOf(config: SegmentConfiguration, h: string, truth: Truth): seq<string> {
    [MasterLine(Infos(OnHost(config, h)), h, CheckerOf(truth, h))] +
        PrimaryLines(Infos(OnHost(config, h)), h, CheckerOf(truth, h))
  }

  function Flatten(blocks: seq<seq<string>>): seq<string> {
    if blocks == [] then [] else Flatten(blocks[..|blocks| - 1]) + blocks[|blocks| - 1]
  }

  lemma {:induction false} CollectIsFlatten(requests: seq<Request>, agents: Agents, blocks: seq<seq<string>>)
    requires |requests| == |blocks| && forall i :: 0 <= i < |blocks| ==> agents(requests[i]) == Statuses(blocks[i])
    ensures Collect(requests, agents) == Flatten(blocks)
  {
    if blocks != [] {
      var n := |blocks| - 1;
      CollectIsFlatten(requests[..n], agents, blocks[..n]);
    }
  }

  lemma AgentAnswers(config: SegmentConfiguration, conns: seq<string>, groups: GroupsByHost, truth: Truth, i: nat)
    requires Connected(conns, config) && Grouped(groups, config) && i < |conns|
    ensures AgentsTelling(truth)(Requests(groups, conns)[i]) == Statuses(LinesOf(config, conns[i], truth))
  {
    SentOwnSegments(config, conns, groups, i);
    assert conns[i] in conns;
  }

  lemma RepliesAre(config: SegmentConfiguration, conns: seq<string>, groups: GroupsByHost, truth: Truth)
      returns (blocks: seq<seq<string>>)
    requires Connected(conns, config) && Grouped(groups, config)
    ensures |blocks| == |conns| && forall i :: 0 <= i < |conns| ==> blocks[i] == LinesOf(config, conns[i], truth)
    ensures Collect(Requests(groups, conns), AgentsTelling(truth)) == Flatten(blocks)
  {
    blocks := seq(|conns|, i requires 0 <= i < |conns| => LinesOf(config, conns[i], truth));
    forall i | 0 <= i < |conns| ensures AgentsTelling(truth)(Requests(groups, conns)[i]) == Statuses(blocks[i]) {
      AgentAnswers(config, conns, groups, truth, i);
    }
    CollectIsFlatten(Requests(groups, conns), AgentsTelling(truth), blocks);
  }

  lemma {:induction false} FlattenLength(config: SegmentConfiguration, hosts: seq<string>, blocks: seq<seq<string>>)
    requires |blocks| == |hosts|
    requires forall i :: 0 <= i < |hosts| ==> |blocks[i]| == 1 + CountPrimaries(Infos(OnHost(config, hosts[i])))
    ensures |Flatten(blocks)| == |hosts| + PrimariesOn(config, hosts)
  {
    if hosts != [] {
      var n := |hosts| - 1;
      FlattenLength(config, hosts[..n], blocks[..n]);
    }
  }

  // The segments that are not the master, the one with dbid 1 and content id -1.
  function NonMasters(config: SegmentConfiguration): nat {
    if config == [] then 0
    else
      var last := config[|config| - 1];
      NonMasters(config[..|config| - 1]) + if last.dbid == 1 && last.content == -1 then 0 else 1
  }

  lemma {:induction false} CountIsNonMasters(config: SegmentConfiguration)
    ensures CountPrimaries(Infos(config)) == NonMasters(config)
  {
    if config != [] {
      var front, x := config[..|config| - 1], config[|config| - 1];
      CountIsNonMasters(front);
      CountExtends(front, x);
      assert config == front + [x];
    }
  }

  // The strings of a reply: one for each connected host and one for each segment on
  // them that is not a master.
  lemma ConversionReplyLength(config: SegmentConfiguration, conns: seq<string>, groups: GroupsByHost, truth: Truth)
    requires Connected(conns, config) && NoDuplicates(conns) && Grouped(groups, config)
    ensures |Collect(Requests(groups, conns), AgentsTelling(truth))| ==
            |conns| + NonMasters(OnHosts(config, conns))
    ensures Covers(conns, config) ==>
              |Collect(Requests(groups, conns), AgentsTelling(truth))| == |conns| + NonMasters(config)
  {
    var blocks := RepliesAre(config, conns, groups, truth);
    forall i | 0 <= i < |conns| ensures |blocks[i]| == 1 + CountPrimaries(Infos(OnHost(config, conns[i]))) {
      assert conns[i] in conns;
      GroupHasHost(config, conns[i]);
      ReplyLength(Infos(OnHost(config, conns[i])), conns[i], CheckerOf(truth, conns[i]));
    }
    FlattenLength(config, conns, blocks);
    PrimariesTotal(config, conns);
    CountIsNonMasters(OnHosts(config, conns));
    if Covers(conns, config) { CoveredIsAll(config, conns); }
  }

  // Some segment on one of the hosts has status k.
  ghost predicate SomeOn(config: SegmentConfiguration, hosts: seq<string>, truth: Truth, k: StepStatus) {
    exists i :: 0 <= i < |config| && config[i].hostname in hosts && truth(config[i].hostname, Info(config[i])) == k
  }

  lemma GroupKeywords(config: SegmentConfiguration, host: string, truth: Truth, k: StepStatus)
    ensures SomeSegment(Infos(OnHost(config, host)), CheckerOf(truth, host), k) <==> SomeOn(config, [host], truth, k)
  {
    var group := OnHost(config, host);
    if SomeSegment(Infos(group), CheckerOf(truth, host), k) {
      var i :| 0 <= i < |group| && CheckerOf(truth, host)(Infos(group)[i]) == Checked(k);
      assert group[i] in group;
      var j :| 0 <= j < |config| && config[j] == group[i];
      assert config[j].hostname in [host];
    }
    if SomeOn(config, [host], truth, k) {
      var j :| 0 <= j < |config| && config[j].hostname in [host] && truth(config[j].hostname, Info(config[j])) == k;
      assert config[j] in group;
      var i :| 0 <= i < |group| && group[i] == config[j];
      assert CheckerOf(truth, host)(Infos(group)[i]) == Checked(k);
    }
  }

  // The lines of host h carry keyword k: a segment on it that is not a master, or
  // its last master, has that status, or its name contains the keyword.
  ghost predicate ToldBy(config: SegmentConfiguration, h: string, truth: Truth, k: StepStatus) {
    SomeTold(Infos(OnHost(config, h)), h, CheckerOf(truth, h), k)
  }

  ghost predicate Tells(config: SegmentConfiguration, hosts: seq<string>, truth: Truth, k: StepStatus) {
    exists h :: h in hosts && ToldBy(config, h, truth, k)
  }

  lemma {:induction false} FlattenKeywords(config: SegmentConfiguration, hosts: seq<string>, truth: Truth,
                                           blocks: seq<seq<string>>, k: StepStatus)
    requires |blocks| == |hosts|
    requires forall i :: 0 <= i < |hosts| ==> (SomeLine(blocks[i], k) <==> ToldBy(config, hosts[i], truth, k))
    ensures SomeLine(Flatten(blocks), k) <==> Tells(config, hosts, truth, k)
  {
    if hosts != [] {
      var n := |hosts| - 1;
      FlattenKeywords(config, hosts[..n], truth, blocks[..n], k);
      LinesJoin(Flatten(blocks[..n]), blocks[n], k);
      TellsLast(config, hosts, truth, k);
    }
  }

  lemma LinesJoin(a: seq<string>, b: seq<string>, k: StepStatus)
    ensures SomeLine(a + b, k) <==> SomeLine(a, k) || SomeLine(b, k)
  {
    assert forall l :: l in a + b <==> l in a || l in b;
  }

  lemma TellsLast(config: SegmentConfiguration, hosts: seq<string>, truth: Truth, k: StepStatus)
    requires hosts != []
    ensures var n := |hosts| - 1;
            Tells(config, hosts, truth, k) <==>
            Tells(config, hosts[..n], truth, k) || ToldBy(config, hosts[n], truth, k)
  {
    var n := |hosts| - 1;
    assert forall h :: h in hosts <==> h in hosts[..n] || h == hosts[n];
  }

  lemma CollectedKeywords(config: SegmentConfiguration, conns: seq<string>, groups: GroupsByHost, truth: Truth,
                          k: StepStatus)
    requires Connected(conns, config) && Grouped(groups, config) && IsKeyword(k)
    ensures SomeLine(Collect(Requests(groups, conns), AgentsTelling(truth)), k) <==> Tells(config, conns, truth, k)
  {
    var blocks := RepliesAre(config, conns, groups, truth);
    forall i | 0 <= i < |conns| ensures SomeLine(blocks[i], k) <==> ToldBy(config, conns[i], truth, k) {
      ReplyKeywordsExact(Infos(OnHost(config, conns[i])), conns[i], CheckerOf(truth, conns[i]), k);
    }
    FlattenKeywords(config, conns, truth, blocks, k);
  }

  // The whole pipeline, for every configuration and whatever hosts are connected:
  // printing on the agents, collecting, joining and searching decides by what the
  // connected hosts tell.
  lemma ConvertPrimariesStatusExact(config: SegmentConfiguration, conns: seq<string>, groups: GroupsByHost,
                                    truth: Truth)
    requires Connected(conns, config) && Grouped(groups, config)
    ensures ConvertPrimariesStatus(Collect(Requests(groups, conns), AgentsTelling(truth))) ==
            if Tells(config, conns, truth, FAILED) then FAILED
            else if Tells(config, conns, truth, RUNNING) then RUNNING
            else if Tells(config, conns, truth, COMPLETE) then COMPLETE
            else PENDING
  {
    DecisionBySearch(Collect(Requests(groups, conns), AgentsTelling(truth)));
    CollectedKeywords(config, conns, groups, truth, FAILED);
    CollectedKeywords(config, conns, groups, truth, RUNNING);
    CollectedKeywords(config, conns, groups, truth, COMPLETE);
  }

  // With at most one master on each host and hostnames free of keywords, that is
  // the fold of the true statuses of the segments on the connected hosts.
  ghost predicate OneMasterPerHost(config: SegmentConfiguration) {
    forall i, j :: 0 <= i < j < |config| && config[i].hostname == config[j].hostname ==>
      !(config[i].dbid == 1 && config[i].content == -1 && config[j].dbid == 1 && config[j].content == -1)
  }

  lemma OneMasterOnHost(config: SegmentConfiguration, h: string)
    requires OneMasterPerHost(config)
    ensures OneMaster(Infos(OnHost(config, h)))
  {
    var group := OnHost(config, h);
    var places := OnHostKeepsOrder(config, h);
    forall i, j | 0 <= i < j < |group| ensures !(IsMaster(Infos(group)[i]) && IsMaster(Infos(group)[j])) {
      assert places[i] < places[j] && group[i] == config[places[i]] && group[j] == config[places[j]];
      assert group[i] in group && group[j] in group;
    }
  }

  ghost predicate AllClean(conns: seq<string>) {
    forall h :: h in conns ==> Clean(h)
  }

  lemma TellsTruth(config: SegmentConfiguration, conns: seq<string>, truth: Truth, k: StepStatus)
    requires Connected(conns, config) && OneMasterPerHost(config) && AllClean(conns) && IsKeyword(k)
    ensures Tells(config, conns, truth, k) <==> k in TrueStatuses(OnHosts(config, conns), truth)
  {
    forall h | h in conns ensures ToldBy(config, h, truth, k) <==> SomeOn(config, [h], truth, k) {
      OneMasterOnHost(config, h);
      AllTold(Infos(OnHost(config, h)), h, CheckerOf(truth, h), k);
      GroupKeywords(config, h, truth, k);
    }
    SomeOnEach(config, conns, truth, k);
    TrueStatusesHave(config, conns, truth, k);
  }

  lemma SomeOnEach(config: SegmentConfiguration, hosts: seq<string>, truth: Truth, k: StepStatus)
    ensures SomeOn(config, hosts, truth, k) <==> exists h :: h in hosts && SomeOn(config, [h], truth, k)
  {
    if SomeOn(config, hosts, truth, k) {
      var i :| 0 <= i < |config| && config[i].hostname in hosts && truth(config[i].hostname, Info(config[i])) == k;
      assert config[i].hostname in [config[i].hostname];
      assert SomeOn(config, [config[i].hostname], truth, k);
    }
  }

  lemma TrueStatusesHave(config: SegmentConfiguration, hosts: seq<string>, truth: Truth, k: StepStatus)
    ensures SomeOn(config, hosts, truth, k) <==> k in TrueStatuses(OnHosts(config, hosts), truth)
  {
    HasStatusIff(OnHosts(config, hosts), truth, k);
    if SomeOn(config, hosts, truth, k) {
      var i :| 0 <= i < |config| && config[i].hostname in hosts && truth(config[i].hostname, Info(config[i])) == k;
      OnHostsHas(config, hosts, config[i]);
    }
    if k in TrueStatuses(OnHosts(config, hosts), truth) {
      var s :| s in OnHosts(config, hosts) && truth(s.hostname, Info(s)) == k;
      OnHostsHas(config, hosts, s);
      var i :| 0 <= i < |config| && config[i] == s;
    }
  }

  lemma HasStatusIff(config: SegmentConfiguration, truth: Truth, k: StepStatus)
    ensures k in TrueStatuses(config, truth) <==> exists s :: s in config && truth(s.hostname, Info(s)) == k
  {
    if k in TrueStatuses(config, truth) {
      var i :| 0 <= i < |config| && TrueStatuses(config, truth)[i] == k;
      assert config[i] in config;
    }
    if exists s :: s in config && truth(s.hostname, Info(s)) == k {
      var s :| s in config && truth(s.hostname, Info(s)) == k;
      var i :| 0 <= i < |config| && config[i] == s;
      assert TrueStatuses(config, truth)[i] == k;
    }
  }

  lemma ConvertPrimariesStatusIsTrue(config: SegmentConfiguration, conns: seq<string>, groups: GroupsByHost,
                                     truth: Truth)
    requires Connected(conns, config) && Grouped(groups, config)
    requires OneMasterPerHost(config) && AllClean(conns)
    ensures ConvertPrimariesStatus(Collect(Requests(groups, conns), AgentsTelling(truth))) ==
            Overall(TrueStatuses(OnHosts(config, conns), truth))
  {
    ConvertPrimariesStatusExact(config, conns, groups, truth);
    TellsTruth(config, conns, truth, FAILED);
    TellsTruth(config, conns, truth, RUNNING);
    TellsTruth(config, conns, truth, COMPLETE);
  }

  // --- connections to some of the hosts only ---------------------------------------

  // A failure on a host that is not connected is not seen: when all other segments
  // are complete, so is the status.
  lemma FailureNotSeen(config: SegmentConfiguration, conns: seq<string>, groups: GroupsByHost, h: string)
      returns (truth: Truth)
    requires Connected(conns, config) && Grouped(groups, config)
    requires OneMasterPerHost(config) && AllClean(conns)
    requires HasHost(config, h) && h !in conns && conns != []
    ensures Overall(TrueStatuses(config, truth)) == FAILED
    ensures ConvertPrimariesStatus(Collect(Requests(groups, conns), AgentsTelling(truth))) == COMPLETE
  {
    truth := FailingOn(h);
    FailedThere(config, h);
    ConvertPrimariesStatusIsTrue(config, conns, groups, truth);
    CompleteElsewhere(config, conns, h);
  }

  lemma FailedThere(config: SegmentConfiguration, h: string)
    requires HasHost(config, h)
    ensures Overall(TrueStatuses(config, FailingOn(h))) == FAILED
  {
    var i :| 0 <= i < |config| && config[i].hostname == h;
    assert TrueStatuses(config, FailingOn(h))[i] == FAILED;
  }

  function FailingOn(h: string): Truth {
    (hostname: string, s: SegmentInfo) => if hostname == h then FAILED else COMPLETE
  }

  lemma CompleteElsewhere(config: SegmentConfiguration, conns: seq<string>, h: string)
    requires Connected(conns, config) && h !in conns && conns != []
    ensures Overall(TrueStatuses(OnHosts(config, conns), FailingOn(h))) == COMPLETE
  {
    var part, statuses := OnHosts(config, conns), TrueStatuses(OnHosts(config, conns), FailingOn(h));
    forall i | 0 <= i < |part| ensures statuses[i] == COMPLETE {
      OnHostsHas(config, conns, part[i]);
    }
    assert HasHost(config, conns[0]) by { assert conns[0] in conns; }
    var j :| 0 <= j < |config| && config[j].hostname == conns[0];
    OnHostsHas(config, conns, config[j]);
    assert statuses[0] == COMPLETE;
  }

  // The decision is right about all segments, whatever their statuses are.
  ghost predicate AlwaysTrue(config: SegmentConfiguration, conns: seq<string>, groups: GroupsByHost) {
    forall truth: Truth ::
      ConvertPrimariesStatus(Collect(Requests(groups, conns), AgentsTelling(truth))) ==
      Overall(TrueStatuses(config, truth))
  }

  // It is so exactly when every host of the configuration is connected.
  lemma AlwaysTrueIffCovered(config: SegmentConfiguration, conns: seq<string>, groups: GroupsByHost)
    requires Connected(conns, config) && Grouped(groups, config)
    requires OneMasterPerHost(config) && AllClean(conns)
    ensures AlwaysTrue(config, conns, groups) <==> Covers(conns, config)
  {
    if Covers(conns, config) {
      CoveredIsAll(config, conns);
      forall truth: Truth
        ensures ConvertPrimariesStatus(Collect(Requests(groups, conns), AgentsTelling(truth))) ==
                Overall(TrueStatuses(config, truth))
      {
        ConvertPrimariesStatusIsTrue(config, conns, groups, truth);
      }
    } else {
      var h :| HasHost(config, h) && h !in conns;
      var truth := UnseenTruth(config, conns, groups, h);
    }
  }

  lemma NoConnections(groups: GroupsByHost, truth: Truth)
    ensures ConvertPrimariesStatus(Collect(Requests(groups, []), AgentsTelling(truth))) == PENDING
  {
    DecisionBySearch([]);
  }

  lemma UnseenTruth(config: SegmentConfiguration, conns: seq<string>, groups: GroupsByHost, h: string)
      returns (truth: Truth)
    requires Connected(conns, config) && Grouped(groups, config)
    requires OneMasterPerHost(config) && AllClean(conns) && HasHost(config, h) && h !in conns
    ensures ConvertPrimariesStatus(Collect(Requests(groups, conns), AgentsTelling(truth))) !=
            Overall(TrueStatuses(config, truth))
  {
    if conns != [] {
      truth := FailureNotSeen(config, conns, groups, h);
    } else {
      truth := FailingOn(h);
      FailedThere(config, h);
      NoConnections(groups, truth);
    }
  }
}

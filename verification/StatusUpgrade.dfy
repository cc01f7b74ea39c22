// The ten-step report of the hub.
module StatusUpgrade {
  import opened Idl
  import opened Markers
  import opened StateCheck
  import opened HubSystem
  import opened Observations
  import opened Config
  import opened StatusConversion
  import AC = AgentConns
  import CS = ConversionStatus

  datatype UpgradeStep =
    | CHECK_CONFIG | SEGINSTALL | PREPARE_INIT_CLUSTER | STOPPED_CLUSTER | MASTERUPGRADE
    | PREPARE_START_AGENTS | SHARE_OIDS | VALIDATE_START_CLUSTER | CONVERT_PRIMARIES | RECONFIGURE_PORTS

  // A check that reports an error leaves no entry in its place.
  datatype Item = Missing | Item(step: UpgradeStep, status: StepStatus)

  function FromCheck(step: UpgradeStep, p: Polled): Item {
    match p case Polled(st) => Item(step, st) case TooManyFiles => Missing
  }

  // The new cluster is prepared when its configuration file can be stat'ed.
  function PrepareNewClusterConfigStatus(statOk: bool): StepStatus {
    if statOk then COMPLETE else PENDING
  }

  // When one of the connected agents did not answer there are no lines.
  function ConversionLines(reply: CS.Reply): seq<string> {
    match reply case Statuses(lines) => lines case Refused => []
  }

  function ConversionStatusOf(reply: CS.Reply): StepStatus {
    ConvertPrimariesStatus(ConversionLines(reply))
  }

  function Report(checkConfig: Polled, seginstall: Polled, newConfigStatOk: bool,
                  gpstop: StepStatus, master: StepStatus,
                  startAgents: Polled, shareOids: Polled, validateStartCluster: Polled,
                  convertPrimaries: StepStatus, reconfigurePorts: Polled): (r: seq<Item>)
    ensures |r| == 10
  {
    [ FromCheck(CHECK_CONFIG, checkConfig),
      FromCheck(SEGINSTALL, seginstall),
      Item(PREPARE_INIT_CLUSTER, PrepareNewClusterConfigStatus(newConfigStatOk)),
      Item(STOPPED_CLUSTER, gpstop),
      Item(MASTERUPGRADE, master),
      FromCheck(PREPARE_START_AGENTS, startAgents),
      FromCheck(SHARE_OIDS, shareOids),
      FromCheck(VALIDATE_START_CLUSTER, validateStartCluster),
      Item(CONVERT_PRIMARIES, convertPrimaries),
      FromCheck(RECONFIGURE_PORTS, reconfigurePorts) ]
  }

  // The instants of a run at which one check did its Stat and its Glob, and
  // what went wrong with those reads.
  datatype Look = Look(stat: nat, glob: nat, faults: ReadFaults)

  predicate InRun(l: Look, states: seq<Hub>) {
    l.stat <= l.glob < |states|
  }

  function PollAt(states: seq<Hub>, s: Step, l: Look): Polled
    requires InRun(l, states)
  {
    Poll(At(states[l.stat].tree, s), At(states[l.glob].tree, s), l.faults)
  }

  lemma LookNeverErrs(states: seq<Hub>, actions: seq<Action>, s: Step, l: Look)
    requires IsRun(states, actions) && InRun(l, states) && AtMostOne(Listing(At(states[0].tree, s)))
    requires Guarded(s) || RemovalsSucceed(states, actions, s)
    ensures PollAt(states, s, l).Polled?
  {
    if Guarded(s) {
      GuardedPollNeverErrs(states, actions, s, l.stat, l.glob, l.faults);
    } else {
      RemovablePollNeverErrs(states, actions, s, l.stat, l.glob, l.faults);
    }
  }

  // --- the report, put together while jobs run -----------------------------------------

  // The steps whose status is read from markers in a directory of their own.
  predicate ByMarkers(s: Step) {
    s != GpstopOld && s != GpstopNew
  }

  predicate LooksIn(looks: map<Step, Look>, states: seq<Hub>) {
    forall s: Step :: ByMarkers(s) ==> s in looks && InRun(looks[s], states)
  }

  // The checks of these steps in one report: those of the guarded steps never fail,
  // that of share-oids does not as long as its directory can be removed.
  lemma MarkerChecksAnswer(states: seq<Hub>, actions: seq<Action>, looks: map<Step, Look>, s: Step)
    requires IsRun(states, actions) && LooksIn(looks, states) && ByMarkers(s)
    requires AtMostOne(Listing(At(states[0].tree, s)))
    ensures PollAt(states, s, looks[s]).TooManyFiles? ==> s == ShareOids && !RemovalsSucceed(states, actions, s)
  {
    if Guarded(s) || RemovalsSucceed(states, actions, s) { LookNeverErrs(states, actions, s, looks[s]); }
  }

  function EntryOf(s: Step): UpgradeStep
    requires ByMarkers(s)
  {
    match s
    case Seginstall => SEGINSTALL
    case StartAgents => PREPARE_START_AGENTS
    case ShareOids => SHARE_OIDS
    case _ => VALIDATE_START_CLUSTER
  }

  // What the other checks say.
  datatype Others = Others(checkConfig: Polled, newConfigStatOk: bool, gpstop: StepStatus, master: StepStatus,
                           convertPrimaries: StepStatus, reconfigurePorts: Polled)

  function ReportIn(states: seq<Hub>, looks: map<Step, Look>, o: Others): seq<Item>
    requires LooksIn(looks, states)
  {
    Report(o.checkConfig, PollAt(states, Seginstall, looks[Seginstall]), o.newConfigStatOk, o.gpstop, o.master,
           PollAt(states, StartAgents, looks[StartAgents]), PollAt(states, ShareOids, looks[ShareOids]),
           PollAt(states, ValidateStartCluster, looks[ValidateStartCluster]), o.convertPrimaries, o.reconfigurePorts)
  }

  // Every step has the status in the report that its own check gave, and no other.
  lemma EntriesAre(states: seq<Hub>, looks: map<Step, Look>, o: Others, step: UpgradeStep, st: StepStatus)
    requires LooksIn(looks, states)
    ensures Item(step, st) in ReportIn(states, looks, o) <==>
            match step
            case CHECK_CONFIG => o.checkConfig == Polled(st)
            case SEGINSTALL => PollAt(states, Seginstall, looks[Seginstall]) == Polled(st)
            case PREPARE_INIT_CLUSTER => st == if o.newConfigStatOk then COMPLETE else PENDING
            case STOPPED_CLUSTER => st == o.gpstop
            case MASTERUPGRADE => st == o.master
            case PREPARE_START_AGENTS => PollAt(states, StartAgents, looks[StartAgents]) == Polled(st)
            case SHARE_OIDS => PollAt(states, ShareOids, looks[ShareOids]) == Polled(st)
            case VALIDATE_START_CLUSTER => PollAt(states, ValidateStartCluster, looks[ValidateStartCluster]) ==
                Polled(st)
            case CONVERT_PRIMARIES => st == o.convertPrimaries
            case RECONFIGURE_PORTS => o.reconfigurePorts == Polled(st)
  {
    OnlyRow(states, looks, o, step, st);
  }

  // The steps that are there come in one order.
  lemma RowsInOrder(states: seq<Hub>, looks: map<Step, Look>, o: Others, i: nat, j: nat)
    requires LooksIn(looks, states) && i < j < 10
    ensures var r := ReportIn(states, looks, o); r[i].Item? && r[j].Item? ==> Row(r[i].step) < Row(r[j].step)
  {
    RowIs(states, looks, o, i);
    RowIs(states, looks, o, j);
  }

  // The rows of the report, in its order.
  function Row(step: UpgradeStep): (n: nat)
    ensures n < 10
  {
    match step
    case CHECK_CONFIG => 0
    case SEGINSTALL => 1
    case PREPARE_INIT_CLUSTER => 2
    case STOPPED_CLUSTER => 3
    case MASTERUPGRADE => 4
    case PREPARE_START_AGENTS => 5
    case SHARE_OIDS => 6
    case VALIDATE_START_CLUSTER => 7
    case CONVERT_PRIMARIES => 8
    case RECONFIGURE_PORTS => 9
  }

  lemma OnlyRow(states: seq<Hub>, looks: map<Step, Look>, o: Others, step: UpgradeStep, st: StepStatus)
    requires LooksIn(looks, states)
    ensures Item(step, st) in ReportIn(states, looks, o) <==> ReportIn(states, looks, o)[Row(step)] == Item(step, st)
  {
    var r := ReportIn(states, looks, o);
    if Item(step, st) in r {
      var i :| 0 <= i < 10 && r[i] == Item(step, st);
      RowIs(states, looks, o, i);
    }
  }

  lemma RowIs(states: seq<Hub>, looks: map<Step, Look>, o: Others, i: nat)
    requires LooksIn(looks, states) && i < 10
    ensures var e := ReportIn(states, looks, o)[i]; e.Item? ==> Row(e.step) == i
  {
  }

  lemma EntryIs(states: seq<Hub>, looks: map<Step, Look>, o: Others, s: Step, st: StepStatus)
    requires LooksIn(looks, states) && ByMarkers(s)
    ensures Item(EntryOf(s), st) in ReportIn(states, looks, o) <==> PollAt(states, s, looks[s]) == Polled(st)
  {
    EntriesAre(states, looks, o, EntryOf(s), st);
  }

  // The report leaves a step out exactly when its directory was there and held two
  // files when it was listed.
  lemma EntryMissingIff(states: seq<Hub>, looks: map<Step, Look>, o: Others, s: Step)
    requires LooksIn(looks, states) && ByMarkers(s)
    ensures (forall st :: Item(EntryOf(s), st) !in ReportIn(states, looks, o)) <==>
            && At(states[looks[s].stat].tree, s).Present? && !looks[s].faults.stat && !looks[s].faults.glob
            && !AtMostOne(Listing(At(states[looks[s].glob].tree, s)))
  {
    var l := looks[s];
    TooManyIff(At(states[l.stat].tree, s), At(states[l.glob].tree, s), l.faults);
    forall st ensures Item(EntryOf(s), st) in ReportIn(states, looks, o) <==> PollAt(states, s, l) == Polled(st) {
      EntryIs(states, looks, o, s, st);
    }
    var p := PollAt(states, s, l);
    if p.Polled? { assert Item(EntryOf(s), p.status) in ReportIn(states, looks, o); }
  }

  // While jobs run, crash and are launched again, the report gives each of these
  // steps one status, that of its directory at an instant during the report.
  lemma StepReported(states: seq<Hub>, actions: seq<Action>, looks: map<Step, Look>, o: Others, s: Step)
      returns (m: nat)
    requires IsRun(states, actions) && LooksIn(looks, states) && ByMarkers(s)
    requires AtMostOne(Listing(At(states[0].tree, s))) && looks[s].faults == NO_FAULTS
    requires Guarded(s) || RemovalsSucceed(states, actions, s)
    ensures looks[s].stat <= m <= looks[s].glob && StatusOf(At(states[m].tree, s)).Polled?
    ensures forall st :: Item(EntryOf(s), st) in ReportIn(states, looks, o) <==>
                         Polled(st) == StatusOf(At(states[m].tree, s))
  {
    LookNeverErrs(states, actions, s, looks[s]);
    m := PollIsInstant(states, s, looks[s].stat, looks[s].glob);
    forall st ensures Item(EntryOf(s), st) in ReportIn(states, looks, o) <==>
           PollAt(states, s, looks[s]) == Polled(st) {
      EntryIs(states, looks, o, s, st);
    }
  }

  // A step reported COMPLETE was completed by a job that had met its success
  // condition, and has stayed so, whatever failed meanwhile.
  lemma ReportedCompleteIsEarned(states: seq<Hub>, actions: seq<Action>, looks: map<Step, Look>, o: Others, s: Step)
      returns (k: nat)
    requires IsRun(states, actions) && LooksIn(looks, states) && ByMarkers(s)
    requires Completed !in Listing(At(states[0].tree, s))
    requires Item(EntryOf(s), COMPLETE) in ReportIn(states, looks, o)
    ensures CompletedSince(states, actions, s, k, looks[s].glob)
  {
    EntryIs(states, looks, o, s, COMPLETE);
    CompleteIsListed(At(states[looks[s].stat].tree, s), At(states[looks[s].glob].tree, s), looks[s].faults);
    k := CompletedTraced(states, actions, s, looks[s].glob);
  }

  lemma CompleteIsListed(first: Dir, second: Dir, faults: ReadFaults)
    requires Poll(first, second, faults) == Polled(COMPLETE)
    ensures Completed in Listing(second)
  {
  }

  // --- the entry of the conversion ---------------------------------------------------

  // Without a reply from all connected agents there are no lines, and the entry is
  // PENDING.
  lemma RefusedIsPending()
    ensures ConversionStatusOf(CS.Refused) == PENDING
  {
    DecisionBySearch([]);
  }

  // Whatever hosts are connected: the fold of the true statuses of their segments,
  // or PENDING if one of them is not in the configuration.
  lemma ConversionEntry(config: SegmentConfiguration, conns: seq<string>, groups: GroupsByHost, truth: Truth)
    requires Grouped(groups, config) && OneMasterPerHost(config) && AllClean(conns)
    ensures ConversionStatusOf(Gathered(conns, groups, AgentsTelling(truth))) ==
            if Connected(conns, config) then Overall(TrueStatuses(OnHosts(config, conns), truth)) else PENDING
  {
    AllAnswerIff(config, conns, groups, truth);
    if Connected(conns, config) {
      ConvertPrimariesStatusIsTrue(config, conns, groups, truth);
    } else {
      RefusedIsPending();
    }
  }

  // The entry that the hub's own connections give is right about all segments,
  // whatever their statuses are, exactly when every dial of the call that made the
  // connections worked.
  lemma EntryTrueIffAllDialed(config: SegmentConfiguration, groups: GroupsByHost, caches: seq<seq<string>>,
                              calls: seq<AC.World>, replies: seq<AC.Reply>, j: nat) returns (f: nat)
    requires Grouped(groups, config) && OneMasterPerHost(config)
    requires AC.IsHistory(caches, calls, replies) && AC.FromConfig(calls, config)
    requires j < |calls| && replies[j].Conns? && replies[j].hosts != [] && AllClean(replies[j].hosts)
    ensures f <= j && caches[f] == [] && calls[f].hostnames.Hostnames?
    ensures AlwaysTrue(config, replies[j].hosts, groups) <==> AC.AllDialed(calls[f].hostnames.names, calls[f])
  {
    f := AC.ConnsCoverIff(caches, calls, replies, j, config);
    AC.ConnsAreHosts(caches, calls, replies, j, config);
    AlwaysTrueIffCovered(config, replies[j].hosts, groups);
  }
}

// The background jobs an operator can start, each with the steps it owns, and
// what has to have happened before one of them may write `completed`.
module Operations {
  import opened Markers
  import opened Programs

  // The flags of a shutdown are those that the job reads: the new cluster's only
  // once the old one has been dealt with.
  datatype Operation =
    | CheckSeginstall(hosts: seq<string>)
    | PrepareStartAgents(hosts: seq<string>, agents: seq<string>)
    | UpgradeShareOids(hosts: seq<string>)
    | UpgradeValidateStartCluster
    | PrepareShutdownClusters(oldRunning: bool, newRunning: bool)

  function Program(t: Operation): Prog {
    match t
    case CheckSeginstall(hosts) => VerifySoftware(hosts)
    case PrepareStartAgents(hosts, agents) => Start(hosts, agents)
    case UpgradeShareOids(hosts) => ShareOidFiles(hosts)
    case UpgradeValidateStartCluster => StartNewCluster()
    case PrepareShutdownClusters(old_, new_) => StopEverything(old_, new_)
  }

  // The two gpstop directories belong to one job; every other step has its own.
  function Owner(s: Step): Step {
    if s == GpstopNew then GpstopOld else s
  }

  function Slot(t: Operation): Step {
    match t
    case CheckSeginstall(_) => Seginstall
    case PrepareStartAgents(_, _) => StartAgents
    case UpgradeShareOids(_) => ShareOids
    case UpgradeValidateStartCluster => ValidateStartCluster
    case PrepareShutdownClusters(_, _) => GpstopOld
  }

  const ALL_STEPS: set<Step> := {Seginstall, StartAgents, ShareOids, ValidateStartCluster, GpstopOld, GpstopNew}

  function Territory(slot: Step): (own: set<Step>)
    ensures forall s: Step :: s in own <==> Owner(s) == slot
  {
    set s: Step | s in ALL_STEPS && Owner(s) == slot
  }

  // --- each job stays on its own steps ---------------------------------------------

  lemma ProgramConfined(t: Operation)
    ensures Confined(Program(t), Territory(Slot(t)))
  {
    var own := Territory(Slot(t));
    match t
    case CheckSeginstall(hosts) =>
      var failed, clean := HandleStatusLogging(Seginstall, true), HandleStatusLogging(Seginstall, false);
      LoggingConfined(Seginstall, own);
      RemoteExecConfined(Seginstall, hosts, failed, clean, own);
    case PrepareStartAgents(hosts, agents) =>
      var failed, clean := HandleStatusLogging(StartAgents, true), HandleStatusLogging(StartAgents, false);
      LoggingConfined(StartAgents, own);
      PingsLead(agents);
      ThroughConfined(Pings(agents), {clean, failed}, own);
      RemoteExecConfined(StartAgents, hosts, Pings(agents), Pings(agents), own);
    case UpgradeShareOids(hosts) =>
      RsyncEachConfined(hosts, false);
      assert own == {ShareOids};
      assert Confined(ShareOidsAfterReset(hosts), own);
    case UpgradeValidateStartCluster =>
      var s := ValidateStartCluster;
      ConcludeConfined(s, Completed, Done, own);
      ConcludeConfined(s, Failed, Done, own);
      assert Confined(GpstartBody(), own);
      assert Confined(MarkInProgress(s, GpstartBody(), Done), own);
    case PrepareShutdownClusters(old_, new_) =>
      StopNewConfined(new_, own);
      StopConfined(GpstopOld, StopNew(new_), own);
  }

  lemma LoggingConfined(s: Step, own: set<Step>)
    requires s in own
    ensures Confined(HandleStatusLogging(s, true), own) && Confined(HandleStatusLogging(s, false), own)
  {
    ConcludeConfined(s, Failed, Done, own);
    ConcludeConfined(s, Completed, Done, own);
  }

  lemma RemoteExecConfined(s: Step, hosts: seq<string>, failed: Prog, clean: Prog, own: set<Step>)
    requires s in own && Confined(failed, own) && Confined(clean, own)
    ensures Confined(RemoteExec(s, hosts, failed, clean), own)
  {
    var body := SshEach(hosts, false, failed, clean);
    RemoteBodyLeads(hosts, failed, clean);
    ThroughConfined(body, {failed, clean}, own);
    assert Confined(MarkInProgress(s, body, failed), own);
  }

  lemma ConcludeConfined(s: Step, f: File, next: Prog, own: set<Step>)
    requires s in own && Confined(next, own)
    ensures Confined(Conclude(s, f, next, next), own)
  {
    assert Confined(Fs(s, Create(f), next, next), own);
  }

  lemma StopConfined(s: Step, next: Prog, own: set<Step>)
    requires s in own && Confined(next, own)
    ensures Confined(StopCluster(s, next), own)
  {
    ConcludeConfined(s, Completed, next, own);
    ConcludeConfined(s, Failed, next, own);
    assert Confined(GpstopBody(s, next), own);
    assert Confined(StopAfterReset(s, next), own);
  }

  lemma StopNewConfined(new_: bool, own: set<Step>)
    requires GpstopNew in own
    ensures Confined(StopNew(new_), own)
  {
    StopConfined(GpstopNew, Done, own);
  }

  // --- each job moves every step forward only --------------------------------------

  lemma ProgramQuiet(t: Operation, s: Step)
    ensures Quiet(Program(t), s)
  {
    if Owner(s) != Slot(t) {
      ProgramConfined(t);
      ElsewhereQuiet(Program(t), Territory(Slot(t)), s);
    } else {
      OwnProgramQuiet(t, s);
    }
  }

  lemma OwnProgramQuiet(t: Operation, s: Step)
    requires Owner(s) == Slot(t)
    ensures Quiet(Program(t), s)
  {
    DoneQuiet(s);
    match t
    case CheckSeginstall(hosts) =>
      ConcludeQuiet(s, Failed, Done);
      ConcludeQuiet(s, Completed, Done);
      RemoteExecQuiet(s, hosts, HandleStatusLogging(s, true), HandleStatusLogging(s, false));
    case PrepareStartAgents(hosts, agents) =>
      ConcludeQuiet(s, Failed, Done);
      ConcludeQuiet(s, Completed, Done);
      PingsLead(agents);
      ThroughQuiet(Pings(agents), {HandleStatusLogging(s, false), HandleStatusLogging(s, true)}, s);
      RemoteExecQuiet(s, hosts, Pings(agents), Pings(agents));
    case UpgradeShareOids(hosts) =>
      RsyncEachQuiet(hosts, false);
      ResetQuiet(s, RsyncEach(hosts, false), RsyncEach(hosts, false), ShareOidsAfterReset(hosts));
    case UpgradeValidateStartCluster =>
      ConcludeQuiet(s, Failed, Done);
      ConcludeQuiet(s, Completed, Done);
      RunQuiet(GpstartBody(), s);
      ResetQuiet(s, GpstartBody(), Done, Done);
    case PrepareShutdownClusters(old_, new_) =>
      StopEverythingQuiet(old_, new_, s);
  }

  lemma DoneQuiet(s: Step)
    ensures Quiet(Done, s)
  {
  }

  lemma RemoteExecQuiet(s: Step, hosts: seq<string>, failed: Prog, clean: Prog)
    requires Guarded(s) && Quiet(failed, s) && Quiet(clean, s)
    ensures Quiet(RemoteExec(s, hosts, failed, clean), s)
  {
    var body := SshEach(hosts, false, failed, clean);
    RemoteBodyLeads(hosts, failed, clean);
    ThroughQuiet(body, {failed, clean}, s);
    ResetQuiet(s, body, failed, failed);
  }

  lemma StopEverythingQuiet(old_: bool, new_: bool, s: Step)
    requires Owner(s) == GpstopOld
    ensures Quiet(StopEverything(old_, new_), s)
  {
    DoneQuiet(s);
    if s == GpstopOld {
      OtherStopQuiet(GpstopNew, Done, s);
      StopQuiet(GpstopOld, StopNew(new_));
    } else {
      StopQuiet(GpstopNew, Done);
      OtherStopQuiet(GpstopOld, StopNew(new_), s);
    }
  }

  // --- what each job keeps of each step ----------------------------------------------

  lemma ProgramKeepsUnder(rule: Rule, t: Operation, s: Step, d: Dir)
    requires AtMostOne(Listing(d)) && (Guarded(s) || rule != Anything)
    ensures KeepsUnder(rule, Program(t), s, d)
  {
    if Owner(s) != Slot(t) {
      ProgramConfined(t);
      ElsewhereKeeps(Program(t), Territory(Slot(t)), s, d);
      KeepsIsUnder(rule, Program(t), s, d);
    } else {
      match t
      case CheckSeginstall(hosts) =>
        VerifySoftwareKeeps(hosts, d);
        KeepsIsUnder(rule, Program(t), s, d);
      case PrepareStartAgents(hosts, agents) =>
        StartKeeps(hosts, agents, d);
        KeepsIsUnder(rule, Program(t), s, d);
      case UpgradeShareOids(hosts) => ShareOidFilesKeepsUnder(rule, hosts, d);
      case UpgradeValidateStartCluster =>
        StartNewClusterKeeps(d);
        KeepsIsUnder(rule, Program(t), s, d);
      case PrepareShutdownClusters(old_, new_) => StopEverythingKeepsUnder(rule, old_, new_, s, d);
    }
  }

  lemma StopEverythingKeepsUnder(rule: Rule, old_: bool, new_: bool, s: Step, d: Dir)
    requires AtMostOne(Listing(d)) && rule != Anything && Owner(s) == GpstopOld
    ensures KeepsUnder(rule, StopEverything(old_, new_), s, d)
  {
    if s == GpstopOld {
      StopNewConfined(new_, {GpstopNew});
      ElsewhereSafe(StopNew(new_), {GpstopNew}, GpstopOld);
      StopClusterKeepsUnder(rule, GpstopOld, StopNew(new_), d);
      SafeUnder(rule, StopNew(new_), GpstopOld, d);
    } else {
      assert Safe(Done, GpstopNew);
      StopClusterKeepsUnder(rule, GpstopNew, Done, d);
      assert KeepsUnder(rule, StopNew(new_), GpstopNew, d);
      OtherStopKeepsUnder(rule, GpstopOld, StopNew(new_), GpstopNew, d);
    }
  }
}

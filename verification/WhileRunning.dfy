// A step that is at work shows: while one of the commands that a job runs only after
// marking its step in progress is being executed, the marker is there.
module WhileRunning {
  import opened Idl
  import opened Markers
  import opened Programs
  import opened Operations
  import opened StateCheck
  import opened HubSystem
  import SDC = ShutDownClusters

  // The commands that come after the mark of step s. Pings and rsyncs are sent in
  // any case.
  predicate Watched(c: Command, s: Step) {
    match c
    case Ssh(_) => s == Seginstall || s == StartAgents
    case GpStart => s == ValidateStartCluster
    case GpStop(cluster) => s == cluster
    case _ => false
  }

  // From a point at which s is marked in progress, or may not be, p runs such
  // commands only while it is.
  ghost predicate Shows(p: Prog, s: Step, marked: bool) {
    match p
    case Done => true
    case Run(c, ok, er) => (Watched(c, s) ==> marked) && Shows(ok, s, marked) && Shows(er, s, marked)
    case Fs(s', c, ok, er) =>
      if s' != s then Shows(ok, s, marked) && Shows(er, s, marked)
      else match c
        case Create(f) =>
          Shows(ok, s, marked || f == InProgress) && Shows(er, s, marked)
        case MkdirAll => Shows(ok, s, marked) && Shows(er, s, marked)
        case _ => Shows(ok, s, false) && Shows(er, s, false)
  }

  // --- the jobs ----------------------------------------------------------------------

  lemma ConcludeShows(s: Step, f: File, next: Prog, marked: bool)
    requires Shows(next, s, false) && f != InProgress
    ensures Shows(Conclude(s, f, next, next), s, marked)
  {
    assert Shows(Fs(s, Create(f), next, next), s, false);
  }

  lemma ResetShows(s: Step, body: Prog, giveUp: Prog, onReset: Prog)
    requires Shows(body, s, true) && Shows(giveUp, s, false)
    requires onReset == giveUp || onReset == MarkInProgress(s, body, giveUp)
    ensures Shows(ResetStateDir(s, MarkInProgress(s, body, giveUp), onReset), s, false)
  {
    var mark := MarkInProgress(s, body, giveUp);
    assert Shows(mark, s, false);
    assert Shows(Fs(s, MkdirAll, mark, onReset), s, false);
  }

  lemma {:induction false} SshEachShows(hosts: seq<string>, anyFailed: bool, failed: Prog, clean: Prog, s: Step)
    requires Shows(failed, s, true) && Shows(clean, s, true)
    ensures Shows(SshEach(hosts, anyFailed, failed, clean), s, true)
  {
    if hosts != [] {
      SshEachShows(hosts[1..], anyFailed, failed, clean, s);
      SshEachShows(hosts[1..], true, failed, clean, s);
    }
  }

  lemma {:induction false} PingAllShows(agents: seq<string>, ok: Prog, er: Prog, s: Step, marked: bool)
    requires Shows(ok, s, marked) && Shows(er, s, marked)
    ensures Shows(PingAllAgents(agents, ok, er), s, marked)
  {
    if agents != [] { PingAllShows(agents[1..], ok, er, s, marked); }
  }

  lemma {:induction false} PingPollShows(rounds: nat, agents: seq<string>, ok: Prog, er: Prog, s: Step, marked: bool)
    requires Shows(ok, s, marked) && Shows(er, s, marked)
    ensures Shows(PingPollAgents(rounds, agents, ok, er), s, marked)
  {
    if rounds != 0 {
      PingPollShows(rounds - 1, agents, ok, er, s, marked);
      PingAllShows(agents, ok, PingPollAgents(rounds - 1, agents, ok, er), s, marked);
    }
  }

  lemma {:induction false} RsyncEachShows(hosts: seq<string>, anyFailed: bool, marked: bool)
    ensures Shows(RsyncEach(hosts, anyFailed), ShareOids, marked)
  {
    if hosts == [] {
      ConcludeShows(ShareOids, Completed, Done, marked);
    } else {
      RsyncEachShows(hosts[1..], anyFailed, marked);
      RsyncEachShows(hosts[1..], true, false);
      ConcludeShows(ShareOids, Failed, RsyncEach(hosts[1..], true), marked);
    }
  }

  lemma StopShows(s: Step, next: Prog)
    requires Shows(next, s, false)
    ensures Shows(StopCluster(s, next), s, false)
  {
    ConcludeShows(s, Completed, next, true);
    ConcludeShows(s, Failed, next, true);
    ResetShows(s, GpstopBody(s, next), next, StopAfterReset(s, next));
  }

  lemma OtherStopShows(s: Step, next: Prog, s': Step)
    requires s != s' && Shows(next, s', false)
    ensures Shows(StopCluster(s, next), s', false)
  {
    OtherConcludeShows(s, Completed, next, s');
    OtherConcludeShows(s, Failed, next, s');
    assert Shows(GpstopBody(s, next), s', false);
    var mark := StopAfterReset(s, next);
    assert Shows(mark, s', false);
    assert Shows(Fs(s, MkdirAll, mark, mark), s', false);
  }

  lemma OtherConcludeShows(s: Step, f: File, next: Prog, s': Step)
    requires s != s' && Shows(next, s', false)
    ensures Shows(Conclude(s, f, next, next), s', false)
  {
    assert Shows(Fs(s, Create(f), next, next), s', false);
  }

  lemma StopEverythingShows(old_: bool, new_: bool, s: Step)
    requires Owner(s) == GpstopOld
    ensures Shows(StopEverything(old_, new_), s, false)
  {
    if s == GpstopOld {
      OtherStopShows(GpstopNew, Done, s);
      StopShows(GpstopOld, StopNew(new_));
    } else {
      StopShows(GpstopNew, Done);
      OtherStopShows(GpstopOld, StopNew(new_), s);
    }
  }

  lemma RemoteExecShows(s: Step, hosts: seq<string>, failed: Prog, clean: Prog)
    requires Shows(failed, s, true) && Shows(clean, s, true) && Shows(failed, s, false)
    ensures Shows(RemoteExec(s, hosts, failed, clean), s, false)
  {
    SshEachShows(hosts, false, failed, clean, s);
    ResetShows(s, SshEach(hosts, false, failed, clean), failed, failed);
  }

  lemma LoggingShows(s: Step, marked: bool)
    ensures Shows(HandleStatusLogging(s, true), s, marked) && Shows(HandleStatusLogging(s, false), s, marked)
  {
    ConcludeShows(s, Failed, Done, marked);
    ConcludeShows(s, Completed, Done, marked);
  }

  lemma ProgramShows(t: Operation, s: Step)
    requires Slot(t) == Owner(s)
    ensures Shows(Program(t), s, false)
  {
    LoggingShows(s, true);
    LoggingShows(s, false);
    match t
    case CheckSeginstall(hosts) =>
      RemoteExecShows(s, hosts, HandleStatusLogging(s, true), HandleStatusLogging(s, false));
    case PrepareStartAgents(hosts, agents) =>
      PingPollShows(PING_ROUNDS, agents, HandleStatusLogging(s, false), HandleStatusLogging(s, true), s, true);
      PingPollShows(PING_ROUNDS, agents, HandleStatusLogging(s, false), HandleStatusLogging(s, true), s, false);
      RemoteExecShows(s, hosts, Pings(agents), Pings(agents));
    case UpgradeShareOids(hosts) =>
      RsyncEachShows(hosts, false, true);
      RsyncEachShows(hosts, false, false);
      ResetShows(s, RsyncEach(hosts, false), RsyncEach(hosts, false), ShareOidsAfterReset(hosts));
    case UpgradeValidateStartCluster =>
      ConcludeShows(s, Completed, Done, true);
      ConcludeShows(s, Failed, Done, true);
      ResetShows(s, GpstartBody(), Done, Done);
    case PrepareShutdownClusters(old_, new_) => StopEverythingShows(old_, new_, s);
  }

  // --- every run -------------------------------------------------------------------------

  ghost predicate ShowsAt(h: Hub, s: Step, marked: bool) {
    && (marked ==> InProgress in Listing(At(h.tree, s)))
    && (Owner(s) in h.jobs ==> Shows(h.jobs[Owner(s)].job.prog, s, marked))
  }

  lemma ShowsKept(h: Hub, a: Action, s: Step, marked: bool) returns (marked': bool)
    requires Inv(h) && ShowsAt(h, s, marked)
    ensures ShowsAt(Perform(h, a), s, marked')
  {
    marked' := marked;
    match a
    case Launch(t) =>
      if Slot(t) == Owner(s) && Idle(h, Slot(t)) {
        ProgramShows(t, s);
        marked' := false;
      }
    case Move(slot, answer) =>
      if !Idle(h, slot) {
        if slot == Owner(s) {
          marked' := MoveShows(h, a, s, marked);
        } else {
          MoveElsewhere(h, slot, answer, s);
        }
      }
    case Crash =>
  }

  lemma MoveShows(h: Hub, a: Action, s: Step, marked: bool) returns (marked': bool)
    requires a.Move? && a.slot == Owner(s) && !Idle(h, a.slot) && ShowsAt(h, s, marked)
    ensures ShowsAt(Perform(h, a), s, marked')
  {
    var p := h.jobs[a.slot].job.prog;
    marked' := marked;
    if p.Fs? && p.step == s {
      var r := Apply(p.call, At(h.tree, s), a.answer);
      match p.call
      case RemoveAll => marked' := false;
      case Remove(_) => marked' := false;
      case Create(f) => if r.ok && f == InProgress { marked' := true; }
      case MkdirAll =>
    }
  }

  lemma {:induction false} ShowsAlways(states: seq<Hub>, actions: seq<Action>, s: Step, i: nat) returns (marked: bool)
    requires IsRun(states, actions) && i < |states|
    ensures ShowsAt(states[i], s, marked)
  {
    if i == 0 {
      marked := false;
    } else {
      marked := ShowsAlways(states, actions, s, i - 1);
      InvAlways(states, actions, i - 1);
      marked := ShowsKept(states[i - 1], actions[i - 1], s, marked);
    }
  }

  // The job of s is executing command c.
  predicate Executing(h: Hub, s: Step, c: Command) {
    Owner(s) in h.jobs && h.jobs[Owner(s)].job.prog.Run? && h.jobs[Owner(s)].job.prog.command == c
  }

  lemma MarkedWhileRunning(states: seq<Hub>, actions: seq<Action>, s: Step, i: nat, c: Command)
    requires IsRun(states, actions) && i < |states| && Executing(states[i], s, c) && Watched(c, s)
    ensures InProgress in Listing(At(states[i].tree, s))
  {
    var marked := ShowsAlways(states, actions, s, i);
  }

  // A guarded step polled meanwhile is RUNNING.
  lemma RunningWhileRunning(states: seq<Hub>, actions: seq<Action>, s: Step, i: nat, c: Command)
    requires IsRun(states, actions) && i < |states| && Executing(states[i], s, c) && Watched(c, s)
    requires Guarded(s) && AtMostOne(Listing(At(states[0].tree, s)))
    ensures StatusOf(At(states[i].tree, s)) == Polled(RUNNING)
  {
    MarkedWhileRunning(states, actions, s, i, c);
    GuardedOneMarker(states, actions, s, i);
    assert Listing(At(states[i].tree, s)) == {InProgress};
    assert |{InProgress}| == 1;
  }

  // So is the shutdown while one of its gpstops is being executed, when the poll
  // finds that process and looks at the directory of that cluster meanwhile; the
  // other one it may have read at any time.
  lemma ShutdownRunning(states: seq<Hub>, actions: seq<Action>, s: Step, i: nat,
                        first: SDC.Glimpse, second: SDC.Glimpse, third: SDC.Glimpse)
    requires IsRun(states, actions) && i < |states|
    requires (s == GpstopOld || s == GpstopNew) && Executing(states[i], s, GpStop(s))
    requires (if s == GpstopOld then first.oldFiles else first.newFiles) == Listing(At(states[i].tree, s))
    ensures SDC.GetStatus(false, true, first, second, third) == RUNNING
  {
    MarkedWhileRunning(states, actions, s, i, GpStop(s));
  }
}

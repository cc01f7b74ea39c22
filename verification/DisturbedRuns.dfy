// Two runs in which polls do not see the expected pattern: a conclusion that a
// failed reset takes away, and a mark written beside a conclusion.
module DisturbedRuns {
  import opened Idl
  import opened Markers
  import opened Programs
  import opened Operations
  import opened StateCheck
  import opened HubSystem
  import opened ResetWindows

  const GOOD := Answer(true, true, {}, true)

  // A hub with one directory, d, and one job, which has run some commands and still
  // has p to do.
  function Alone(t: Operation, p: Prog, log: seq<Ran>, d: Dir): Hub {
    Hub(map[Slot(t) := d], map[Slot(t) := Running(t, Job(p, log))])
  }

  lemma MoveAlone(t: Operation, p: Prog, log: seq<Ran>, d: Dir, a: Answer)
    requires p.Fs? && p.step == Slot(t)
    ensures var r := Apply(p.call, d, a);
            Perform(Alone(t, p, log, d), Move(Slot(t), a)) == Alone(t, if r.ok then p.onOk else p.onErr, log, r.dir)
  {
    var s, r := Slot(t), Apply(p.call, d, a);
    assert map[s := d][s := r.dir] == map[s := r.dir];
  }

  lemma LaunchAlone(t: Operation, log: seq<Ran>, d: Dir)
    ensures Perform(Hub(map[Slot(t) := d], map[]), Launch(t)) == Alone(t, Program(t), [], d)
    ensures Perform(Alone(t, Done, log, d), Launch(t)) == Alone(t, Program(t), [], d)
  {
  }

  // A call and a command that work.
  lemma MoveWorks(t: Operation, p: Prog, log: seq<Ran>, d: Dir, d': Dir)
    requires p.Fs? && p.step == Slot(t) && Apply(p.call, d, GOOD) == Reply(true, d')
    ensures Perform(Alone(t, p, log, d), Move(Slot(t), GOOD)) == Alone(t, p.onOk, log, d')
  {
    MoveAlone(t, p, log, d, GOOD);
  }

  lemma CommandWorks(t: Operation, p: Prog, log: seq<Ran>, d: Dir)
    requires p.Run?
    ensures Perform(Alone(t, p, log, d), Move(Slot(t), GOOD)) == Alone(t, p.onOk, log + [Ran(p.command, true)], d)
  {
  }

  lemma CallsWork()
    ensures Apply(RemoveAll, Absent, GOOD) == Reply(true, Absent)
    ensures Apply(MkdirAll, Absent, GOOD) == Reply(true, Present({}))
    ensures Apply(Create(InProgress), Present({}), GOOD) == Reply(true, Present({InProgress}))
    ensures Apply(Remove(InProgress), Present({InProgress}), GOOD) == Reply(true, Present({}))
    ensures Apply(Create(Completed), Present({}), GOOD) == Reply(true, Present({Completed}))
  {
    assert {} + {InProgress} == {InProgress} && {InProgress} - {InProgress} == {} && {} + {Completed} == {Completed};
  }

  // --- runs that grow by one action -------------------------------------------------

  ghost predicate EndsAt(states: seq<Hub>, actions: seq<Action>, h: Hub) {
    IsRun(states, actions) && states[|actions|] == h
  }

  lemma RunExtends(states: seq<Hub>, actions: seq<Action>, h: Hub, a: Action)
    requires EndsAt(states, actions, h)
    ensures EndsAt(states + [Perform(h, a)], actions + [a], Perform(h, a))
  {
  }

  // A window that has forgotten nothing so far.
  ghost predicate Open(states: seq<Hub>, actions: seq<Action>, s: Step, lo: nat, h: Hub) {
    && EndsAt(states, actions, h) && ResetWindow(states, actions, s, lo, |actions|)
    && Remembers(states, actions, s, lo, |actions|)
  }

  lemma WindowBegins(states: seq<Hub>, actions: seq<Action>, h: Hub, a: Action, s: Step)
    requires EndsAt(states, actions, h) && ResetSucceeds(h, a, s)
    ensures Open(states + [Perform(h, a)], actions + [a], s, |actions| + 1, Perform(h, a))
  {
    RunExtends(states, actions, h, a);
  }

  lemma WindowExtends(states: seq<Hub>, actions: seq<Action>, h: Hub, a: Action, s: Step, lo: nat)
    requires EndsAt(states, actions, h) && ResetWindow(states, actions, s, lo, |actions|) && !ResetSucceeds(h, a, s)
    ensures EndsAt(states + [Perform(h, a)], actions + [a], Perform(h, a))
    ensures ResetWindow(states + [Perform(h, a)], actions + [a], s, lo, |actions| + 1)
  {
    RunExtends(states, actions, h, a);
  }

  lemma OpenExtends(states: seq<Hub>, actions: seq<Action>, h: Hub, a: Action, s: Step, lo: nat)
    requires Open(states, actions, s, lo, h) && !ResetSucceeds(h, a, s) && !Forgets(h, a, s)
    ensures Open(states + [Perform(h, a)], actions + [a], s, lo, Perform(h, a))
  {
    WindowExtends(states, actions, h, a, s, lo);
  }

  // Up to the successful reset.
  lemma ResetRun(t: Operation, mark: Prog, onReset: Prog) returns (states: seq<Hub>, actions: seq<Action>)
    requires Program(t) == ResetStateDir(Slot(t), mark, onReset)
    ensures |actions| == 3 && Open(states, actions, Slot(t), 3, Alone(t, mark, [], Present({})))
  {
    var s, p, move := Slot(t), Program(t), Move(Slot(t), GOOD);
    var h := Hub(map[s := Absent], map[]);
    CallsWork();
    LaunchAlone(t, [], Absent);
    MoveWorks(t, p, [], Absent, Absent);
    MoveWorks(t, p.onOk, [], Absent, Present({}));
    states, actions := [h], [];
    RunExtends(states, actions, h, Launch(t));
    states, actions := states + [Alone(t, p, [], Absent)], actions + [Launch(t)];
    RunExtends(states, actions, Alone(t, p, [], Absent), move);
    states, actions := states + [Alone(t, p.onOk, [], Absent)], actions + [move];
    WindowBegins(states, actions, Alone(t, p.onOk, [], Absent), move, s);
    states, actions := states + [Alone(t, mark, [], Present({}))], actions + [move];
  }

  // A call of the window that neither removes nor makes the directory.
  lemma CallExtends(states: seq<Hub>, actions: seq<Action>, t: Operation, p: Prog, log: seq<Ran>, d: Dir, d': Dir)
      returns (states': seq<Hub>, actions': seq<Action>)
    requires Open(states, actions, Slot(t), 3, Alone(t, p, log, d))
    requires p.Fs? && p.step == Slot(t) && !p.call.RemoveAll? && !p.call.MkdirAll?
    requires Apply(p.call, d, GOOD) == Reply(true, d')
    ensures states' == states + [Alone(t, p.onOk, log, d')] && actions' == actions + [Move(Slot(t), GOOD)]
    ensures Open(states', actions', Slot(t), 3, Alone(t, p.onOk, log, d'))
  {
    var move := Move(Slot(t), GOOD);
    MoveWorks(t, p, log, d, d');
    OpenExtends(states, actions, Alone(t, p, log, d), move, Slot(t), 3);
    states', actions' := states + [Alone(t, p.onOk, log, d')], actions + [move];
  }

  lemma CommandExtends(states: seq<Hub>, actions: seq<Action>, t: Operation, p: Prog, log: seq<Ran>, d: Dir)
      returns (states': seq<Hub>, actions': seq<Action>)
    requires Open(states, actions, Slot(t), 3, Alone(t, p, log, d)) && p.Run?
    ensures |actions'| == |actions| + 1
    ensures Open(states', actions', Slot(t), 3, Alone(t, p.onOk, log + [Ran(p.command, true)], d))
  {
    var move := Move(Slot(t), GOOD);
    CommandWorks(t, p, log, d);
    OpenExtends(states, actions, Alone(t, p, log, d), move, Slot(t), 3);
    states', actions' := states + [Alone(t, p.onOk, log + [Ran(p.command, true)], d)], actions + [move];
  }

  // A job that is about to complete its step does so, and is launched again.
  lemma Relaunched(states: seq<Hub>, actions: seq<Action>, t: Operation, log: seq<Ran>)
      returns (states': seq<Hub>, actions': seq<Action>)
    requires Open(states, actions, Slot(t), 3,
                  Alone(t, Conclude(Slot(t), Completed, Done, Done), log, Present({InProgress})))
    ensures |actions'| == |actions| + 3
    ensures Open(states', actions', Slot(t), 3, Alone(t, Program(t), [], Present({Completed})))
  {
    var p := Conclude(Slot(t), Completed, Done, Done);
    CallsWork();
    states', actions' := CallExtends(states, actions, t, p, log, Present({InProgress}), Present({}));
    states', actions' := CallExtends(states', actions', t, p.onOk, log, Present({}), Present({Completed}));
    LaunchAlone(t, log, Present({Completed}));
    OpenExtends(states', actions', Alone(t, Done, log, Present({Completed})), Launch(t), Slot(t), 3);
    states', actions' := states' + [Alone(t, Program(t), [], Present({Completed}))], actions' + [Launch(t)];
  }

  lemma CompletedShows()
    ensures StatusOf(Present({Completed})) == Polled(COMPLETE)
  {
    assert |{Completed}| == 1;
  }

  // --- a conclusion forgotten --------------------------------------------------------

  // validate-start-cluster has completed after a gpstart that worked, and is
  // launched again.
  lemma ValidatedTwice() returns (states: seq<Hub>, actions: seq<Action>)
    ensures |actions| == 8
    ensures var t := UpgradeValidateStartCluster;
            Open(states, actions, Slot(t), 3, Alone(t, Program(t), [], Present({Completed})))
  {
    var t, mark := UpgradeValidateStartCluster, MarkInProgress(ValidateStartCluster, GpstartBody(), Done);
    CallsWork();
    states, actions := ResetRun(t, mark, Done);
    states, actions := CallExtends(states, actions, t, mark, [], Present({}), Present({InProgress}));
    states, actions := CommandExtends(states, actions, t, GpstartBody(), [], Present({InProgress}));
    states, actions := Relaunched(states, actions, t, [] + [Ran(GpStart, true)]);
  }

  // Its reset removes the directory but reports an error.
  lemma ForgetfulRun() returns (states: seq<Hub>, actions: seq<Action>)
    ensures |actions| == 9 && ResetWindow(states, actions, ValidateStartCluster, 3, 9)
    ensures Forgets(states[8], actions[8], ValidateStartCluster) && !AllPollsFit(states, ValidateStartCluster, 3, 9)
    ensures StatusOf(At(states[8].tree, ValidateStartCluster)) == Polled(COMPLETE)
    ensures StatusOf(At(states[9].tree, ValidateStartCluster)) == Polled(PENDING)
  {
    var t, s := UpgradeValidateStartCluster, ValidateStartCluster;
    var h, a := Alone(t, Program(t), [], Present({Completed})), Move(s, Answer(false, true, {}, true));
    states, actions := ValidatedTwice();
    MoveAlone(t, Program(t), [], Present({Completed}), a.answer);
    WindowExtends(states, actions, h, a, s, 3);
    states, actions := states + [Perform(h, a)], actions + [a];
    CompletedShows();
    PatternIffRemembered(states, actions, s, 3, 9);
  }

  // --- a mark beside a conclusion ------------------------------------------------------

  // Share-oids, whose hostnames could not be read, has completed and is launched
  // again; its reset fails and leaves the marker behind.
  lemma StuckReset() returns (states: seq<Hub>, actions: seq<Action>)
    ensures |actions| == 8
    ensures var t := UpgradeShareOids([]);
            Open(states, actions, ShareOids, 3, Alone(t, ShareOidsAfterReset([]), [], Present({Completed})))
  {
    var t, mark := UpgradeShareOids([]), ShareOidsAfterReset([]);
    var h := Alone(t, Program(t), [], Present({Completed}));
    var a := Move(ShareOids, Answer(false, false, {Completed}, true));
    assert RsyncEach([], false) == Conclude(ShareOids, Completed, Done, Done);
    CallsWork();
    states, actions := ResetRun(t, mark, mark);
    states, actions := CallExtends(states, actions, t, mark, [], Present({}), Present({InProgress}));
    states, actions := Relaunched(states, actions, t, []);
    assert {Completed} * {Completed} == {Completed};
    MoveAlone(t, Program(t), [], Present({Completed}), a.answer);
    OpenExtends(states, actions, h, a, ShareOids, 3);
    states, actions := states + [Perform(h, a)], actions + [a];
  }

  // The job goes on and marks the step in progress. No conclusion was forgotten,
  // and yet polls see COMPLETE and then too many files.
  lemma RemarkedRun() returns (states: seq<Hub>, actions: seq<Action>)
    ensures |actions| == 9 && ResetWindow(states, actions, ShareOids, 3, 9)
    ensures Remembers(states, actions, ShareOids, 3, 9)
    ensures Remarks(states, actions, ShareOids, 3, 8) && !AllPollsFit(states, ShareOids, 3, 9)
    ensures StatusOf(At(states[8].tree, ShareOids)) == Polled(COMPLETE)
    ensures StatusOf(At(states[9].tree, ShareOids)) == TooManyFiles
  {
    var t, both := UpgradeShareOids([]), Present({Completed} + {InProgress});
    states, actions := StuckReset();
    states, actions := CallExtends(states, actions, t, ShareOidsAfterReset([]), [], Present({Completed}), both);
    assert Touched(states, ShareOids, 3, 8) by { assert At(states[8].tree, ShareOids) != Present({}); }
    CompletedShows();
    TwoMarkers(both, Completed);
    PatternIffUndisturbed(states, actions, ShareOids, 3, 9);
  }
}

// The whole hub: background jobs interleaved call by call, the hub crashing and
// restarting at any point, and status polls reading the directories meanwhile.
// A poll changes nothing, so a poll is a pair of instants of a run: the state
// its Stat sees and the later (or same) state its Glob sees.
module HubSystem {
  import opened Markers
  import opened Operations
  import opened Earned
  import opened StateCheck

  datatype Running = Running(operation: Operation, job: Job)

  // The directories survive a crash, the jobs do not. `jobs` holds at most one
  // writer per owner of steps.
  datatype Hub = Hub(tree: Tree, jobs: map<Step, Running>)

  datatype Action = Launch(operation: Operation) | Move(slot: Step, answer: Answer) | Crash

  predicate Idle(h: Hub, slot: Step) {
    slot in h.jobs ==> h.jobs[slot].job.prog.Done?
  }

  // A launch while the step's writer is busy, or a move of a job that has
  // nothing to do, leaves the hub as it is.
  function Perform(h: Hub, a: Action): Hub {
    match a
    case Launch(t) =>
      if Idle(h, Slot(t)) then h.(jobs := h.jobs[Slot(t) := Running(t, Job(Program(t), []))]) else h
    case Move(slot, answer) =>
      if Idle(h, slot) || slot !in h.jobs then h
      else
        var r := Advance(h.tree, h.jobs[slot].job, answer);
        Hub(r.tree, h.jobs[slot := Running(h.jobs[slot].operation, r.job)])
    case Crash => Hub(h.tree, map[])
  }

  // The hub starts with no job running, on whatever directories it finds.
  ghost predicate IsRun(states: seq<Hub>, actions: seq<Action>) {
    && |states| == |actions| + 1
    && states[0].jobs == map[]
    && forall i :: 0 <= i < |actions| ==> states[i + 1] == Perform(states[i], actions[i])
  }

  // a makes the job of s make call c on s.
  ghost predicate Calls(h: Hub, a: Action, s: Step, c: Call) {
    && a.Move? && a.slot == Owner(s) && !Idle(h, a.slot)
    && h.jobs[a.slot].job.prog.Fs?
    && h.jobs[a.slot].job.prog.step == s && h.jobs[a.slot].job.prog.call == c
  }

  ghost predicate Removes(h: Hub, a: Action, s: Step) {
    Calls(h, a, s, RemoveAll)
  }

  // --- the invariant -----------------------------------------------------------

  // The job's relation to one step: Tidy, or about to make the directory it
  // has just removed.
  ghost predicate Placed(p: Prog, s: Step, d: Dir) {
    Tidy(p, s) || (Remade(p, s) && d.Absent?)
  }

  ghost predicate JobOk(slot: Step, r: Running, t: Tree) {
    && Slot(r.operation) == slot
    && Confined(r.job.prog, Territory(slot))
    && Earns(r.job.prog, r.job.log, r.operation)
    && forall s: Step :: Owner(s) == slot ==> Placed(r.job.prog, s, At(t, s))
  }

  ghost predicate Inv(h: Hub) {
    forall slot :: slot in h.jobs ==> JobOk(slot, h.jobs[slot], h.tree)
  }

  lemma MoveElsewhere(h: Hub, slot: Step, answer: Answer, s: Step)
    requires Inv(h) && Owner(s) != slot
    ensures At(Perform(h, Move(slot, answer)).tree, s) == At(h.tree, s)
  {
  }

  lemma MoveJobOk(h: Hub, slot: Step, answer: Answer)
    requires Inv(h) && !Idle(h, slot)
    ensures var r := Advance(h.tree, h.jobs[slot].job, answer);
            JobOk(slot, Running(h.jobs[slot].operation, r.job), r.tree)
  {
    var p := h.jobs[slot].job.prog;
    var r := Advance(h.tree, h.jobs[slot].job, answer);
    forall s: Step | Owner(s) == slot ensures Placed(r.job.prog, s, At(r.tree, s)) {
      assert Placed(p, s, At(h.tree, s));
    }
  }

  lemma InvKept(h: Hub, a: Action)
    requires Inv(h)
    ensures Inv(Perform(h, a))
  {
    var h' := Perform(h, a);
    match a
    case Launch(t) =>
      ProgramConfined(t);
      ProgramEarns(t);
      forall s: Step ensures Placed(Program(t), s, At(h.tree, s)) { ProgramQuiet(t, s); }
    case Move(slot, answer) =>
      if !Idle(h, slot) {
        MoveJobOk(h, slot, answer);
        forall other | other in h'.jobs && other != slot ensures JobOk(other, h'.jobs[other], h'.tree) {
          assert JobOk(other, h.jobs[other], h.tree);
          forall s: Step | Owner(s) == other ensures At(h'.tree, s) == At(h.tree, s) {
            MoveElsewhere(h, slot, answer, s);
          }
        }
      }
    case Crash =>
  }

  lemma {:induction false} InvAlways(states: seq<Hub>, actions: seq<Action>, i: nat)
    requires IsRun(states, actions) && i < |states|
    ensures Inv(states[i])
  {
    if i != 0 {
      InvAlways(states, actions, i - 1);
      InvKept(states[i - 1], actions[i - 1]);
    }
  }

  // --- at most one marker --------------------------------------------------------

  ghost predicate OneMarker(rule: Rule, h: Hub, s: Step) {
    && AtMostOne(Listing(At(h.tree, s)))
    && (Owner(s) in h.jobs ==> KeepsUnder(rule, h.jobs[Owner(s)].job.prog, s, At(h.tree, s)))
  }

  // If a makes the job of s make a call on s, its answer is one that the rule allows.
  ghost predicate AnswerAllowed(rule: Rule, h: Hub, a: Action, s: Step) {
    forall c :: Calls(h, a, s, c) ==> Allowed(rule, c, At(h.tree, s), a.answer)
  }

  lemma OneMarkerKept(rule: Rule, h: Hub, a: Action, s: Step)
    requires Inv(h) && OneMarker(rule, h, s) && AnswerAllowed(rule, h, a, s)
    requires Guarded(s) || rule != Anything
    ensures OneMarker(rule, Perform(h, a), s)
  {
    match a
    case Launch(t) => if Slot(t) == Owner(s) { ProgramKeepsUnder(rule, t, s, At(h.tree, s)); }
    case Move(slot, answer) =>
      if !Idle(h, slot) {
        if slot == Owner(s) {
          AdvanceKeeps(rule, h, a, s);
        } else {
          MoveElsewhere(h, slot, answer, s);
        }
      }
    case Crash =>
  }

  lemma AdvanceKeeps(rule: Rule, h: Hub, a: Action, s: Step)
    requires a.Move? && a.slot == Owner(s) && !Idle(h, a.slot) && AnswerAllowed(rule, h, a, s)
    requires KeepsUnder(rule, h.jobs[a.slot].job.prog, s, At(h.tree, s))
    ensures OneMarker(rule, Perform(h, a), s)
  {
    var p, d := h.jobs[a.slot].job.prog, At(h.tree, s);
    if p.Fs? && p.step == s {
      assert Calls(h, a, s, p.call);
      var r := Apply(p.call, d, a.answer);
      assert KeepsUnder(rule, if r.ok then p.onOk else p.onErr, s, r.dir);
    }
  }

  ghost predicate RunAllowed(rule: Rule, states: seq<Hub>, actions: seq<Action>, s: Step)
    requires |states| == |actions| + 1
  {
    forall i :: 0 <= i < |actions| ==> AnswerAllowed(rule, states[i], actions[i], s)
  }

  lemma {:induction false} OneMarkerAlways(rule: Rule, states: seq<Hub>, actions: seq<Action>, s: Step, i: nat)
    requires IsRun(states, actions) && i < |states| && RunAllowed(rule, states, actions, s)
    requires (Guarded(s) || rule != Anything) && AtMostOne(Listing(At(states[0].tree, s)))
    ensures OneMarker(rule, states[i], s)
  {
    if i != 0 {
      OneMarkerAlways(rule, states, actions, s, i - 1);
      InvAlways(states, actions, i - 1);
      OneMarkerKept(rule, states[i - 1], actions[i - 1], s);
    }
  }

  // In every interleaving, whatever fails and whenever the hub crashes, a guarded
  // step has at most one marker, and a poll of it never reports more files than
  // expected.
  lemma GuardedOneMarker(states: seq<Hub>, actions: seq<Action>, s: Step, i: nat)
    requires IsRun(states, actions) && i < |states|
    requires Guarded(s) && AtMostOne(Listing(At(states[0].tree, s)))
    ensures OneMarker(Anything, states[i], s)
  {
    OneMarkerAlways(Anything, states, actions, s, i);
  }

  lemma GuardedPollNeverErrs(states: seq<Hub>, actions: seq<Action>, s: Step, i: nat, j: nat, faults: ReadFaults)
    requires IsRun(states, actions) && i <= j < |states|
    requires Guarded(s) && AtMostOne(Listing(At(states[0].tree, s)))
    ensures Poll(At(states[i].tree, s), At(states[j].tree, s), faults).Polled?
  {
    GuardedOneMarker(states, actions, s, j);
    TooManyIff(At(states[i].tree, s), At(states[j].tree, s), faults);
  }

  // The same holds of every step in the runs in which its directory can be removed
  // whenever a reset tries to.
  ghost predicate RemovalsSucceed(states: seq<Hub>, actions: seq<Action>, s: Step)
    requires |states| == |actions| + 1
  {
    forall i :: 0 <= i < |actions| && Removes(states[i], actions[i], s) ==> actions[i].answer.fsOk
  }

  lemma RemovableOneMarker(states: seq<Hub>, actions: seq<Action>, s: Step, i: nat)
    requires IsRun(states, actions) && i < |states|
    requires RemovalsSucceed(states, actions, s) && AtMostOne(Listing(At(states[0].tree, s)))
    ensures OneMarker(RemovalsWork, states[i], s)
  {
    forall k | 0 <= k < |actions| ensures AnswerAllowed(RemovalsWork, states[k], actions[k], s) {
      assert Removes(states[k], actions[k], s) ==> actions[k].answer.fsOk;
    }
    OneMarkerAlways(RemovalsWork, states, actions, s, i);
  }

  lemma RemovablePollNeverErrs(states: seq<Hub>, actions: seq<Action>, s: Step, i: nat, j: nat, faults: ReadFaults)
    requires IsRun(states, actions) && i <= j < |states|
    requires RemovalsSucceed(states, actions, s) && AtMostOne(Listing(At(states[0].tree, s)))
    ensures Poll(At(states[i].tree, s), At(states[j].tree, s), faults).Polled?
  {
    RemovableOneMarker(states, actions, s, j);
    TooManyIff(At(states[i].tree, s), At(states[j].tree, s), faults);
  }

  // And in every run exactly when no job marks the step in progress beside another
  // file.
  ghost predicate SecondFile(h: Hub, a: Action, s: Step) {
    Calls(h, a, s, Create(InProgress)) && MarksBeside(Create(InProgress), At(h.tree, s), a.answer)
  }

  lemma OneMarkerIff(states: seq<Hub>, actions: seq<Action>, s: Step)
    requires IsRun(states, actions) && AtMostOne(Listing(At(states[0].tree, s)))
    ensures (forall i :: 0 <= i < |states| ==> AtMostOne(Listing(At(states[i].tree, s)))) <==>
            (forall i :: 0 <= i < |actions| ==> !SecondFile(states[i], actions[i], s))
  {
    if forall i :: 0 <= i < |actions| ==> !SecondFile(states[i], actions[i], s) {
      forall k | 0 <= k < |actions| ensures AnswerAllowed(NoSecondFile, states[k], actions[k], s) {
        assert !SecondFile(states[k], actions[k], s);
      }
      forall i | 0 <= i < |states| ensures AtMostOne(Listing(At(states[i].tree, s))) {
        OneMarkerAlways(NoSecondFile, states, actions, s, i);
      }
    } else {
      var i :| 0 <= i < |actions| && SecondFile(states[i], actions[i], s);
      SecondFileStays(states[i], actions[i], s);
      assert !AtMostOne(Listing(At(states[i + 1].tree, s)));
    }
  }

  lemma SecondFileStays(h: Hub, a: Action, s: Step)
    requires SecondFile(h, a, s)
    ensures !AtMostOne(Listing(At(Perform(h, a).tree, s)))
  {
    var d := At(h.tree, s);
    var f :| f in Listing(d) && f != InProgress;
    var d' := At(Perform(h, a).tree, s);
    assert d' == Present(d.files + {InProgress});
    assert f in Listing(d') && InProgress in Listing(d');
  }

  // --- a completed marker has been earned -------------------------------------------

  // The job running in `slot` at h has earned the completion of s.
  ghost predicate EarnedAt(h: Hub, s: Step) {
    Owner(s) in h.jobs && EarnedBy(h.jobs[Owner(s)].operation, s, h.jobs[Owner(s)].job.log)
  }

  // a is the call by which a job that has earned it completes s.
  ghost predicate Completes(h: Hub, a: Action, s: Step) {
    EarnedAt(h, s) && Calls(h, a, s, Create(Completed))
  }

  lemma CompletedIsEarned(states: seq<Hub>, actions: seq<Action>, s: Step, i: nat)
    requires IsRun(states, actions) && i < |actions|
    requires Completed !in Listing(At(states[i].tree, s)) && Completed in Listing(At(states[i + 1].tree, s))
    ensures Completes(states[i], actions[i], s)
  {
    InvAlways(states, actions, i);
    NewlyCompleted(states[i], actions[i], s);
  }

  lemma NewlyCompleted(h: Hub, a: Action, s: Step)
    requires Inv(h)
    requires Completed !in Listing(At(h.tree, s)) && Completed in Listing(At(Perform(h, a).tree, s))
    ensures Completes(h, a, s)
  {
    if a.Move? && !Idle(h, a.slot) {
      if a.slot == Owner(s) {
        assert JobOk(a.slot, h.jobs[a.slot], h.tree);
        CompletedBy(h.tree, h.jobs[a.slot].job, a.answer, s);
      } else {
        MoveElsewhere(h, a.slot, a.answer, s);
      }
    }
  }

  // Only one call writes the completed marker.
  lemma CompletedBy(t: Tree, j: Job, a: Answer, s: Step)
    requires !j.prog.Done?
    requires Completed !in Listing(At(t, s)) && Completed in Listing(At(Advance(t, j, a).tree, s))
    ensures j.prog.Fs? && j.prog.step == s && j.prog.call == Create(Completed)
  {
  }

  // The k-th action completed s, by a job that had earned it, and the marker has
  // been there ever since.
  ghost predicate CompletedSince(states: seq<Hub>, actions: seq<Action>, s: Step, k: nat, i: nat)
    requires i < |states| && i <= |actions|
  {
    && k < i && Completes(states[k], actions[k], s)
    && forall m :: k < m <= i ==> Completed in Listing(At(states[m].tree, s))
  }

  // Wherever `completed` is seen, an earlier action of the run wrote it, unless it
  // was there from the start.
  lemma {:induction false} CompletedTraced(states: seq<Hub>, actions: seq<Action>, s: Step, i: nat) returns (k: nat)
    requires IsRun(states, actions) && i < |states|
    requires Completed !in Listing(At(states[0].tree, s)) && Completed in Listing(At(states[i].tree, s))
    ensures CompletedSince(states, actions, s, k, i)
  {
    if Completed in Listing(At(states[i - 1].tree, s)) {
      k := CompletedTraced(states, actions, s, i - 1);
    } else {
      CompletedIsEarned(states, actions, s, i - 1);
      k := i - 1;
    }
  }

  // --- a job left alone -------------------------------------------------------------

  // Moves of one job from h on, answered as env answers.
  lemma {:induction false} MovesAlone(h: Hub, slot: Step, w: World, env: Env)
      returns (states: seq<Hub>, actions: seq<Action>)
    requires slot in h.jobs && h.tree == w.tree && h.jobs[slot].job.log == w.log
    ensures |states| == |actions| + 1 && states[0] == h
    ensures forall i :: 0 <= i < |actions| ==> states[i + 1] == Perform(states[i], actions[i])
    ensures var end := Exec(h.jobs[slot].job.prog, w, env);
            var last := states[|actions|];
            last.tree == end.tree && slot in last.jobs && last.jobs[slot].job == Job(Done, end.log)
    decreases h.jobs[slot].job.prog
  {
    if h.jobs[slot].job.prog.Done? {
      states, actions := [h], [];
    } else {
      var r := Advance(h.tree, h.jobs[slot].job, env(w.clock));
      var h' := Perform(h, Move(slot, env(w.clock)));
      var more, moves := MovesAlone(h', slot, World(r.tree, r.job.log, w.clock + 1), env);
      states, actions := [h] + more, [Move(slot, env(w.clock))] + moves;
    }
  }

  // What Exec says of an operation, and so what the methods that run it do, is one of
  // the runs of the system: the one in which nothing else happens.
  lemma OperationAloneIsRun(t: Operation, tree: Tree, env: Env) returns (states: seq<Hub>, actions: seq<Action>)
    ensures IsRun(states, actions) && states[0] == Hub(tree, map[])
    ensures var end := Exec(Program(t), World(tree, [], 0), env);
            var last := states[|actions|];
            last.tree == end.tree && Slot(t) in last.jobs && last.jobs[Slot(t)].job == Job(Done, end.log)
  {
    var idle := Hub(tree, map[]);
    var launched := Perform(idle, Launch(t));
    var more, moves := MovesAlone(launched, Slot(t), World(tree, [], 0), env);
    states, actions := [idle] + more, [Launch(t)] + moves;
  }
}

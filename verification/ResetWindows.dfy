// What polls can observe of a step all the way from one successful reset to the
// next, resets that fail and hubs that crash in between included.
module ResetWindows {
  import opened Idl
  import opened Markers
  import opened Operations
  import opened StateCheck
  import opened HubSystem
  import opened Observations

  // --- windows -----------------------------------------------------------------

  // a makes the directory of s successfully: the last call of a reset.
  ghost predicate ResetSucceeds(h: Hub, a: Action, s: Step) {
    Calls(h, a, s, MkdirAll) && a.answer.fsOk
  }

  // Between the instants lo and hi: a successful reset led to lo, and none ends
  // before hi. Crashes, restarts, relaunches and failing resets may fall inside.
  ghost predicate ResetWindow(states: seq<Hub>, actions: seq<Action>, s: Step, lo: nat, hi: nat) {
    && IsRun(states, actions) && 0 < lo <= hi < |states|
    && ResetSucceeds(states[lo - 1], actions[lo - 1], s)
    && forall i :: lo <= i < hi ==> !ResetSucceeds(states[i], actions[i], s)
  }

  // a removes the directory of s, whether or not it says so, and with it a
  // marker that concludes the step.
  ghost predicate Forgets(h: Hub, a: Action, s: Step) {
    Removes(h, a, s) && (ForgetsFile(h, a, s, Failed) || ForgetsFile(h, a, s, Completed))
  }

  ghost predicate ForgetsFile(h: Hub, a: Action, s: Step, f: File)
    requires a.Move?
  {
    f in Listing(At(h.tree, s)) && (a.answer.fsOk || a.answer.applied || f !in a.answer.left)
  }

  // a adds an in-progress marker to the directory of s, whether or not it says so.
  ghost predicate Marks(h: Hub, a: Action, s: Step) {
    && Calls(h, a, s, Create(InProgress)) && (a.answer.fsOk || a.answer.applied)
    && At(h.tree, s).Present? && InProgress !in Listing(At(h.tree, s))
  }

  // The directory of s has not stayed as the reset that led to lo left it.
  ghost predicate Touched(states: seq<Hub>, s: Step, lo: nat, i: nat)
    requires i < |states|
  {
    exists m :: lo <= m <= i && At(states[m].tree, s) != Present({})
  }

  // The i-th action marks s in progress a second time, or beside another marker,
  // or in a directory that has been removed since.
  ghost predicate Remarks(states: seq<Hub>, actions: seq<Action>, s: Step, lo: nat, i: nat)
    requires i < |states| && i < |actions|
  {
    Marks(states[i], actions[i], s) && Touched(states, s, lo, i)
  }

  ghost predicate Undisturbed(states: seq<Hub>, actions: seq<Action>, s: Step, lo: nat, hi: nat)
    requires hi <= |actions| && hi <= |states|
  {
    forall i :: lo <= i < hi ==> !Forgets(states[i], actions[i], s) && !Remarks(states, actions, s, lo, i)
  }

  // --- the stages of a directory in a window -------------------------------------

  ghost predicate StageAt(h: Hub, s: Step, g: Stage) {
    Looks(At(h.tree, s), g) && (Owner(s) in h.jobs ==> Steady(h.jobs[Owner(s)].job.prog, s, g))
  }

  // A stage may follow another in a window.
  ghost predicate Follows(g: Stage, g': Stage) {
    Rank(g) <= Rank(g') && (g.Gone? || g.Ended? ==> g' == g)
  }

  ghost predicate AllFollow(stages: seq<Stage>) {
    forall i, j :: 0 <= i <= j < |stages| ==> Follows(stages[i], stages[j])
  }

  lemma WindowOpens(states: seq<Hub>, actions: seq<Action>, s: Step, lo: nat, hi: nat)
    requires ResetWindow(states, actions, s, lo, hi)
    ensures At(states[lo].tree, s) == Present({})
    ensures Owner(s) in states[lo].jobs && Opens(states[lo].jobs[Owner(s)].job.prog, s)
  {
    InvAlways(states, actions, lo - 1);
    var h := states[lo - 1];
    assert JobOk(Owner(s), h.jobs[Owner(s)], h.tree);
    assert Placed(h.jobs[Owner(s)].job.prog, s, At(h.tree, s));
    assert states[lo] == Perform(h, actions[lo - 1]);
  }

  // The answers that a call of the job meets inside an undisturbed window.
  predicate Expected(c: Call, d: Dir, a: Answer, g: Stage) {
    match c
    case RemoveAll => g.Ended? ==> !a.fsOk && !a.applied && g.file in a.left
    case MkdirAll => !a.fsOk
    case Create(f) =>
      f == InProgress && (a.fsOk || a.applied) && d.Present? && InProgress !in d.files ==> g == Fresh
    case Remove(_) => true
  }

  lemma CallStage(t: Tree, j: Job, a: Answer, s: Step, g: Stage) returns (next: Stage)
    requires j.prog.Fs? && j.prog.step == s
    requires Steady(j.prog, s, g) && Looks(At(t, s), g) && Expected(j.prog.call, At(t, s), a, g)
    ensures var r := Advance(t, j, a); Steady(r.job.prog, s, next) && Looks(At(r.tree, s), next)
    ensures Follows(g, next)
    ensures g == Fresh && next != Fresh ==> At(Advance(t, j, a).tree, s) != Present({})
  {
    var took := a.fsOk || a.applied;
    next := g;
    match j.prog.call
    case RemoveAll => if Apply(RemoveAll, At(t, s), a).dir != At(t, s) { next := Gone; }
    case MkdirAll =>
    case Remove(f) => if g == Marked && took { next := Cleared; }
    case Create(f) =>
      if f == InProgress {
        if g == Fresh && took { next := Marked; }
      } else if took {
        next := Ended(f);
      }
  }

  // A job's step, at s or elsewhere.
  lemma MoveStage(h: Hub, a: Action, s: Step, g: Stage) returns (next: Stage)
    requires a.Move? && a.slot == Owner(s) && !Idle(h, a.slot) && StageAt(h, s, g)
    requires !ResetSucceeds(h, a, s) && !Forgets(h, a, s) && (Marks(h, a, s) ==> g == Fresh)
    ensures StageAt(Perform(h, a), s, next) && Follows(g, next)
    ensures g == Fresh && next != Fresh ==> At(Perform(h, a).tree, s) != Present({})
  {
    var j := h.jobs[a.slot].job;
    if j.prog.Fs? && j.prog.step == s {
      assert Calls(h, a, s, j.prog.call);
      assert Expected(j.prog.call, At(h.tree, s), a.answer, g);
      next := CallStage(h.tree, j, a.answer, s, g);
    } else {
      next := g;
    }
  }

  lemma LaunchStage(h: Hub, t: Operation, s: Step, g: Stage)
    requires StageAt(h, s, g)
    ensures StageAt(Perform(h, Launch(t)), s, g)
  {
    ProgramQuiet(t, s);
  }

  lemma StageStep(h: Hub, a: Action, s: Step, g: Stage) returns (next: Stage)
    requires Inv(h) && StageAt(h, s, g)
    requires !ResetSucceeds(h, a, s) && !Forgets(h, a, s) && (Marks(h, a, s) ==> g == Fresh)
    ensures StageAt(Perform(h, a), s, next) && Follows(g, next)
    ensures g == Fresh && next != Fresh ==> At(Perform(h, a).tree, s) != Present({})
  {
    if a.Move? && a.slot == Owner(s) && !Idle(h, a.slot) {
      next := MoveStage(h, a, s, g);
    } else {
      next := g;
      OtherStage(h, a, s, g);
    }
  }

  // Whatever is not a step of its own job leaves the stage as it is.
  lemma OtherStage(h: Hub, a: Action, s: Step, g: Stage)
    requires Inv(h) && StageAt(h, s, g)
    requires !(a.Move? && a.slot == Owner(s) && !Idle(h, a.slot))
    ensures StageAt(Perform(h, a), s, g)
  {
    if a.Launch? { LaunchStage(h, a.operation, s, g); }
    if a.Move? && a.slot != Owner(s) { MoveElsewhere(h, a.slot, a.answer, s); }
  }

  ghost predicate StagesAre(states: seq<Hub>, s: Step, lo: nat, stages: seq<Stage>) {
    && lo + |stages| <= |states| && AllFollow(stages)
    && (forall i :: 0 <= i < |stages| ==> StageAt(states[lo + i], s, stages[i]))
    && (forall i :: 0 <= i < |stages| && stages[i] != Fresh ==> Touched(states, s, lo, lo + i))
  }

  // In an undisturbed window the directory only moves forward.
  lemma {:induction false} StagesOf(states: seq<Hub>, actions: seq<Action>, s: Step, lo: nat, hi: nat)
      returns (stages: seq<Stage>)
    requires ResetWindow(states, actions, s, lo, hi) && Undisturbed(states, actions, s, lo, hi)
    ensures |stages| == hi - lo + 1 && StagesAre(states, s, lo, stages)
    decreases hi
  {
    if lo == hi {
      WindowOpens(states, actions, s, lo, hi);
      stages := [Fresh];
    } else {
      var before := StagesOf(states, actions, s, lo, hi - 1);
      var g := before[|before| - 1];
      InvAlways(states, actions, hi - 1);
      assert StageAt(states[lo + (|before| - 1)], s, g);
      var next := StageStep(states[hi - 1], actions[hi - 1], s, g);
      StagesExtend(states, s, lo, before, next);
      stages := before + [next];
    }
  }

  lemma StagesExtend(states: seq<Hub>, s: Step, lo: nat, before: seq<Stage>, next: Stage)
    requires before != [] && StagesAre(states, s, lo, before) && lo + |before| < |states|
    requires var g := before[|before| - 1]; var h := states[lo + |before|];
             && StageAt(h, s, next) && Follows(g, next)
             && (g == Fresh && next != Fresh ==> At(h.tree, s) != Present({}))
    ensures StagesAre(states, s, lo, before + [next])
  {
    var g, last := before[|before| - 1], lo + |before|;
    if next != Fresh {
      assert Touched(states, s, lo, last) by {
        if g != Fresh {
          assert Touched(states, s, lo, lo + (|before| - 1));
        }
      }
    }
    assert forall i :: 0 <= i < |before| ==> Follows(before[i], g);
  }

  // --- an undisturbed window shows the pattern ---------------------------------------

  function StageStatus(g: Stage): StepStatus {
    match g
    case Marked => RUNNING
    case Ended(f) => if f == Failed then FAILED else COMPLETE
    case _ => PENDING
  }

  lemma StageAnswer(d: Dir, d': Dir, g: Stage, g': Stage)
    requires Looks(d, g) && Looks(d', g') && Follows(g, g')
    ensures Poll(d, d', NO_FAULTS) == Polled(StageStatus(g'))
  {
    match g'
    case Marked => assert |{InProgress}| == 1;
    case Ended(f) => assert |{f}| == 1;
    case _ =>
  }

  // The answer of a poll, by the stages at its two instants.
  lemma StagePoll(states: seq<Hub>, s: Step, lo: nat, stages: seq<Stage>, poll: Instants)
    requires StagesAre(states, s, lo, stages) && lo <= poll.stat <= poll.glob < lo + |stages|
    ensures AnswerTo(states, s, poll) == Polled(StageStatus(stages[poll.glob - lo]))
    ensures Looks(At(states[poll.glob].tree, s), stages[poll.glob - lo])
  {
    var x, y := poll.stat - lo, poll.glob - lo;
    assert StageAt(states[lo + x], s, stages[x]) && StageAt(states[lo + y], s, stages[y]);
    StageAnswer(At(states[poll.stat].tree, s), At(states[poll.glob].tree, s), stages[x], stages[y]);
  }

  lemma UndisturbedPattern(states: seq<Hub>, actions: seq<Action>, s: Step, lo: nat, hi: nat, polls: seq<Instants>)
    requires ResetWindow(states, actions, s, lo, hi) && Undisturbed(states, actions, s, lo, hi)
    requires PollsWithin(polls, lo, hi)
    ensures Pattern(Answers(states, s, polls))
  {
    var stages := StagesOf(states, actions, s, lo, hi);
    var seen := seq(|polls|, k requires 0 <= k < |polls| => stages[polls[k].glob - lo]);
    var answers := Answers(states, s, polls);
    forall k | 0 <= k < |polls|
      ensures answers[k] == Polled(StageStatus(seen[k])) && (seen[k].Ended? ==> Concludes(seen[k].file))
    {
      StagePoll(states, s, lo, stages, polls[k]);
    }
    forall k, m | 0 <= k <= m < |polls| ensures Follows(seen[k], seen[m]) {
      assert polls[k].glob <= polls[m].glob;
    }
    StagesFollow(answers, seen);
  }

  lemma StagesFollow(answers: seq<Polled>, seen: seq<Stage>)
    requires |answers| == |seen| && AllFollow(seen)
    requires forall k :: 0 <= k < |seen| ==>
               answers[k] == Polled(StageStatus(seen[k])) && (seen[k].Ended? ==> Concludes(seen[k].file))
    ensures Pattern(answers)
  {
    var ranks: seq<nat> := seq(|seen|, k requires 0 <= k < |seen| => Rank(seen[k]));
    forall k, m | 0 <= k <= m < |ranks| ensures ranks[k] <= ranks[m] && (ranks[k] >= 3 ==> answers[m] == answers[k]) {
      assert Follows(seen[k], seen[m]);
    }
    FollowIsPattern(answers, ranks);
  }

  // --- and only an undisturbed one ----------------------------------------------------

  lemma {:induction false} FirstDisturbance(states: seq<Hub>, actions: seq<Action>, s: Step, lo: nat, hi: nat)
      returns (i: nat)
    requires ResetWindow(states, actions, s, lo, hi) && !Undisturbed(states, actions, s, lo, hi)
    ensures lo <= i < hi && Undisturbed(states, actions, s, lo, i)
    ensures Forgets(states[i], actions[i], s) || Remarks(states, actions, s, lo, i)
    decreases hi
  {
    if Undisturbed(states, actions, s, lo, hi - 1) {
      i := hi - 1;
    } else {
      i := FirstDisturbance(states, actions, s, lo, hi - 1);
    }
  }

  // A conclusion forgotten is followed by PENDING.
  lemma ForgottenBreaks(states: seq<Hub>, actions: seq<Action>, s: Step, lo: nat, i: nat) returns (polls: seq<Instants>)
    requires ResetWindow(states, actions, s, lo, i) && Undisturbed(states, actions, s, lo, i)
    requires i < |actions| && Forgets(states[i], actions[i], s)
    ensures PollsWithin(polls, lo, i + 1) && !Pattern(Answers(states, s, polls))
  {
    var stages := StagesOf(states, actions, s, lo, i);
    var g := stages[i - lo];
    polls := [Instants(i, i), Instants(i + 1, i + 1)];
    StagePoll(states, s, lo, stages, polls[0]);
    assert g.Ended?;
    assert states[i + 1] == Perform(states[i], actions[i]);
    assert Listing(At(states[i + 1].tree, s)) == {};
    LeftConclusion(Answers(states, s, polls));
  }

  // A marker beside a conclusion shows as too many files; one written again shows
  // as RUNNING after PENDING after RUNNING, at least to a poll whose Stat still
  // saw the directory missing.
  lemma RemarkedBreaks(states: seq<Hub>, actions: seq<Action>, s: Step, lo: nat, i: nat) returns (polls: seq<Instants>)
    requires ResetWindow(states, actions, s, lo, i) && Undisturbed(states, actions, s, lo, i)
    requires i < |actions| && Remarks(states, actions, s, lo, i)
    ensures PollsWithin(polls, lo, i + 1) && !Pattern(Answers(states, s, polls))
  {
    var stages := StagesOf(states, actions, s, lo, i);
    var g := stages[i - lo];
    StagePoll(states, s, lo, stages, Instants(i, i));
    MarkedNow(states, actions, s, i);
    if g.Ended? {
      polls := [Instants(i, i), Instants(i + 1, i + 1)];
      TwoMarkers(At(states[i + 1].tree, s), g.file);
      LeftConclusion(Answers(states, s, polls));
    } else {
      polls := RemarkedPolls(states, s, lo, i, stages);
      RunningAgain(Answers(states, s, polls));
    }
  }

  lemma TwoMarkers(d: Dir, f: File)
    requires d == Present({f} + {InProgress}) && Concludes(f)
    ensures Poll(d, d, NO_FAULTS) == TooManyFiles
  {
    TooManyIff(d, d, NO_FAULTS);
    assert f in Listing(d) && InProgress in Listing(d);
  }

  lemma MarkedNow(states: seq<Hub>, actions: seq<Action>, s: Step, i: nat)
    requires IsRun(states, actions) && i < |actions| && Marks(states[i], actions[i], s)
    ensures At(states[i + 1].tree, s) == Present(Listing(At(states[i].tree, s)) + {InProgress})
  {
    assert states[i + 1] == Perform(states[i], actions[i]);
  }

  lemma RemarkedPolls(states: seq<Hub>, s: Step, lo: nat, i: nat, stages: seq<Stage>) returns (polls: seq<Instants>)
    requires StagesAre(states, s, lo, stages) && lo <= i && |stages| == i - lo + 1 && i + 1 < |states|
    requires !stages[i - lo].Ended? && Touched(states, s, lo, i)
    requires InProgress !in Listing(At(states[i].tree, s))
    requires At(states[i + 1].tree, s) == Present(Listing(At(states[i].tree, s)) + {InProgress})
    ensures PollsWithin(polls, lo, i + 1)
    ensures Answers(states, s, polls) == [Polled(RUNNING), Polled(PENDING), Polled(RUNNING)]
  {
    var m := BeforeRemark(states, s, lo, i, stages);
    polls := ThreePolls(states, s, m, i);
  }

  lemma ThreePolls(states: seq<Hub>, s: Step, m: nat, i: nat) returns (polls: seq<Instants>)
    requires m <= i && i + 1 < |states| && Listing(At(states[i].tree, s)) == {}
    requires At(states[m].tree, s).Absent? || At(states[m].tree, s) == Present({InProgress})
    requires At(states[i + 1].tree, s) == Present({} + {InProgress})
    ensures PollsWithin(polls, m, i + 1)
    ensures Answers(states, s, polls) == [Polled(RUNNING), Polled(PENDING), Polled(RUNNING)]
  {
    var now := Instants(i + 1, i + 1);
    RunningAt(states, s, i + 1);
    if At(states[m].tree, s).Absent? {
      polls := [now, Instants(m, i + 1), now];
    } else {
      RunningAt(states, s, m);
      polls := [Instants(m, m), Instants(i, i), now];
    }
    ThreeAnswers(states, s, polls);
  }

  // Before the mark is written again the directory is empty, and it was missing
  // or marked at an earlier instant.
  lemma BeforeRemark(states: seq<Hub>, s: Step, lo: nat, i: nat, stages: seq<Stage>) returns (m: nat)
    requires StagesAre(states, s, lo, stages) && lo <= i && |stages| == i - lo + 1
    requires !stages[i - lo].Ended? && Touched(states, s, lo, i)
    requires InProgress !in Listing(At(states[i].tree, s))
    ensures lo <= m <= i && Listing(At(states[i].tree, s)) == {}
    ensures At(states[m].tree, s).Absent? || At(states[m].tree, s) == Present({InProgress})
  {
    m :| lo <= m <= i && At(states[m].tree, s) != Present({});
    var g, first := stages[i - lo], stages[m - lo];
    assert StageAt(states[lo + (i - lo)], s, g) && StageAt(states[lo + (m - lo)], s, first);
    assert Follows(first, g);
  }

  lemma ThreeAnswers(states: seq<Hub>, s: Step, polls: seq<Instants>)
    requires |polls| == 3 && forall k :: 0 <= k < |polls| ==> polls[k].stat <= polls[k].glob < |states|
    ensures Answers(states, s, polls) ==
            [AnswerTo(states, s, polls[0]), AnswerTo(states, s, polls[1]), AnswerTo(states, s, polls[2])]
  {
  }

  lemma RunningAt(states: seq<Hub>, s: Step, i: nat)
    requires i < |states| && At(states[i].tree, s) == Present({InProgress})
    ensures AnswerTo(states, s, Instants(i, i)) == Polled(RUNNING)
  {
    assert |{InProgress}| == 1;
  }

  // --- the theorem ---------------------------------------------------------------------

  ghost predicate AllPollsFit(states: seq<Hub>, s: Step, lo: nat, hi: nat)
    requires hi < |states|
  {
    forall polls :: PollsWithin(polls, lo, hi) ==> Pattern(Answers(states, s, polls))
  }

  // Between one successful reset of a step and the next, everything that polls can
  // observe is of the expected form exactly when no reset in between takes a
  // concluding marker away and no job marks the step in progress once more.
  lemma PatternIffUndisturbed(states: seq<Hub>, actions: seq<Action>, s: Step, lo: nat, hi: nat)
    requires ResetWindow(states, actions, s, lo, hi)
    ensures AllPollsFit(states, s, lo, hi) <==> Undisturbed(states, actions, s, lo, hi)
  {
    if Undisturbed(states, actions, s, lo, hi) {
      forall polls | PollsWithin(polls, lo, hi) ensures Pattern(Answers(states, s, polls)) {
        UndisturbedPattern(states, actions, s, lo, hi, polls);
      }
    } else {
      var i := FirstDisturbance(states, actions, s, lo, hi);
      var polls;
      if Forgets(states[i], actions[i], s) {
        polls := ForgottenBreaks(states, actions, s, lo, i);
      } else {
        polls := RemarkedBreaks(states, actions, s, lo, i);
      }
      assert PollsWithin(polls, lo, hi) && !Pattern(Answers(states, s, polls));
    }
  }

  // --- where a second mark cannot happen ------------------------------------------------

  // The job of s marks it in progress next only in the directory as it was remade.
  ghost predicate MarksFirst(states: seq<Hub>, s: Step, lo: nat, i: nat)
    requires i < |states|
  {
    Owner(s) in states[i].jobs ==>
      var p := states[i].jobs[Owner(s)].job.prog;
      Reserved(p, s) || (Opens(p, s) && !Touched(states, s, lo, i))
  }

  // The job's own next step leaves it with a program that marks s only after
  // remaking its directory.
  lemma MoveReserved(h: Hub, a: Action, s: Step)
    requires a.Move? && a.slot == Owner(s) && !Idle(h, a.slot)
    requires Reserved(h.jobs[a.slot].job.prog, s) || Opens(h.jobs[a.slot].job.prog, s)
    requires !ResetSucceeds(h, a, s) && (Guarded(s) || !Removes(h, a, s))
    ensures Reserved(Perform(h, a).jobs[a.slot].job.prog, s)
  {
    var p := h.jobs[a.slot].job.prog;
    if p.Fs? && p.step == s { assert Calls(h, a, s, p.call); }
  }

  // Whatever is not a step of its own job leaves the directory as it is.
  lemma OthersLeave(states: seq<Hub>, actions: seq<Action>, s: Step, i: nat)
    requires IsRun(states, actions) && i < |actions|
    requires !(actions[i].Move? && actions[i].slot == Owner(s) && !Idle(states[i], actions[i].slot))
    ensures At(states[i + 1].tree, s) == At(states[i].tree, s)
  {
    InvAlways(states, actions, i);
    var a := actions[i];
    if a.Move? && a.slot != Owner(s) { MoveElsewhere(states[i], a.slot, a.answer, s); }
  }

  lemma MarksFirstStep(states: seq<Hub>, actions: seq<Action>, s: Step, lo: nat, i: nat)
    requires IsRun(states, actions) && lo <= i < |actions| && MarksFirst(states, s, lo, i)
    requires !ResetSucceeds(states[i], actions[i], s) && (Guarded(s) || !Removes(states[i], actions[i], s))
    ensures MarksFirst(states, s, lo, i + 1)
  {
    var h, a := states[i], actions[i];
    if a.Move? && a.slot == Owner(s) && !Idle(h, a.slot) {
      MoveReserved(h, a, s);
    } else {
      OthersLeave(states, actions, s, i);
      OthersKeepJob(h, a, s);
      assert Touched(states, s, lo, i + 1) ==> Touched(states, s, lo, i);
    }
  }

  // Apart from its own steps, the job of s is only ever launched anew or lost.
  lemma OthersKeepJob(h: Hub, a: Action, s: Step)
    requires !(a.Move? && a.slot == Owner(s) && !Idle(h, a.slot))
    ensures Owner(s) in Perform(h, a).jobs ==>
              || Reserved(Perform(h, a).jobs[Owner(s)].job.prog, s)
              || (Owner(s) in h.jobs && Perform(h, a).jobs[Owner(s)] == h.jobs[Owner(s)])
  {
    if a.Launch? { ProgramQuiet(a.operation, s); }
  }

  lemma {:induction false} MarksFirstAlways(states: seq<Hub>, actions: seq<Action>, s: Step, lo: nat, hi: nat)
    requires ResetWindow(states, actions, s, lo, hi)
    requires Guarded(s) || forall i :: lo <= i < hi ==> !Removes(states[i], actions[i], s)
    ensures MarksFirst(states, s, lo, hi)
    decreases hi
  {
    if lo == hi {
      WindowOpens(states, actions, s, lo, hi);
    } else {
      MarksFirstAlways(states, actions, s, lo, hi - 1);
      MarksFirstStep(states, actions, s, lo, hi - 1);
    }
  }

  lemma NeverRemarks(states: seq<Hub>, actions: seq<Action>, s: Step, lo: nat, hi: nat, i: nat)
    requires ResetWindow(states, actions, s, lo, hi) && lo <= i < hi
    requires Guarded(s) || forall j :: lo <= j < hi ==> !Removes(states[j], actions[j], s)
    ensures !Remarks(states, actions, s, lo, i)
  {
    MarksFirstAlways(states, actions, s, lo, i);
  }

  // For the guarded steps only the forgetting of a conclusion counts.
  ghost predicate Remembers(states: seq<Hub>, actions: seq<Action>, s: Step, lo: nat, hi: nat)
    requires hi <= |actions| && hi <= |states|
  {
    forall i :: lo <= i < hi ==> !Forgets(states[i], actions[i], s)
  }

  lemma PatternIffRemembered(states: seq<Hub>, actions: seq<Action>, s: Step, lo: nat, hi: nat)
    requires ResetWindow(states, actions, s, lo, hi) && Guarded(s)
    ensures AllPollsFit(states, s, lo, hi) <==> Remembers(states, actions, s, lo, hi)
  {
    PatternIffUndisturbed(states, actions, s, lo, hi);
    forall i | lo <= i < hi ensures !Remarks(states, actions, s, lo, i) {
      NeverRemarks(states, actions, s, lo, hi, i);
    }
  }

  // --- up to the next attempt to remove the directory --------------------------------------

  ghost predicate Window(states: seq<Hub>, actions: seq<Action>, s: Step, lo: nat, hi: nat) {
    && IsRun(states, actions) && 0 < lo <= hi < |states|
    && ResetSucceeds(states[lo - 1], actions[lo - 1], s)
    && forall i :: lo <= i < hi ==> !Removes(states[i], actions[i], s)
  }

  // Only a removal lets the directory be made again.
  lemma {:induction false} NoneBeforeRemoval(states: seq<Hub>, actions: seq<Action>, s: Step, lo: nat, hi: nat)
    requires Window(states, actions, s, lo, hi)
    ensures ResetWindow(states, actions, s, lo, hi) && At(states[hi].tree, s).Present?
    decreases hi
  {
    if lo == hi {
      WindowOpens(states, actions, s, lo, hi);
    } else {
      NoneBeforeRemoval(states, actions, s, lo, hi - 1);
      StaysPresent(states, actions, s, hi - 1);
    }
  }

  lemma StaysPresent(states: seq<Hub>, actions: seq<Action>, s: Step, i: nat)
    requires IsRun(states, actions) && i < |actions|
    requires !Removes(states[i], actions[i], s) && At(states[i].tree, s).Present?
    ensures At(states[i + 1].tree, s).Present? && !ResetSucceeds(states[i], actions[i], s)
  {
    var h, a := states[i], actions[i];
    if a.Move? && a.slot == Owner(s) && !Idle(h, a.slot) {
      InvAlways(states, actions, i);
      assert Placed(h.jobs[a.slot].job.prog, s, At(h.tree, s));
      MovePresent(h, a, s);
    } else {
      OthersLeave(states, actions, s, i);
    }
  }

  lemma MovePresent(h: Hub, a: Action, s: Step)
    requires a.Move? && a.slot == Owner(s) && !Idle(h, a.slot)
    requires At(h.tree, s).Present? && Placed(h.jobs[a.slot].job.prog, s, At(h.tree, s)) && !Removes(h, a, s)
    ensures At(Perform(h, a).tree, s).Present? && !ResetSucceeds(h, a, s)
  {
    var p := h.jobs[a.slot].job.prog;
    if p.Fs? && p.step == s { assert Calls(h, a, s, p.call); }
  }

  lemma PollPattern(states: seq<Hub>, actions: seq<Action>, s: Step, lo: nat, hi: nat, polls: seq<Instants>)
    requires Window(states, actions, s, lo, hi) && PollsWithin(polls, lo, hi)
    ensures Pattern(Answers(states, s, polls))
  {
    NoneBeforeRemoval(states, actions, s, lo, hi);
    forall i | lo <= i < hi ensures !Remarks(states, actions, s, lo, i) {
      NeverRemarks(states, actions, s, lo, hi, i);
    }
    UndisturbedPattern(states, actions, s, lo, hi, polls);
  }
}

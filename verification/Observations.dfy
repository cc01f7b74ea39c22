// What a sequence of status polls can observe of a step while the hub's jobs run.
module Observations {
  import opened Idl
  import opened Markers
  import opened StateCheck
  import opened HubSystem

  // A poll: the instants of its Stat and of its Glob.
  datatype Instants = Instants(stat: nat, glob: nat)

  // Polls between the instants lo and hi, in the order of their Globs.
  ghost predicate PollsWithin(polls: seq<Instants>, lo: nat, hi: nat) {
    && (forall k :: 0 <= k < |polls| ==> lo <= polls[k].stat <= polls[k].glob <= hi)
    && (forall k, m :: 0 <= k <= m < |polls| ==> polls[k].glob <= polls[m].glob)
  }

  function AnswerTo(states: seq<Hub>, s: Step, poll: Instants): Polled
    requires poll.stat <= poll.glob < |states|
  {
    Poll(At(states[poll.stat].tree, s), At(states[poll.glob].tree, s), NO_FAULTS)
  }

  function Answers(states: seq<Hub>, s: Step, polls: seq<Instants>): (r: seq<Polled>)
    requires forall k :: 0 <= k < |polls| ==> polls[k].stat <= polls[k].glob < |states|
    ensures |r| == |polls|
  {
    seq(|polls|, k requires 0 <= k < |polls| => AnswerTo(states, s, polls[k]))
  }

  // PENDING* RUNNING* PENDING* and then either COMPLETE* or FAILED*.
  ghost predicate Pattern(answers: seq<Polled>) {
    exists a: nat, b: nat, c: nat, end: StepStatus :: Shape(answers, a, b, c, end)
  }

  ghost predicate Shape(answers: seq<Polled>, a: nat, b: nat, c: nat, end: StepStatus) {
    && a <= b <= c <= |answers| && (end == COMPLETE || end == FAILED)
    && forall k :: 0 <= k < |answers| ==>
         answers[k] == Polled(if k < a then PENDING else if k < b then RUNNING else if k < c then PENDING else end)
  }

  // The number of entries below v of a non-decreasing sequence.
  function Cut(ranks: seq<nat>, v: nat): (c: nat)
    requires forall i, j :: 0 <= i <= j < |ranks| ==> ranks[i] <= ranks[j]
    ensures c <= |ranks| && forall k :: 0 <= k < |ranks| ==> (k < c <==> ranks[k] < v)
  {
    if ranks == [] || ranks[|ranks| - 1] < v then |ranks| else Cut(ranks[..|ranks| - 1], v)
  }

  // Answers that follow ranks 0, 1, 2, 3 which never fall, and that stay as they
  // are once rank 3 is reached.
  ghost predicate AnswersFollow(answers: seq<Polled>, ranks: seq<nat>) {
    && |ranks| == |answers|
    && (forall k, m :: 0 <= k <= m < |ranks| ==>
          ranks[k] <= ranks[m] && (ranks[k] >= 3 ==> answers[m] == answers[k]))
    && forall k :: 0 <= k < |ranks| ==>
         if ranks[k] == 1 then answers[k] == Polled(RUNNING)
         else if ranks[k] < 3 then answers[k] == Polled(PENDING)
         else answers[k] == Polled(COMPLETE) || answers[k] == Polled(FAILED)
  }

  lemma CutMonotone(ranks: seq<nat>, v: nat, w: nat)
    requires forall i, j :: 0 <= i <= j < |ranks| ==> ranks[i] <= ranks[j]
    requires v <= w
    ensures Cut(ranks, v) <= Cut(ranks, w)
  {
    var c := Cut(ranks, w);
    if c < |ranks| { assert w <= ranks[c]; }
  }

  lemma FollowIsPattern(answers: seq<Polled>, ranks: seq<nat>)
    requires AnswersFollow(answers, ranks)
    ensures Pattern(answers)
  {
    var a, b, c := Cut(ranks, 1), Cut(ranks, 2), Cut(ranks, 3);
    assert a <= b <= c by { CutMonotone(ranks, 1, 2); CutMonotone(ranks, 2, 3); }
    var end := if c < |answers| then answers[c].status else COMPLETE;
    forall k | 0 <= k < |answers|
      ensures answers[k] == Polled(if k < a then PENDING else if k < b then RUNNING else if k < c then PENDING else end)
    {
      assert k < a <==> ranks[k] < 1;
      assert k < b <==> ranks[k] < 2;
      assert k < c <==> ranks[k] < 3;
      if c <= k { assert ranks[c] >= 3 && answers[k] == answers[c]; }
    }
    assert Shape(answers, a, b, c, end);
  }

  // Two ways to break the pattern: leaving a conclusion, and RUNNING again after
  // PENDING after RUNNING.
  lemma LeftConclusion(answers: seq<Polled>)
    requires |answers| == 2 && answers[0] != answers[1]
    requires answers[0] == Polled(COMPLETE) || answers[0] == Polled(FAILED)
    ensures !Pattern(answers)
  {
  }

  lemma RunningAgain(answers: seq<Polled>)
    requires answers == [Polled(RUNNING), Polled(PENDING), Polled(RUNNING)]
    ensures !Pattern(answers)
  {
    assert answers[0] == answers[2] == Polled(RUNNING) && answers[1] == Polled(PENDING);
  }

  // A poll whose two reads work reports the status of the directory at one of
  // the two instants it read it.
  lemma PollIsInstant(states: seq<Hub>, s: Step, i: nat, j: nat) returns (m: nat)
    requires i <= j < |states|
    ensures i <= m <= j
    ensures Poll(At(states[i].tree, s), At(states[j].tree, s), NO_FAULTS) == StatusOf(At(states[m].tree, s))
  {
    m := if At(states[i].tree, s).Absent? then i else j;
  }
}

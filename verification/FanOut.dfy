// One goroutine per agent connection, a wait group and a buffered channel of
// errors, under every schedule.
module FanOut {

  // A goroutine: calling its agent, about to post the error it got, about to
  // leave the wait group, gone.
  datatype Worker = Calling | Posting | Leaving | Gone

  // `workers` are the goroutines spawned so far; `posted` errors are in the
  // channel; `counter` is the wait group. The result is the number of errors
  // reported once the caller has returned.
  datatype Result = Waiting | Returned(failures: nat)

  datatype State = State(workers: seq<Worker>, posted: nat, counter: int, result: Result)

  const INITIAL := State([], 0, 0, Waiting)

  datatype Action = Spawn | Answer(i: nat) | Post(i: nat) | Leave(i: nat) | Return

  // failing[i] says whether the call to agent i fails. The channel has room for
  // one error per connection; posting to a full channel blocks.
  predicate Enabled(s: State, a: Action, failing: seq<bool>) {
    s.result.Waiting? &&
    match a
    case Spawn => |s.workers| < |failing|
    case Answer(i) => i < |s.workers| && s.workers[i] == Calling
    case Post(i) => i < |s.workers| && s.workers[i] == Posting && s.posted < |failing|
    case Leave(i) => i < |s.workers| && s.workers[i] == Leaving
    case Return => |s.workers| == |failing| && s.counter == 0
  }

  function Next(s: State, a: Action, failing: seq<bool>): State
    requires Enabled(s, a, failing) && |s.workers| <= |failing|
  {
    match a
    case Spawn => s.(workers := s.workers + [Calling], counter := s.counter + 1)
    case Answer(i) => s.(workers := s.workers[i := if failing[i] then Posting else Leaving])
    case Post(i) => s.(workers := s.workers[i := Leaving], posted := s.posted + 1)
    case Leave(i) => s.(workers := s.workers[i := Gone], counter := s.counter - 1)
    case Return => s.(result := Returned(s.posted))
  }

  // A schedule: any sequence of enabled actions.
  ghost predicate IsSchedule(states: seq<State>, actions: seq<Action>, failing: seq<bool>) {
    && |states| == |actions| + 1 && states[0] == INITIAL
    && forall i :: 0 <= i < |actions| ==>
         Enabled(states[i], actions[i], failing) && |states[i].workers| <= |failing| &&
         states[i + 1] == Next(states[i], actions[i], failing)
  }

  // --- counting ------------------------------------------------------------------

  function Sum(ws: seq<Worker>, failing: seq<bool>, weight: (Worker, bool) -> nat): nat
    requires |ws| <= |failing|
  {
    if ws == [] then 0
    else Sum(ws[..|ws| - 1], failing, weight) + weight(ws[|ws| - 1], failing[|ws| - 1])
  }

  lemma {:induction false} SumUpdate(ws: seq<Worker>, failing: seq<bool>, weight: (Worker, bool) -> nat, i: nat,
                                     w: Worker)
    requires |ws| <= |failing| && i < |ws|
    ensures Sum(ws[i := w], failing, weight) + weight(ws[i], failing[i]) ==
            Sum(ws, failing, weight) + weight(w, failing[i])
  {
    var n := |ws| - 1;
    if i < n {
      SumUpdate(ws[..n], failing, weight, i, w);
      assert ws[i := w][..n] == ws[..n][i := w];
    } else {
      assert ws[i := w][..n] == ws[..n];
    }
  }

  function Present(w: Worker, fails: bool): nat {
    if w == Gone then 0 else 1
  }

  // Has posted an error.
  function Posted(w: Worker, fails: bool): nat {
    if fails && (w == Leaving || w == Gone) then 1 else 0
  }

  // Steps a worker still has to take.
  function Left(w: Worker, fails: bool): nat {
    match w case Calling => 3 case Posting => 2 case Leaving => 1 case Gone => 0
  }

  function Failures(failing: seq<bool>): nat {
    if failing == [] then 0 else Failures(failing[..|failing| - 1]) + if failing[|failing| - 1] then 1 else 0
  }

  ghost predicate Inv(s: State, failing: seq<bool>) {
    && |s.workers| <= |failing|
    && s.counter == Sum(s.workers, failing, Present)
    && s.posted == Sum(s.workers, failing, Posted)
    && (forall i :: 0 <= i < |s.workers| && s.workers[i] == Posting ==> failing[i])
    && (s.result.Returned? ==> |s.workers| == |failing| && s.counter == 0 && s.result.failures == s.posted)
  }

  lemma InvKept(s: State, a: Action, failing: seq<bool>)
    requires Inv(s, failing) && Enabled(s, a, failing)
    ensures Inv(Next(s, a, failing), failing)
  {
    match a
    case Spawn => SpawnSums(s.workers, failing);
    case Answer(i) => WorkerMoves(s, failing, i, if failing[i] then Posting else Leaving);
    case Post(i) => WorkerMoves(s, failing, i, Leaving);
    case Leave(i) => WorkerMoves(s, failing, i, Gone);
    case Return =>
  }

  lemma SpawnSums(ws: seq<Worker>, failing: seq<bool>)
    requires |ws| < |failing|
    ensures Sum(ws + [Calling], failing, Present) == Sum(ws, failing, Present) + 1
    ensures Sum(ws + [Calling], failing, Posted) == Sum(ws, failing, Posted)
    ensures Sum(ws + [Calling], failing, Left) == Sum(ws, failing, Left) + 3
  {
    assert (ws + [Calling])[..|ws|] == ws;
  }

  lemma WorkerMoves(s: State, failing: seq<bool>, i: nat, w: Worker)
    requires |s.workers| <= |failing| && i < |s.workers|
    ensures Sum(s.workers[i := w], failing, Present) + Present(s.workers[i], failing[i]) ==
            Sum(s.workers, failing, Present) + Present(w, failing[i])
    ensures Sum(s.workers[i := w], failing, Posted) + Posted(s.workers[i], failing[i]) ==
            Sum(s.workers, failing, Posted) + Posted(w, failing[i])
  {
    SumUpdate(s.workers, failing, Present, i, w);
    SumUpdate(s.workers, failing, Posted, i, w);
  }

  lemma {:induction false} InvAlways(states: seq<State>, actions: seq<Action>, failing: seq<bool>, i: nat)
    requires IsSchedule(states, actions, failing) && i < |states|
    ensures Inv(states[i], failing)
  {
    if i != 0 {
      InvAlways(states, actions, failing, i - 1);
      InvKept(states[i - 1], actions[i - 1], failing);
    }
  }

  lemma {:induction false} SumBounded(ws: seq<Worker>, failing: seq<bool>, weight: (Worker, bool) -> nat)
    requires |ws| <= |failing|
    requires forall w, f :: weight(w, f) <= 1
    ensures Sum(ws, failing, weight) <= |ws|
    ensures (exists i :: 0 <= i < |ws| && weight(ws[i], failing[i]) == 0) ==> Sum(ws, failing, weight) < |ws|
  {
    if ws != [] { SumBounded(ws[..|ws| - 1], failing, weight); }
  }

  // No send blocks: whoever has an error to post finds room in the channel.
  lemma PostNeverBlocks(states: seq<State>, actions: seq<Action>, failing: seq<bool>, k: nat, i: nat)
    requires IsSchedule(states, actions, failing) && k < |states|
    requires states[k].result.Waiting? && i < |states[k].workers| && states[k].workers[i] == Posting
    ensures Enabled(states[k], Post(i), failing)
  {
    InvAlways(states, actions, failing, k);
    var s := states[k];
    assert Posted(s.workers[i], failing[i]) == 0;
    SumBounded(s.workers, failing, Posted);
  }

  lemma {:induction false} AllGone(ws: seq<Worker>, failing: seq<bool>)
    requires |ws| <= |failing|
    ensures Sum(ws, failing, Present) == 0 <==> forall i :: 0 <= i < |ws| ==> ws[i] == Gone
  {
    if ws != [] {
      var n := |ws| - 1;
      AllGone(ws[..n], failing);
      if forall i :: 0 <= i < n ==> ws[..n][i] == Gone {
        assert forall i :: 0 <= i < n ==> ws[i] == Gone;
      }
    }
  }

  // Until the caller has returned, some goroutine or the caller can move.
  lemma NoDeadlock(states: seq<State>, actions: seq<Action>, failing: seq<bool>, k: nat) returns (a: Action)
    requires IsSchedule(states, actions, failing) && k < |states| && states[k].result.Waiting?
    ensures Enabled(states[k], a, failing)
  {
    InvAlways(states, actions, failing, k);
    var s := states[k];
    AllGone(s.workers, failing);
    if |s.workers| < |failing| {
      a := Spawn;
    } else if s.counter == 0 {
      a := Return;
    } else {
      var i :| 0 <= i < |s.workers| && s.workers[i] != Gone;
      match s.workers[i]
      case Calling => a := Answer(i);
      case Posting => a := Post(i); PostNeverBlocks(states, actions, failing, k, i);
      case Leaving => a := Leave(i);
    }
  }

  function Remaining(s: State, failing: seq<bool>): nat
    requires |s.workers| <= |failing|
  {
    4 * (|failing| - |s.workers|) + Sum(s.workers, failing, Left) + if s.result.Waiting? then 1 else 0
  }

  lemma EveryStepCounts(s: State, a: Action, failing: seq<bool>)
    requires Inv(s, failing) && Enabled(s, a, failing)
    ensures |Next(s, a, failing).workers| <= |failing|
    ensures Remaining(Next(s, a, failing), failing) < Remaining(s, failing)
  {
    InvKept(s, a, failing);
    match a
    case Spawn => SpawnSums(s.workers, failing);
    case Answer(i) => SumUpdate(s.workers, failing, Left, i, if failing[i] then Posting else Leaving);
    case Post(i) => SumUpdate(s.workers, failing, Left, i, Leaving);
    case Leave(i) => SumUpdate(s.workers, failing, Left, i, Gone);
    case Return =>
  }

  // No schedule goes on for ever: with NoDeadlock, every one that is not cut
  // short ends with the caller returning.
  lemma {:induction false} SchedulesEnd(states: seq<State>, actions: seq<Action>, failing: seq<bool>, k: nat)
    requires IsSchedule(states, actions, failing) && k < |states|
    ensures |states[k].workers| <= |failing|
    ensures k + Remaining(states[k], failing) <= 4 * |failing| + 1
  {
    if k == 0 {
      assert Sum([], failing, Left) == 0;
    } else {
      SchedulesEnd(states, actions, failing, k - 1);
      InvAlways(states, actions, failing, k - 1);
      EveryStepCounts(states[k - 1], actions[k - 1], failing);
    }
  }

  lemma {:induction false} PostedWhenGone(ws: seq<Worker>, failing: seq<bool>)
    requires |ws| <= |failing| && forall i :: 0 <= i < |ws| ==> ws[i] == Gone
    ensures Sum(ws, failing, Posted) == Failures(failing[..|ws|])
  {
    if ws != [] {
      var n := |ws| - 1;
      PostedWhenGone(ws[..n], failing);
      assert failing[..|ws|][..n] == failing[..n];
    }
  }

  // Whatever the schedule, the caller returns after every goroutine is gone and
  // reports exactly the calls that failed: no error iff none did.
  lemma ReportsEveryFailure(states: seq<State>, actions: seq<Action>, failing: seq<bool>, k: nat)
    requires IsSchedule(states, actions, failing) && k < |states| && states[k].result.Returned?
    ensures |states[k].workers| == |failing| && forall i :: 0 <= i < |failing| ==> states[k].workers[i] == Gone
    ensures states[k].result.failures == Failures(failing)
    ensures states[k].result.failures == 0 <==> forall i :: 0 <= i < |failing| ==> !failing[i]
  {
    InvAlways(states, actions, failing, k);
    var s := states[k];
    AllGone(s.workers, failing);
    PostedWhenGone(s.workers, failing);
    assert failing[..|failing|] == failing;
    NoFailures(failing);
  }

  lemma {:induction false} NoFailures(failing: seq<bool>)
    ensures Failures(failing) == 0 <==> forall i :: 0 <= i < |failing| ==> !failing[i]
  {
    if failing != [] { NoFailures(failing[..|failing| - 1]); }
  }
}

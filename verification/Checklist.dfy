// The checklist manager: its methods, proved to be the programs of module
// Programs whatever the environment answers.
module Checklist {
  import opened Markers
  import opened Programs

  // The machine the hub runs on. `env` decides the outcome of every filesystem
  // call and command, in the order in which they are made.
  class Machine {
    const env: Env
    var tree: Tree
    var log: seq<Ran>
    var clock: nat

    constructor (env: Env, tree: Tree)
      ensures this.env == env && Now() == World(tree, [], 0)
    {
      this.env := env;
      this.tree := tree;
      log := [];
      clock := 0;
    }

    function Now(): World
      reads this
    {
      World(tree, log, clock)
    }

    method Call(s: Step, c: Call) returns (ok: bool)
      modifies this
      ensures Reply(ok, At(tree, s)) == Apply(c, At(old(tree), s), env(old(clock)))
      ensures tree == old(tree)[s := At(tree, s)]
      ensures log == old(log) && clock == old(clock) + 1
      ensures forall a, b :: Exec(Fs(s, c, a, b), old(Now()), env) == Exec(if ok then a else b, Now(), env)
    {
      var r := Apply(c, At(tree, s), env(clock));
      tree := tree[s := r.dir];
      clock := clock + 1;
      ok := r.ok;
    }

    method Execute(c: Command) returns (ok: bool)
      modifies this
      ensures ok == env(old(clock)).commandOk
      ensures tree == old(tree) && log == old(log) + [Ran(c, ok)] && clock == old(clock) + 1
      ensures forall a, b :: Exec(Run(c, a, b), old(Now()), env) == Exec(if ok then a else b, Now(), env)
    {
      ok := env(clock).commandOk;
      log := log + [Ran(c, ok)];
      clock := clock + 1;
    }
  }

  // Only the step s may differ between the two trees.
  predicate OnlyChanges(s: Step, before: Tree, after: Tree) {
    after == before[s := At(after, s)]
  }

  class ChecklistManager {
    const m: Machine

    constructor (m: Machine)
      ensures this.m == m
    {
      this.m := m;
    }

    method ResetStateDir(s: Step) returns (ok: bool)
      modifies m
      ensures forall a, b :: Exec(Programs.ResetStateDir(s, a, b), old(m.Now()), m.env) ==
                             Exec(if ok then a else b, m.Now(), m.env)
      ensures ok ==> At(m.tree, s) == Present({})
      ensures !ok ==> Listing(At(m.tree, s)) <= Listing(At(old(m.tree), s))
      ensures OnlyChanges(s, old(m.tree), m.tree) && m.log == old(m.log)
    {
      ok := m.Call(s, RemoveAll);
      if !ok {
        return;
      }
      ok := m.Call(s, MkdirAll);
    }

    method MarkInProgress(s: Step) returns (ok: bool)
      modifies m
      ensures forall a, b :: Exec(Programs.MarkInProgress(s, a, b), old(m.Now()), m.env) ==
                             Exec(if ok then a else b, m.Now(), m.env)
      ensures ok ==> Listing(At(m.tree, s)) == Listing(At(old(m.tree), s)) + {InProgress}
      ensures !ok ==> Listing(At(m.tree, s)) <= Listing(At(old(m.tree), s)) + {InProgress}
      ensures OnlyChanges(s, old(m.tree), m.tree) && m.log == old(m.log)
    {
      ok := m.Call(s, Create(InProgress));
    }

    method MarkFailed(s: Step) returns (ok: bool)
      modifies m
      ensures forall a, b :: Exec(Conclude(s, Failed, a, b), old(m.Now()), m.env) ==
                             Exec(if ok then a else b, m.Now(), m.env)
      ensures ok ==> InProgress in Listing(At(old(m.tree), s)) &&
                     Listing(At(m.tree, s)) == Listing(At(old(m.tree), s)) - {InProgress} + {Failed}
      ensures InProgress !in Listing(At(old(m.tree), s)) ==> !ok && At(m.tree, s) == At(old(m.tree), s)
      ensures OnlyChanges(s, old(m.tree), m.tree) && m.log == old(m.log)
    {
      ok := m.Call(s, Remove(InProgress));
      if !ok {
        return;
      }
      ok := m.Call(s, Create(Failed));
    }

    method MarkComplete(s: Step) returns (ok: bool)
      modifies m
      ensures forall a, b :: Exec(Conclude(s, Completed, a, b), old(m.Now()), m.env) ==
                             Exec(if ok then a else b, m.Now(), m.env)
      ensures ok ==> InProgress in Listing(At(old(m.tree), s)) &&
                     Listing(At(m.tree, s)) == Listing(At(old(m.tree), s)) - {InProgress} + {Completed}
      ensures InProgress !in Listing(At(old(m.tree), s)) ==> !ok && At(m.tree, s) == At(old(m.tree), s)
      ensures OnlyChanges(s, old(m.tree), m.tree) && m.log == old(m.log)
    {
      ok := m.Call(s, Remove(InProgress));
      if !ok {
        return;
      }
      ok := m.Call(s, Create(Completed));
    }
  }
}

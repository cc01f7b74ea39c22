// Marker files: what one filesystem call or one shell command does, and the
// programs made of such calls that the hub's background jobs are.
module Markers {

  // The entries of a step directory. Anything that is not one of the three
  // markers is Other.
  datatype File = InProgress | Failed | Completed | Other(name: string)

  datatype Dir = Absent | Present(files: set<File>)

  // seginstall, start-agents, share-oids, validate-start-cluster,
  // gpstop/gpstop.old and gpstop/gpstop.new under the state directory.
  datatype Step = Seginstall | StartAgents | ShareOids | ValidateStartCluster | GpstopOld | GpstopNew

  type Tree = map<Step, Dir>

  function At(t: Tree, s: Step): Dir {
    if s in t then t[s] else Absent
  }

  function Listing(d: Dir): set<File> {
    if d.Present? then d.files else {}
  }

  ghost predicate AtMostOne(files: set<File>) {
    forall f, g :: f in files && g in files ==> f == g
  }

  // --- one call -------------------------------------------------------------

  datatype Call = RemoveAll | MkdirAll | Remove(file: File) | Create(file: File)

  // How the environment answers one step. A filesystem call that reports an
  // error may have taken effect all the same (`applied`); a failed RemoveAll
  // leaves any subset of the files behind (`left`).
  datatype Answer = Answer(fsOk: bool, applied: bool, left: set<File>, commandOk: bool)

  datatype Reply = Reply(ok: bool, dir: Dir)

  function Apply(c: Call, d: Dir, a: Answer): Reply {
    match c
    case RemoveAll =>
      if a.fsOk then Reply(true, Absent)
      else if d.Absent? || a.applied then Reply(false, Absent)
      else Reply(false, Present(d.files * a.left))
    case MkdirAll =>
      Reply(a.fsOk, if d.Absent? && (a.fsOk || a.applied) then Present({}) else d)
    case Remove(f) =>
      if f !in Listing(d) then Reply(false, d)
      else Reply(a.fsOk, if a.fsOk || a.applied then Present(d.files - {f}) else d)
    case Create(f) =>
      if d.Absent? then Reply(false, d)
      else Reply(a.fsOk, if a.fsOk || a.applied then Present(d.files + {f}) else d)
  }

  // --- programs -------------------------------------------------------------

  datatype Command =
    | Ssh(host: string)
    | Ping(agent: string)
    | Rsync(destination: string)
    | GpStart
    | GpStop(cluster: Step)

  datatype Ran = Ran(command: Command, ok: bool)

  // A job as the tree of its calls: each node is one filesystem call or one
  // command, with what is done next when it succeeds and when it fails.
  datatype Prog =
    | Done
    | Fs(step: Step, call: Call, onOk: Prog, onErr: Prog)
    | Run(command: Command, onOk: Prog, onErr: Prog)

  // A job in execution: what it still has to do and the commands it has run.
  datatype Job = Job(prog: Prog, log: seq<Ran>)

  datatype Progress = Progress(tree: Tree, job: Job)

  // One filesystem call or one command.
  function Advance(t: Tree, j: Job, a: Answer): (r: Progress)
    requires !j.prog.Done?
    ensures r.job.prog == j.prog.onOk || r.job.prog == j.prog.onErr
  {
    match j.prog
    case Fs(s, c, ok, er) =>
      var r := Apply(c, At(t, s), a);
      Progress(t[s := r.dir], Job(if r.ok then ok else er, j.log))
    case Run(c, ok, er) =>
      Progress(t, Job(if a.commandOk then ok else er, j.log + [Ran(c, a.commandOk)]))
  }

  // The state a job sees when nothing interleaves with it: the directories,
  // the commands run so far, and how many answers the environment has given.
  datatype World = World(tree: Tree, log: seq<Ran>, clock: nat)

  type Env = nat -> Answer

  function Exec(p: Prog, w: World, env: Env): World
    decreases p
  {
    if p.Done? then w
    else
      var r := Advance(w.tree, Job(p, w.log), env(w.clock));
      Exec(r.job.prog, World(r.tree, r.job.log, w.clock + 1), env)
  }

  // --- what a program promises ----------------------------------------------

  // p makes filesystem calls only on the steps in `own`.
  ghost predicate Confined(p: Prog, own: set<Step>) {
    match p
    case Done => true
    case Fs(s, _, ok, er) => s in own && Confined(ok, own) && Confined(er, own)
    case Run(_, ok, er) => Confined(ok, own) && Confined(er, own)
  }

  // Started when s looks like d, p keeps at most one file in s after every
  // call, whatever the environment answers.
  ghost predicate Keeps(p: Prog, s: Step, d: Dir) {
    && AtMostOne(Listing(d))
    && match p
       case Done => true
       case Run(_, ok, er) => Keeps(ok, s, d) && Keeps(er, s, d)
       case Fs(s', c, ok, er) =>
         if s' != s then Keeps(ok, s, d) && Keeps(er, s, d)
         else forall a: Answer :: Keeps(if Apply(c, d, a).ok then ok else er, s, Apply(c, d, a).dir)
  }

  // The call adds the in-progress marker to a directory that holds another file.
  predicate MarksBeside(c: Call, d: Dir, a: Answer) {
    c == Create(InProgress) && (a.fsOk || a.applied) && !(Listing(d) <= {InProgress})
  }

  // Which answers to its calls on a step a program is followed under: all of them,
  // those by which the directory can be removed, and those that never let it mark
  // the step in progress beside another file.
  datatype Rule = Anything | RemovalsWork | NoSecondFile

  predicate Allowed(rule: Rule, c: Call, d: Dir, a: Answer) {
    match rule
    case Anything => true
    case RemovalsWork => c == RemoveAll ==> a.fsOk
    case NoSecondFile => !MarksBeside(c, d, a)
  }

  // Like Keeps, under the answers that the rule allows.
  ghost predicate KeepsUnder(rule: Rule, p: Prog, s: Step, d: Dir) {
    && AtMostOne(Listing(d))
    && match p
       case Done => true
       case Run(_, ok, er) => KeepsUnder(rule, ok, s, d) && KeepsUnder(rule, er, s, d)
       case Fs(s', c, ok, er) =>
         if s' != s then KeepsUnder(rule, ok, s, d) && KeepsUnder(rule, er, s, d)
         else forall a: Answer :: Allowed(rule, c, d, a) ==>
           KeepsUnder(rule, if Apply(c, d, a).ok then ok else er, s, Apply(c, d, a).dir)
  }

  // A marker that concludes a step.
  predicate Concludes(f: File) {
    f == Failed || f == Completed
  }

  // The steps whose drivers give up when their reset fails. The others, share-oids
  // and gpstop, go on and mark the step in progress.
  predicate Guarded(s: Step) {
    s == Seginstall || s == StartAgents || s == ValidateStartCluster
  }

  // The life of a step directory from one successful reset to the next: empty,
  // marked in progress, unmarked but not yet concluded, emptied by another reset
  // that got no further, concluded by f.
  datatype Stage = Fresh | Marked | Cleared | Gone | Ended(file: File)

  function Rank(g: Stage): nat {
    match g case Fresh => 0 case Marked => 1 case Cleared => 2 case Gone => 2 case Ended(_) => 3
  }

  ghost predicate Looks(d: Dir, g: Stage) {
    match g
    case Fresh => d == Present({})
    case Marked => d == Present({InProgress})
    case Cleared => d == Present({})
    case Gone => Listing(d) == {}
    case Ended(f) => d == Present({f}) && Concludes(f)
  }

  // Until it remakes the directory successfully, p only moves s forward through
  // the stages, starting from g, whatever fails; except that it may take away a
  // concluding marker when it resets s, and that it may mark s in progress again.
  ghost predicate Steady(p: Prog, s: Step, g: Stage) {
    match p
    case Done => true
    case Run(_, ok, er) => Steady(ok, s, g) && Steady(er, s, g)
    case Fs(s', c, ok, er) =>
      if s' != s then Steady(ok, s, g) && Steady(er, s, g)
      else match c
        case RemoveAll => forall g': Stage :: Steady(ok, s, g') && Steady(er, s, g')
        case MkdirAll => Steady(er, s, g)
        case Remove(f) =>
          && f == InProgress
          && Steady(er, s, g)
          && (g == Marked ==> Steady(ok, s, Cleared) && Steady(er, s, Cleared))
        case Create(f) =>
          && (f == InProgress || (Concludes(f) && g == Cleared))
          && Steady(er, s, g)
          && (g == Fresh || g == Marked ==> Steady(ok, s, Marked) && Steady(er, s, Marked))
          && (g == Cleared && Concludes(f) ==> Steady(ok, s, Ended(f)) && Steady(er, s, Ended(f)))
  }

  // p marks s in progress only after remaking its directory. For a step that is
  // not guarded, this is said only up to the next time p removes the directory.
  ghost predicate Reserved(p: Prog, s: Step) {
    match p
    case Done => true
    case Run(_, ok, er) => Reserved(ok, s) && Reserved(er, s)
    case Fs(s', c, ok, er) =>
      if s' != s then Reserved(ok, s) && Reserved(er, s)
      else match c
        case RemoveAll => Guarded(s) ==> Reserved(ok, s) && Reserved(er, s)
        case MkdirAll => Reserved(er, s)
        case Remove(_) => Reserved(ok, s) && Reserved(er, s)
        case Create(f) => f != InProgress && Reserved(ok, s) && Reserved(er, s)
  }

  // p is about to mark s in progress, in the directory it has just remade.
  ghost predicate Opens(p: Prog, s: Step) {
    && p.Fs? && p.step == s && p.call == Create(InProgress)
    && Steady(p, s, Fresh)
    && Reserved(p.onOk, s) && Reserved(p.onErr, s)
  }

  // p makes the directory of s only right after removing it, and then marks s in
  // progress first of all.
  ghost predicate Tidy(p: Prog, s: Step) {
    match p
    case Done => true
    case Run(_, ok, er) => Tidy(ok, s) && Tidy(er, s)
    case Fs(s', c, ok, er) =>
      if s' != s then Tidy(ok, s) && Tidy(er, s)
      else match c
        case RemoveAll => Remade(ok, s) && Tidy(er, s)
        case MkdirAll => false
        case _ => Tidy(ok, s) && Tidy(er, s)
  }

  // p is about to make the directory of s, which it has just removed.
  ghost predicate Remade(p: Prog, s: Step)
    decreases p, 1
  {
    && p.Fs? && p.step == s && p.call.MkdirAll?
    && Opens(p.onOk, s)
    && Tidy(p.onOk, s) && Tidy(p.onErr, s)
  }

  // p can follow whatever was done to s before.
  ghost predicate Quiet(p: Prog, s: Step) {
    Tidy(p, s) && Reserved(p, s) && forall g: Stage :: Steady(p, s, g)
  }

  // p only runs commands on its way to one of the programs in `ends`.
  ghost predicate LeadsTo(p: Prog, ends: set<Prog>) {
    p in ends || (p.Run? && LeadsTo(p.onOk, ends) && LeadsTo(p.onErr, ends))
  }
}

// The agent copies the OID files to each segment and starts pg_upgrade for it.
module ConvertPrimary {
  import opened Text
  import opened DataDirPairs

  // Copying one OID file to the directory of a segment, and starting the command
  // line of a pair.
  datatype Command = Copy(oidFile: string, content: int) | StartUpgrade(pair: DataDirPair)

  datatype Ran = Ran(command: Command, ok: bool)

  // The fixed part of a request, and where the agent keeps its state.
  datatype Setup = Setup(stateDir: string, oldBinDir: string, newBinDir: string)

  function SegmentDir(su: Setup, content: int): string {
    su.stateDir + "/pg_upgrade/seg-" + Decimal(content)
  }

  function CommandLine(su: Setup, p: DataDirPair): string {
    "cd " + SegmentDir(su, p.content) + " && nohup " + su.newBinDir +
    "/pg_upgrade --old-bindir=" + su.oldBinDir + " --old-datadir=" + p.oldDataDir +
    " --new-bindir=" + su.newBinDir + " --new-datadir=" + p.newDataDir +
    " --old-port=" + Decimal(p.oldPort) + " --new-port=" + Decimal(p.newPort) + " --progress"
  }

  // Paths that the shell reads as one word.
  predicate OneWordPaths(su: Setup, p: DataDirPair) {
    && ' ' !in su.stateDir && ' ' !in su.oldBinDir && ' ' !in su.newBinDir
    && ' ' !in p.oldDataDir && ' ' !in p.newDataDir
  }

  // What the words of the command line are, for such paths.
  lemma CommandLineWords(su: Setup, p: DataDirPair)
    requires OneWordPaths(su, p)
    ensures Words(CommandLine(su, p)) ==
            [ "cd", su.stateDir + "/pg_upgrade/seg-" + Decimal(p.content), "&&", "nohup",
              su.newBinDir + "/pg_upgrade",
              "--old-bindir=" + su.oldBinDir, "--old-datadir=" + p.oldDataDir,
              "--new-bindir=" + su.newBinDir, "--new-datadir=" + p.newDataDir,
              "--old-port=" + Decimal(p.oldPort), "--new-port=" + Decimal(p.newPort), "--progress" ]
  {
    var a := ProgramPart(su, p);
    ProgramWords(su, p);
    OptionWords(a, su, p);
    LineIs(su, p, a);
    var dir, program := su.stateDir + "/pg_upgrade/seg-" + Decimal(p.content), su.newBinDir + "/pg_upgrade";
    Listed(dir, program,
           "--old-bindir=" + su.oldBinDir, "--old-datadir=" + p.oldDataDir,
           "--new-bindir=" + su.newBinDir, "--new-datadir=" + p.newDataDir,
           "--old-port=" + Decimal(p.oldPort), "--new-port=" + Decimal(p.newPort));
  }

  lemma Listed(dir: string, program: string, a: string, b: string, c: string, d: string, e: string, f: string)
    ensures ["cd", dir, "&&", "nohup", program] + [a, b] + [c, d] + [e, f] + ["--progress"] ==
            ["cd", dir, "&&", "nohup", program, a, b, c, d, e, f, "--progress"]
  {
  }

  // The options, after a.
  function Options(a: string, su: Setup, p: DataDirPair): string {
    a + " --old-bindir=" + su.oldBinDir + " --old-datadir=" + p.oldDataDir +
    " --new-bindir=" + su.newBinDir + " --new-datadir=" + p.newDataDir +
    " --old-port=" + Decimal(p.oldPort) + " --new-port=" + Decimal(p.newPort)
  }

  lemma OptionWords(a: string, su: Setup, p: DataDirPair)
    requires OneWordPaths(su, p)
    ensures Words(Options(a, su, p) + ([' '] + "--progress") + "") ==
            Words(a) + ["--old-bindir=" + su.oldBinDir, "--old-datadir=" + p.oldDataDir] +
            ["--new-bindir=" + su.newBinDir, "--new-datadir=" + p.newDataDir] +
            ["--old-port=" + Decimal(p.oldPort), "--new-port=" + Decimal(p.newPort)] + ["--progress"]
  {
    var b := a + " --old-bindir=" + su.oldBinDir + " --old-datadir=" + p.oldDataDir;
    var c := b + " --new-bindir=" + su.newBinDir + " --new-datadir=" + p.newDataDir;
    OldDirWords(a, su.oldBinDir, p.oldDataDir);
    NewDirWords(b, su.newBinDir, p.newDataDir);
    PortWords(c, p.oldPort, p.newPort);
    WordAdded(Options(a, su, p), "--progress", "");
    assert "--progress" + "" == "--progress";
  }

  lemma OldDirWords(s: string, binDir: string, dataDir: string)
    requires ' ' !in binDir && ' ' !in dataDir
    ensures Words(s + " --old-bindir=" + binDir + " --old-datadir=" + dataDir) ==
            Words(s) + ["--old-bindir=" + binDir, "--old-datadir=" + dataDir]
  {
    TwoWords(s, " --old-bindir=", "--old-bindir=", binDir, " --old-datadir=", "--old-datadir=", dataDir);
  }

  lemma NewDirWords(s: string, binDir: string, dataDir: string)
    requires ' ' !in binDir && ' ' !in dataDir
    ensures Words(s + " --new-bindir=" + binDir + " --new-datadir=" + dataDir) ==
            Words(s) + ["--new-bindir=" + binDir, "--new-datadir=" + dataDir]
  {
    TwoWords(s, " --new-bindir=", "--new-bindir=", binDir, " --new-datadir=", "--new-datadir=", dataDir);
  }

  lemma PortWords(s: string, oldPort: int, newPort: int)
    ensures Words(s + " --old-port=" + Decimal(oldPort) + " --new-port=" + Decimal(newPort)) ==
            Words(s) + ["--old-port=" + Decimal(oldPort), "--new-port=" + Decimal(newPort)]
  {
    TwoWords(s, " --old-port=", "--old-port=", Decimal(oldPort), " --new-port=", "--new-port=", Decimal(newPort));
  }

  function ProgramPart(su: Setup, p: DataDirPair): string {
    "cd " + SegmentDir(su, p.content) + " && nohup " + su.newBinDir + "/pg_upgrade"
  }

  lemma LineIs(su: Setup, p: DataDirPair, a: string)
    requires a == ProgramPart(su, p)
    ensures CommandLine(su, p) == Options(a, su, p) + ([' '] + "--progress") + ""
  {
    var head := "cd " + SegmentDir(su, p.content) + " && nohup " + su.newBinDir;
    assert head + "/pg_upgrade --old-bindir=" == head + "/pg_upgrade" + " --old-bindir=";
    assert " --progress" == [' '] + "--progress";
  }

  lemma TwoWords(s: string, option: string, name: string, value: string, option': string, name': string, value': string)
    requires option == [' '] + name && option' == [' '] + name'
    requires ' ' !in name && ' ' !in value && ' ' !in name' && ' ' !in value'
    ensures Words(s + option + value + option' + value') == Words(s) + [name + value, name' + value']
  {
    WordAdded(s, name, value);
    WordAdded(s + option + value, name', value');
    assert Words(s) + [name + value] + [name' + value'] == Words(s) + [name + value, name' + value'];
  }

  lemma ProgramWords(su: Setup, p: DataDirPair)
    requires OneWordPaths(su, p)
    ensures Words(ProgramPart(su, p)) ==
            [ "cd", su.stateDir + "/pg_upgrade/seg-" + Decimal(p.content), "&&", "nohup", su.newBinDir + "/pg_upgrade" ]
  {
    var dir, program := su.stateDir + "/pg_upgrade/seg-" + Decimal(p.content), su.newBinDir + "/pg_upgrade";
    FiveWords(dir, program);
    FiveParts(dir, su.newBinDir);
  }

  lemma FiveParts(dir: string, newBinDir: string)
    ensures "cd " + dir + " && nohup " + newBinDir + "/pg_upgrade" ==
            "cd" + [' '] + dir + [' '] + "&&" + [' '] + "nohup" + [' '] + (newBinDir + "/pg_upgrade")
  {
    assert "cd " == "cd" + [' '];
    assert " && nohup " == [' '] + "&&" + [' '] + "nohup" + [' '];
  }

  lemma FiveWords(dir: string, program: string)
    requires ' ' !in dir && ' ' !in program
    ensures Words("cd" + [' '] + dir + [' '] + "&&" + [' '] + "nohup" + [' '] + program) ==
            ["cd", dir, "&&", "nohup", program]
  {
    OneWord("cd");
    NextWord("cd", ["cd"], dir);
    var two := "cd" + [' '] + dir;
    NextWord(two, ["cd"] + [dir], "&&");
    var three := two + [' '] + "&&";
    NextWord(three, ["cd"] + [dir] + ["&&"], "nohup");
    var four := three + [' '] + "nohup";
    NextWord(four, ["cd"] + [dir] + ["&&"] + ["nohup"], program);
  }

  lemma NextWord(s: string, words: seq<string>, word: string)
    requires Words(s) == words && ' ' !in word
    ensures Words(s + [' '] + word) == words + [word]
  {
    WordsAcross(s, word);
    OneWord(word);
  }

  // The commands for one segment: every OID file, then pg_upgrade.
  function SegmentCommands(p: DataDirPair, oidFiles: seq<string>): (r: seq<Command>)
    ensures |r| == |oidFiles| + 1
  {
    seq(|oidFiles|, i requires 0 <= i < |oidFiles| => Copy(oidFiles[i], p.content)) +
    [StartUpgrade(p)]
  }

  function AllCommands(pairs: seq<DataDirPair>, oidFiles: seq<string>): seq<Command> {
    if pairs == [] then []
    else AllCommands(pairs[..|pairs| - 1], oidFiles) + SegmentCommands(pairs[|pairs| - 1], oidFiles)
  }

  function Succeeded(commands: seq<Command>): (r: seq<Ran>)
    ensures |r| == |commands|
  {
    seq(|commands|, i requires 0 <= i < |commands| => Ran(commands[i], true))
  }

  // All of the segments before k were started, and segment k was given up at
  // its directory or at one of its commands, the last one issued.
  ghost predicate StoppedAt(log: seq<Ran>, k: nat, pairs: seq<DataDirPair>, oidFiles: seq<string>,
                            mkdirOk: nat -> bool) {
    && k < |pairs| && (forall i :: 0 <= i < k ==> mkdirOk(i))
    && exists n: nat ::
         && n <= |oidFiles| + 1
         && (n == 0 <==> !mkdirOk(k))
         && log == Succeeded(AllCommands(pairs[..k], oidFiles)) + GivenUp(SegmentCommands(pairs[k], oidFiles)[..n])
  }

  // All of the commands worked but the last.
  function GivenUp(commands: seq<Command>): seq<Ran> {
    if commands == [] then []
    else Succeeded(commands[..|commands| - 1]) + [Ran(commands[|commands| - 1], false)]
  }

  ghost predicate Faithful(log: seq<Ran>, commandOk: nat -> bool) {
    forall i :: 0 <= i < |log| ==> log[i].ok == commandOk(i)
  }

  datatype Reply = GlobFailed | NoOidFiles | SegmentFailed | Converted

  // What a request comes to. mkdirOk(i): whether making the directory of segment i
  // works; commandOk(n): whether the n-th command does.
  ghost predicate Outcome(pairs: seq<DataDirPair>, globOk: bool, oidFiles: seq<string>,
                          mkdirOk: nat -> bool, commandOk: nat -> bool, reply: Reply, log: seq<Ran>) {
    && (reply == GlobFailed <==> !globOk)
    && (reply == NoOidFiles <==> globOk && oidFiles == [])
    && (reply == GlobFailed || reply == NoOidFiles ==> log == [])
    && (reply == Converted ==> log == Succeeded(AllCommands(pairs, oidFiles)))
    && (reply == Converted ==> forall k :: 0 <= k < |pairs| ==> mkdirOk(k))
    && (reply == SegmentFailed ==> exists k :: StoppedAt(log, k, pairs, oidFiles, mkdirOk))
    && Faithful(log, commandOk)
  }

  method UpgradeConvertPrimarySegments(pairs: seq<DataDirPair>, globOk: bool, oidFiles: seq<string>,
                                       mkdirOk: nat -> bool, commandOk: nat -> bool)
      returns (reply: Reply, log: seq<Ran>)
    ensures Outcome(pairs, globOk, oidFiles, mkdirOk, commandOk, reply, log)
  {
    log := [];
    if !globOk {
      return GlobFailed, log;
    }
    if |oidFiles| == 0 {
      return NoOidFiles, log;
    }
    for k := 0 to |pairs|
      invariant log == Succeeded(AllCommands(pairs[..k], oidFiles))
      invariant forall i :: 0 <= i < k ==> mkdirOk(i)
      invariant Faithful(log, commandOk)
    {
      if !mkdirOk(k) {
        assert log == log + GivenUp(SegmentCommands(pairs[k], oidFiles)[..0]);
        assert StoppedAt(log, k, pairs, oidFiles, mkdirOk);
        return SegmentFailed, log;
      }
      var ok;
      ghost var n;
      ok, log, n := ConvertSegment(pairs[k], oidFiles, commandOk, log);
      if !ok {
        assert StoppedAt(log, k, pairs, oidFiles, mkdirOk);
        return SegmentFailed, log;
      }
      AllCommandsStep(pairs, oidFiles, k);
    }
    assert pairs[..|pairs|] == pairs;
    return Converted, log;
  }

  lemma AllCommandsStep(pairs: seq<DataDirPair>, oidFiles: seq<string>, k: nat)
    requires k < |pairs|
    ensures Succeeded(AllCommands(pairs[..k + 1], oidFiles)) ==
            Succeeded(AllCommands(pairs[..k], oidFiles)) + Succeeded(SegmentCommands(pairs[k], oidFiles))
  {
    assert pairs[..k + 1][..k] == pairs[..k];
  }

  method Issue(c: Command, commandOk: nat -> bool, before: seq<Ran>) returns (ok: bool, log: seq<Ran>)
    requires Faithful(before, commandOk)
    ensures log == before + [Ran(c, ok)] && Faithful(log, commandOk)
  {
    ok := commandOk(|before|);
    log := before + [Ran(c, ok)];
  }

  // The commands of one segment, after those already in the log.
  method ConvertSegment(pair: DataDirPair, oidFiles: seq<string>, commandOk: nat -> bool, before: seq<Ran>)
      returns (ok: bool, log: seq<Ran>, ghost n: nat)
    requires Faithful(before, commandOk)
    ensures Faithful(log, commandOk) && 0 < n <= |oidFiles| + 1
    ensures ok ==> log == before + Succeeded(SegmentCommands(pair, oidFiles))
    ensures !ok ==> log == before + GivenUp(SegmentCommands(pair, oidFiles)[..n])
  {
    log := before;
    ghost var commands := SegmentCommands(pair, oidFiles);
    for i := 0 to |oidFiles|
      invariant log == before + Succeeded(commands[..i]) && Faithful(log, commandOk)
    {
      n := i + 1;
      ghost var previous := log;
      ok, log := Issue(Copy(oidFiles[i], pair.content), commandOk, log);
      StepTo(before, previous, commands, i, ok);
      if !ok {
        return;
      }
    }
    n := |oidFiles| + 1;
    ghost var copied := log;
    ok, log := Issue(StartUpgrade(pair), commandOk, log);
    StepTo(before, copied, commands, |oidFiles|, ok);
    assert commands[..|oidFiles| + 1] == commands;
  }

  lemma StepTo(before: seq<Ran>, previous: seq<Ran>, commands: seq<Command>, i: nat, ok: bool)
    requires i < |commands| && previous == before + Succeeded(commands[..i])
    ensures ok ==> previous + [Ran(commands[i], ok)] == before + Succeeded(commands[..i + 1])
    ensures !ok ==> previous + [Ran(commands[i], ok)] == before + GivenUp(commands[..i + 1])
  {
    assert commands[..i + 1][..i] == commands[..i];
    assert Succeeded(commands[..i + 1]) == Succeeded(commands[..i]) + [Ran(commands[i], true)];
  }

  // --- what the log says ------------------------------------------------------------

  // The place in the log of the first command of segment j, when each segment has
  // m commands.
  function Place(j: nat, m: nat): nat {
    if j == 0 then 0 else Place(j - 1, m) + m
  }

  lemma {:induction false} PlaceIs(j: nat, m: nat)
    ensures Place(j, m) == j * m
  {
    if j != 0 {
      PlaceIs(j - 1, m);
      assert j * m == (j - 1) * m + m;
    }
  }

  // The commands of segment j stand together, in the order of the segments.
  lemma {:induction false} CommandAt(pairs: seq<DataDirPair>, oidFiles: seq<string>, j: nat, t: nat)
    requires j < |pairs| && t <= |oidFiles|
    ensures Place(j, |oidFiles| + 1) + t < |AllCommands(pairs, oidFiles)|
    ensures AllCommands(pairs, oidFiles)[Place(j, |oidFiles| + 1) + t] ==
            if t < |oidFiles| then Copy(oidFiles[t], pairs[j].content) else StartUpgrade(pairs[j])
  {
    var n := |pairs| - 1;
    CommandCount(pairs[..n], oidFiles);
    if j < n {
      CommandAt(pairs[..n], oidFiles, j, t);
      assert pairs[..n][j] == pairs[j];
    }
  }

  lemma {:induction false} CommandCount(pairs: seq<DataDirPair>, oidFiles: seq<string>)
    ensures |AllCommands(pairs, oidFiles)| == Place(|pairs|, |oidFiles| + 1)
  {
    if pairs != [] { CommandCount(pairs[..|pairs| - 1], oidFiles); }
  }

  lemma CommandTotal(pairs: seq<DataDirPair>, oidFiles: seq<string>)
    ensures |AllCommands(pairs, oidFiles)| == |pairs| * (|oidFiles| + 1)
  {
    CommandCount(pairs, oidFiles);
    PlaceIs(|pairs|, |oidFiles| + 1);
  }

  // Command c was issued as the i-th and worked.
  predicate Entry(log: seq<Ran>, i: nat, c: Command) {
    i < |log| && log[i] == Ran(c, true)
  }

  // The log starts with the commands, all successful.
  ghost predicate AllWorked(log: seq<Ran>, commands: seq<Command>) {
    forall i: nat :: i < |commands| ==> Entry(log, i, commands[i])
  }

  // When the agent gives up at segment k: pg_upgrade has been started, after
  // all copies, for each segment before k, at its own place of the log.
  lemma StartedBefore(log: seq<Ran>, k: nat, pairs: seq<DataDirPair>, oidFiles: seq<string>, mkdirOk: nat -> bool,
                      j: nat, t: nat)
    requires StoppedAt(log, k, pairs, oidFiles, mkdirOk) && j < k && t <= |oidFiles|
    ensures Entry(log, Place(j, |oidFiles| + 1) + t,
                  if t < |oidFiles| then Copy(oidFiles[t], pairs[j].content) else StartUpgrade(pairs[j]))
  {
    EarlierWorked(log, k, pairs, oidFiles, mkdirOk);
    CommandAt(pairs[..k], oidFiles, j, t);
    assert pairs[..k][j] == pairs[j];
  }

  lemma EarlierWorked(log: seq<Ran>, k: nat, pairs: seq<DataDirPair>, oidFiles: seq<string>, mkdirOk: nat -> bool)
    requires StoppedAt(log, k, pairs, oidFiles, mkdirOk)
    ensures AllWorked(log, AllCommands(pairs[..k], oidFiles))
  {
    var n := GivenUpAfter(log, k, pairs, oidFiles, mkdirOk);
    SucceededWorked(log, AllCommands(pairs[..k], oidFiles), GivenUp(SegmentCommands(pairs[k], oidFiles)[..n]));
  }

  lemma SucceededWorked(log: seq<Ran>, commands: seq<Command>, rest: seq<Ran>)
    requires log == Succeeded(commands) + rest
    ensures AllWorked(log, commands)
  {
  }

  // From `first` on the log holds some of the commands, in order, and only its
  // last entry failed.
  ghost predicate EndsWithin(log: seq<Ran>, first: nat, commands: seq<Command>) {
    && first <= |log| <= first + |commands|
    && forall i :: first <= i < |log| ==>
         log[i].command == commands[i - first] && (log[i].ok <==> i < |log| - 1)
  }

  // Every later entry belongs to segment k, and only the last one failed: no
  // command was issued for a segment after k.
  lemma StoppedTail(log: seq<Ran>, k: nat, pairs: seq<DataDirPair>, oidFiles: seq<string>, mkdirOk: nat -> bool)
    requires StoppedAt(log, k, pairs, oidFiles, mkdirOk)
    ensures EndsWithin(log, Place(k, |oidFiles| + 1), SegmentCommands(pairs[k], oidFiles))
  {
    var n := GivenUpAfter(log, k, pairs, oidFiles, mkdirOk);
    var before, commands := Succeeded(AllCommands(pairs[..k], oidFiles)), SegmentCommands(pairs[k], oidFiles);
    CommandCount(pairs[..k], oidFiles);
    GivenUpTail(log, before, commands, n);
    assert |before| == Place(k, |oidFiles| + 1);
  }

  lemma GivenUpAfter(log: seq<Ran>, k: nat, pairs: seq<DataDirPair>, oidFiles: seq<string>, mkdirOk: nat -> bool)
      returns (n: nat)
    requires StoppedAt(log, k, pairs, oidFiles, mkdirOk)
    ensures n <= |oidFiles| + 1
    ensures log == Succeeded(AllCommands(pairs[..k], oidFiles)) + GivenUp(SegmentCommands(pairs[k], oidFiles)[..n])
  {
    n :| && n <= |oidFiles| + 1
         && log == Succeeded(AllCommands(pairs[..k], oidFiles)) + GivenUp(SegmentCommands(pairs[k], oidFiles)[..n]);
  }

  lemma GivenUpTail(log: seq<Ran>, before: seq<Ran>, commands: seq<Command>, n: nat)
    requires n <= |commands| && log == before + GivenUp(commands[..n])
    ensures EndsWithin(log, |before|, commands)
  {
  }
}

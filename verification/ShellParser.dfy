// Finding the port of a segment in the command line of its pg_upgrade.
module ShellParser {
  import opened Text
  import opened DataDirPairs
  import opened ConvertPrimary

  const OLD_PORT: string := "--old-port"

  // The length of the run of digits that starts at i.
  function DigitRun(s: string, i: nat): (n: nat)
    requires i <= |s|
    ensures i + n <= |s| && forall j :: i <= j < i + n ==> IsDigit(s[j])
    ensures i + n < |s| ==> !IsDigit(s[i + n])
    decreases |s| - i
  {
    if i < |s| && IsDigit(s[i]) then 1 + DigitRun(s, i + 1) else 0
  }

  // --old-port.(\d+) matches at i: the dot is any character but a newline.
  predicate MatchesAt(s: string, i: nat) {
    && OccursAt(s, OLD_PORT, i)
    && i + |OLD_PORT| + 1 < |s|
    && s[i + |OLD_PORT|] != '\n'
    && IsDigit(s[i + |OLD_PORT| + 1])
  }

  ghost predicate LeftmostMatch(s: string, i: nat) {
    MatchesAt(s, i) && forall j: nat :: j < i ==> !MatchesAt(s, j)
  }

  // The digits of a match at i.
  function Port(s: string, i: nat): string
    requires MatchesAt(s, i)
  {
    var start := i + |OLD_PORT| + 1;
    s[start..start + DigitRun(s, start)]
  }

  // The whole leftmost match and its group.
  ghost predicate IsSubmatch(s: string, i: nat, r: seq<string>) {
    LeftmostMatch(s, i) && |r| == 2 && r[0] == s[i..i + |OLD_PORT| + 1] + Port(s, i) && r[1] == Port(s, i)
  }

  // FindStringSubmatch: the leftmost match and its group, or nothing.
  function FindSubmatch(s: string, from: nat): (r: seq<string>)
    requires from <= |s|
    requires forall j: nat :: j < from ==> !MatchesAt(s, j)
    ensures r == [] ==> forall j: nat :: !MatchesAt(s, j)
    ensures r != [] ==> |r| == 2 && exists i: nat :: IsSubmatch(s, i, r)
    decreases |s| - from
  {
    if from == |s| then []
    else if MatchesAt(s, from) then
      var r := [s[from..from + |OLD_PORT| + 1] + Port(s, from), Port(s, from)];
      assert IsSubmatch(s, from, r);
      r
    else FindSubmatch(s, from + 1)
  }

  // The text has a match and its leftmost one names the target port.
  ghost predicate Names(output: string, target: int) {
    exists i: nat :: LeftmostMatch(output, i) && Port(output, i) == Decimal(target)
  }

  method IsPgUpgradeRunning(targetPort: int, output: string) returns (result: bool)
    ensures result <==> Names(output, targetPort)
  {
    SubmatchNames(output, targetPort);
    if |output| == 0 {
      return false;
    }
    result := Among(Decimal(targetPort), FindSubmatch(output, 0));
  }

  method Among(targetString: string, segmentPorts: seq<string>) returns (result: bool)
    ensures result <==> targetString in segmentPorts
  {
    for i := 0 to |segmentPorts|
      invariant targetString !in segmentPorts[..i]
    {
      if segmentPorts[i] == targetString {
        return true;
      }
    }
    return false;
  }

  lemma SubmatchNames(s: string, target: int)
    ensures Names(s, target) <==> Decimal(target) in FindSubmatch(s, 0)
    ensures s == "" ==> !Names(s, target)
  {
    var ports := FindSubmatch(s, 0);
    if ports != [] {
      var i: nat :| IsSubmatch(s, i, ports);
      NamesAt(s, target, i);
      WholeMatchIsNoPort(s, target, i);
      InPair(ports, Decimal(target));
    }
  }

  lemma InPair(pair: seq<string>, x: string)
    requires |pair| == 2
    ensures x in pair <==> x == pair[0] || x == pair[1]
  {
  }

  // There is only one leftmost match.
  lemma NamesAt(s: string, target: int, i: nat)
    requires LeftmostMatch(s, i)
    ensures Names(s, target) <==> Port(s, i) == Decimal(target)
  {
    if Names(s, target) {
      var j: nat :| LeftmostMatch(s, j) && Port(s, j) == Decimal(target);
      assert i == j;
    }
  }

  // The loop also compares the whole match, which is never a number.
  lemma WholeMatchIsNoPort(s: string, target: int, i: nat)
    requires MatchesAt(s, i)
    ensures s[i..i + |OLD_PORT| + 1] + Port(s, i) != Decimal(target)
  {
    var whole := s[i..i + |OLD_PORT| + 1] + Port(s, i);
    TwoDashes(s, i);
    assert whole[0] == s[i] && whole[1] == s[i + 1];
    OneSign(target);
  }

  lemma TwoDashes(s: string, i: nat)
    requires OccursAt(s, OLD_PORT, i)
    ensures s[i] == '-' && s[i + 1] == '-'
  {
    assert s[i..i + |OLD_PORT|][0] == s[i] && s[i..i + |OLD_PORT|][1] == s[i + 1];
  }

  lemma OneSign(n: int)
    ensures |Decimal(n)| > 1 ==> IsDigit(Decimal(n)[1])
  {
    if n < 0 {
      assert Decimal(n)[1] == Natural(-n)[0];
    } else if |Decimal(n)| > 1 {
      assert Decimal(n)[1] in Natural(n);
    }
  }

  // --- round trip -----------------------------------------------------------------

  // The paths that are printed before the port.
  predicate CleanPaths(su: Setup, p: DataDirPair) {
    && !Contains(su.stateDir, OLD_PORT) && !Contains(su.oldBinDir, OLD_PORT) && !Contains(su.newBinDir, OLD_PORT)
    && !Contains(p.oldDataDir, OLD_PORT) && !Contains(p.newDataDir, OLD_PORT)
  }

  function BeforePort(su: Setup, p: DataDirPair): string {
    "cd " + SegmentDir(su, p.content) + " && nohup " + su.newBinDir +
    "/pg_upgrade --old-bindir=" + su.oldBinDir + " --old-datadir=" + p.oldDataDir +
    " --new-bindir=" + su.newBinDir + " --new-datadir=" + p.newDataDir
  }

  function AfterPort(p: DataDirPair): string {
    " --new-port=" + Decimal(p.newPort) + " --progress"
  }

  lemma LineSplits(su: Setup, p: DataDirPair)
    ensures CommandLine(su, p) == BeforePort(su, p) + [' '] + (OLD_PORT + "=" + Decimal(p.oldPort) + AfterPort(p))
  {
    var option, d := " --old-port=", Decimal(p.oldPort);
    assert option == [' '] + OLD_PORT + "=";
    Reassociate(BeforePort(su, p), option, d, " --new-port=", Decimal(p.newPort), " --progress");
    assert option + d == [' '] + (OLD_PORT + "=" + d);
    Regroup(BeforePort(su, p), OLD_PORT + "=" + d, AfterPort(p));
  }

  lemma Reassociate(a: string, b: string, c: string, d: string, e: string, f: string)
    ensures a + b + c + d + e + f == a + (b + c) + (d + e + f)
  {
  }

  lemma Regroup(a: string, b: string, c: string)
    ensures a + ([' '] + b) + c == a + [' '] + (b + c)
  {
  }

  lemma SegmentDirClean(su: Setup, p: DataDirPair)
    requires CleanPaths(su, p)
    ensures !Contains(SegmentDir(su, p.content), OLD_PORT)
  {
    // the '/' that starts the suffix is not in the keyword; the rest has no 'o'
    var tail := "pg_upgrade/seg-" + Decimal(p.content);
    assert SegmentDir(su, p.content) == su.stateDir + ['/'] + tail;
    LacksChar(tail, OLD_PORT, 'o');
    ContainsAcross(su.stateDir, '/', tail, OLD_PORT);
  }

  // No part of the line before the port names an old port.
  lemma BeforePortClean(su: Setup, p: DataDirPair)
    requires CleanPaths(su, p)
    ensures !Contains(BeforePort(su, p), OLD_PORT)
  {
    SegmentDirClean(su, p);
    var a0 := "cd " + SegmentDir(su, p.content);
    StartClean(SegmentDir(su, p.content));
    var a1 := a0 + " && nohup " + su.newBinDir;
    ContainsThrough(a0, " && nohup ", su.newBinDir, OLD_PORT, 'l');
    OptionsClean(a1, su, p);
  }

  lemma StartClean(dir: string)
    requires !Contains(dir, OLD_PORT)
    ensures !Contains("cd " + dir, OLD_PORT)
  {
    LacksChar("cd", OLD_PORT, 'o');
    assert "cd " + dir == "cd" + [' '] + dir;
    ContainsAcross("cd", ' ', dir, OLD_PORT);
  }

  lemma OptionsClean(a1: string, su: Setup, p: DataDirPair)
    requires CleanPaths(su, p) && !Contains(a1, OLD_PORT)
    ensures !Contains(a1 + "/pg_upgrade --old-bindir=" + su.oldBinDir + " --old-datadir=" + p.oldDataDir +
                      " --new-bindir=" + su.newBinDir + " --new-datadir=" + p.newDataDir, OLD_PORT)
  {
    var a2 := a1 + "/pg_upgrade --old-bindir=" + su.oldBinDir;
    ContainsThrough(a1, "/pg_upgrade --old-bindir=", su.oldBinDir, OLD_PORT, 't');
    var a3 := a2 + " --old-datadir=" + p.oldDataDir;
    ContainsThrough(a2, " --old-datadir=", p.oldDataDir, OLD_PORT, 'p');
    var a4 := a3 + " --new-bindir=" + su.newBinDir;
    ContainsThrough(a3, " --new-bindir=", su.newBinDir, OLD_PORT, 'o');
    ContainsThrough(a4, " --new-datadir=", p.newDataDir, OLD_PORT, 'o');
  }

  // In before + " --old-port=" + ..., nothing matches earlier than there.
  lemma NoEarlierMatch(before: string, rest: string, j: nat)
    requires !Contains(before, OLD_PORT) && j < |before| + 1
    ensures !OccursAt(before + [' '] + rest, OLD_PORT, j)
  {
    var s := before + [' '] + rest;
    if OccursAt(s, OLD_PORT, j) {
      if j + |OLD_PORT| <= |before| {
        assert before[j..j + |OLD_PORT|] == s[j..j + |OLD_PORT|];
        assert OccursAt(before, OLD_PORT, j);
        assert false;
      } else {
        Straddles(before, ' ', rest, OLD_PORT, j);
        assert false;
      }
    }
  }

  lemma NoLaterMatch(p: DataDirPair, i: nat)
    requires i > 0
    ensures !OccursAt(OLD_PORT + "=" + Decimal(p.oldPort) + AfterPort(p), OLD_PORT, i)
  {
    var s := OLD_PORT + "=" + Decimal(p.oldPort) + AfterPort(p);
    TailClean(p);
    if OccursAt(s, OLD_PORT, i) {
      Shifted(s, i);
      assert false;
    }
  }

  // Past its first character, the port option does not contain its name again.
  lemma TailClean(p: DataDirPair)
    ensures !Contains((OLD_PORT + "=" + Decimal(p.oldPort) + AfterPort(p))[1..], OLD_PORT)
  {
    var tail := Decimal(p.oldPort) + AfterPort(p);
    NumbersClean(p);
    TooShort(OLD_PORT[1..]);
    ContainsAcross(OLD_PORT[1..], '=', tail, OLD_PORT);
    WithoutFirst(OLD_PORT, Decimal(p.oldPort), AfterPort(p));
  }

  lemma NumbersClean(p: DataDirPair)
    ensures !Contains(Decimal(p.oldPort) + AfterPort(p), OLD_PORT)
  {
    LacksChar(Decimal(p.oldPort) + AfterPort(p), OLD_PORT, 'l');
  }

  lemma WithoutFirst(a: string, b: string, c: string)
    requires a != ""
    ensures (a + "=" + b + c)[1..] == a[1..] + ['='] + (b + c)
  {
  }

  lemma TooShort(s: string)
    requires |s| < |OLD_PORT|
    ensures !Contains(s, OLD_PORT)
  {
  }

  lemma Shifted(s: string, i: nat)
    requires i > 0 && OccursAt(s, OLD_PORT, i)
    ensures Contains(s[1..], OLD_PORT)
  {
    assert s[1..][i - 1..i - 1 + |OLD_PORT|] == s[i..i + |OLD_PORT|];
    assert OccursAt(s[1..], OLD_PORT, i - 1);
  }

  lemma {:induction false} RunOf(s: string, i: nat, d: string)
    requires i + |d| < |s| && s[i..i + |d|] == d && (forall c :: c in d ==> IsDigit(c)) && !IsDigit(s[i + |d|])
    ensures DigitRun(s, i) == |d|
    decreases |d|
  {
    if d != "" {
      assert s[i] == d[0];
      assert s[i + 1..i + |d|] == d[1..];
      RunOf(s, i + 1, d[1..]);
    }
  }

  // The line names the old port at one place, if that port can be matched.
  lemma LineMatches(su: Setup, p: DataDirPair, i: nat)
    requires CleanPaths(su, p)
    ensures var s := CommandLine(su, p);
            MatchesAt(s, i) <==> i == |BeforePort(su, p)| + 1 && p.oldPort >= 0
    ensures p.oldPort >= 0 && i == |BeforePort(su, p)| + 1 ==> Port(CommandLine(su, p), i) == Decimal(p.oldPort)
  {
    LineSplits(su, p);
    BeforePortClean(su, p);
    LineMatchesAt(BeforePort(su, p), OLD_PORT + "=" + Decimal(p.oldPort) + AfterPort(p), p, i);
  }

  lemma LineMatchesAt(before: string, rest: string, p: DataDirPair, i: nat)
    requires !Contains(before, OLD_PORT) && rest == OLD_PORT + "=" + Decimal(p.oldPort) + AfterPort(p)
    ensures var s := before + [' '] + rest;
            MatchesAt(s, i) <==> i == |before| + 1 && p.oldPort >= 0
    ensures p.oldPort >= 0 && i == |before| + 1 ==> Port(before + [' '] + rest, i) == Decimal(p.oldPort)
  {
    var s := before + [' '] + rest;
    var at := |before| + 1;
    if i < at {
      NoEarlierMatch(before, rest, i);
    } else if i > at {
      NoLaterMatch(p, i - at);
      Suffix(before, rest, i);
    } else {
      assert s[at..] == rest;
      PortPlace(s, at, p);
    }
  }

  lemma Suffix(before: string, rest: string, i: nat)
    requires i >= |before| + 1
    ensures OccursAt(before + [' '] + rest, OLD_PORT, i) <==> OccursAt(rest, OLD_PORT, i - |before| - 1)
  {
    var s, j := before + [' '] + rest, i - |before| - 1;
    if i + |OLD_PORT| <= |s| { assert s[i..i + |OLD_PORT|] == rest[j..j + |OLD_PORT|]; }
  }

  lemma SliceAt(s: string, at: nat, i: nat, j: nat)
    requires at <= |s| && i <= j <= |s| - at
    ensures s[at + i..at + j] == s[at..][i..j]
  {
  }

  lemma PortPlace(s: string, at: nat, p: DataDirPair)
    requires at <= |s| && s[at..] == OLD_PORT + "=" + Decimal(p.oldPort) + AfterPort(p)
    ensures MatchesAt(s, at) <==> p.oldPort >= 0
    ensures p.oldPort >= 0 ==> Port(s, at) == Decimal(p.oldPort)
  {
    PortPieces(p);
    PiecesAt(s, at, s[at..], Decimal(p.oldPort));
    if p.oldPort >= 0 { PortRead(s, at, Decimal(p.oldPort)); }
  }

  // The pieces of a suffix, in the whole string.
  lemma PiecesAt(s: string, at: nat, rest: string, d: string)
    requires at <= |s| && s[at..] == rest && d != "" && |OLD_PORT| + 1 + |d| < |rest|
    ensures s[at..at + |OLD_PORT|] == rest[..|OLD_PORT|]
    ensures s[at + |OLD_PORT|] == rest[|OLD_PORT|] && s[at + |OLD_PORT| + 1] == rest[|OLD_PORT| + 1]
    ensures s[at + |OLD_PORT| + 1..at + |OLD_PORT| + 1 + |d|] == rest[|OLD_PORT| + 1..|OLD_PORT| + 1 + |d|]
    ensures s[at + |OLD_PORT| + 1 + |d|] == rest[|OLD_PORT| + 1 + |d|]
  {
    SliceAt(s, at, 0, |OLD_PORT|);
    SliceAt(s, at, |OLD_PORT| + 1, |OLD_PORT| + 1 + |d|);
  }

  lemma PortRead(s: string, at: nat, d: string)
    requires MatchesAt(s, at) && (forall c :: c in d ==> IsDigit(c))
    requires at + |OLD_PORT| + 1 + |d| < |s| && !IsDigit(s[at + |OLD_PORT| + 1 + |d|])
    requires s[at + |OLD_PORT| + 1..at + |OLD_PORT| + 1 + |d|] == d
    ensures Port(s, at) == d
  {
    RunOf(s, at + |OLD_PORT| + 1, d);
  }

  lemma PortPieces(p: DataDirPair)
    ensures var d, n := Decimal(p.oldPort), |OLD_PORT|;
            var rest := OLD_PORT + "=" + d + AfterPort(p);
            && rest[..n] == OLD_PORT && rest[n] == '=' && rest[n + 1..n + 1 + |d|] == d
            && n + 1 + |d| < |rest| && rest[n + 1 + |d|] == ' '
            && rest[n + 1] == d[0] && (IsDigit(d[0]) <==> p.oldPort >= 0)
            && (p.oldPort >= 0 ==> forall c :: c in d ==> IsDigit(c))
  {
    SignShows(p.oldPort);
  }

  // Printing and parsing: for paths that do not contain the option's name, the
  // parser recognises exactly the printed port; a negative one is never found.
  lemma RoundTrip(su: Setup, p: DataDirPair, target: int)
    requires CleanPaths(su, p)
    ensures Names(CommandLine(su, p), target) <==> target == p.oldPort && p.oldPort >= 0
  {
    var s := CommandLine(su, p);
    var at := |BeforePort(su, p)| + 1;
    forall i: nat
      ensures MatchesAt(s, i) <==> i == at && p.oldPort >= 0
      ensures p.oldPort >= 0 && i == at ==> Port(s, i) == Decimal(p.oldPort)
    {
      LineMatches(su, p, i);
    }
    if p.oldPort >= 0 {
      assert LeftmostMatch(s, at);
      if Decimal(target) == Decimal(p.oldPort) { DecimalInjective(target, p.oldPort); }
    }
  }
}

// Whether pg_upgrade has finished, from its *.done files.
module DoneFiles {
  import opened Idl
  import opened Text

  // The files under the pg_upgrade directory at the time of the check: the
  // modification times Stat reports, and what reading them gives. A read that ends
  // with an error gives what came before it.
  datatype Disk = Disk(modTimes: map<string, int>, contents: map<string, string>)

  const COMPLETED_LINE: string := "Upgrade complete"

  // --- the latest file ---------------------------------------------------------

  predicate Known(disk: Disk, f: string) {
    f in disk.modTimes
  }

  // k is the first of the files with the greatest known modification time.
  ghost predicate IsLatest(files: seq<string>, disk: Disk, k: nat) {
    && k < |files| && Known(disk, files[k])
    && (forall j :: 0 <= j < |files| && Known(disk, files[j]) ==> disk.modTimes[files[j]] <= disk.modTimes[files[k]])
    && (forall j :: 0 <= j < k && Known(disk, files[j]) ==> disk.modTimes[files[j]] < disk.modTimes[files[k]])
  }

  lemma LatestUnique(files: seq<string>, disk: Disk, k: nat, m: nat)
    requires IsLatest(files, disk, k) && IsLatest(files, disk, m)
    ensures k == m
  {
  }

  method LatestDoneFile(doneFiles: seq<string>, disk: Disk) returns (k: nat)
    requires doneFiles != [] && Known(disk, doneFiles[0])
    ensures IsLatest(doneFiles, disk, k)
  {
    k := 0;
    var latest := disk.modTimes[doneFiles[0]];
    for i := 1 to |doneFiles|
      invariant IsLatest(doneFiles[..i], disk, k) && latest == disk.modTimes[doneFiles[k]]
    {
      assert doneFiles[..i + 1] == doneFiles[..i] + [doneFiles[i]];
      if !Known(disk, doneFiles[i]) {
        continue;
      }
      if disk.modTimes[doneFiles[i]] > latest {
        k := i;
        latest := disk.modTimes[doneFiles[i]];
      }
    }
    assert doneFiles[..|doneFiles|] == doneFiles;
  }

  // --- the line scanner ----------------------------------------------------------

  // The length of the text up to and including its first newline; 0 if it has none.
  function FirstLine(text: string): (n: nat)
    ensures n <= |text|
    ensures n == 0 <==> '\n' !in text
    ensures n > 0 ==> text[n - 1] == '\n' && '\n' !in text[..n - 1]
  {
    if text == "" then 0
    else if text[0] == '\n' then 1
    else
      var n := FirstLine(text[1..]);
      assert n > 0 ==> text[..n] == [text[0]] + text[1..][..n - 1];
      if n == 0 then 0 else n + 1
  }

  // The text up to and including its last newline.
  function Terminated(text: string): (t: string)
    ensures |t| <= |text| && t == text[..|t|]
    ensures t == "" || t[|t| - 1] == '\n'
    ensures '\n' !in text[|t|..]
  {
    if text == "" then ""
    else if text[|text| - 1] == '\n' then text
    else Terminated(text[..|text| - 1])
  }

  lemma {:induction false} TerminatedAfter(a: string, b: string)
    requires a != "" && a[|a| - 1] == '\n'
    ensures Terminated(a + b) == a + Terminated(b)
  {
    if b == "" {
      assert a + b == a;
    } else if b[|b| - 1] != '\n' {
      assert (a + b)[..|a + b| - 1] == a + b[..|b| - 1];
      TerminatedAfter(a, b[..|b| - 1]);
    }
  }

  lemma NothingTerminated(text: string)
    ensures '\n' !in text ==> Terminated(text) == ""
  {
    var t := Terminated(text);
    if t != "" { assert text[|t| - 1] == '\n'; }
  }

  // A keyword without a newline is in the terminated part of a text exactly
  // when it is in its first line or in the terminated part of the rest.
  lemma LineSplits(line: string, rest: string, k: string)
    requires line != "" && line[|line| - 1] == '\n' && k != "" && '\n' !in k
    ensures Contains(Terminated(line + rest), k) <==> Contains(line, k) || Contains(Terminated(rest), k)
  {
    TerminatedAfter(line, rest);
    NewlineSplits(line, Terminated(rest), k);
  }

  lemma NewlineSplits(line: string, t: string, k: string)
    requires line != "" && line[|line| - 1] == '\n' && k != "" && '\n' !in k
    ensures Contains(line + t, k) <==> Contains(line, k) || Contains(t, k)
  {
    var front := line[..|line| - 1];
    assert line == front + ['\n'] && line == front + ['\n'] + "";
    assert line + t == front + ['\n'] + t;
    ContainsAcross(front, '\n', t, k);
    ContainsAcross(front, '\n', "", k);
    assert !Contains("", k);
  }

  lemma ScanStep(rest: string)
    ensures var n := FirstLine(rest);
            Contains(Terminated(rest), COMPLETED_LINE) <==>
            n != 0 && (Contains(rest[..n], COMPLETED_LINE) || Contains(Terminated(rest[n..]), COMPLETED_LINE))
  {
    var n := FirstLine(rest);
    if n == 0 {
      NothingTerminated(rest);
      assert !Contains("", COMPLETED_LINE);
    } else {
      assert rest == rest[..n] + rest[n..];
      LineSplits(rest[..n], rest[n..], COMPLETED_LINE);
    }
  }

  // Reading lines until one has the keyword or no complete line is left. What
  // follows the last newline is never looked at, and how the read ends does not
  // matter.
  method ScanLines(content: string) returns (found: bool)
    ensures found <==> Contains(Terminated(content), "Upgrade complete")
  {
    var rest := content;
    while true
      invariant Contains(Terminated(content), COMPLETED_LINE) <==> Contains(Terminated(rest), COMPLETED_LINE)
      decreases |rest|
    {
      var n := FirstLine(rest);
      ScanStep(rest);
      if n == 0 {
        return false;
      }
      var line := rest[..n];
      if Contains(line, COMPLETED_LINE) {
        return true;
      }
      rest := rest[n..];
    }
  }

  // The closed form: the first file can be stat'ed, and the latest of the files
  // can be opened and says so in one of its terminated lines.
  ghost predicate LatestSaysComplete(doneFiles: seq<string>, disk: Disk) {
    && doneFiles != [] && Known(disk, doneFiles[0])
    && exists k: nat :: IsLatest(doneFiles, disk, k) && SaysComplete(disk, doneFiles[k])
  }

  ghost predicate SaysComplete(disk: Disk, f: string) {
    f in disk.contents && Contains(Terminated(disk.contents[f]), "Upgrade complete")
  }

  // doneFiles is empty when Glob finds nothing.
  method IsUpgradeComplete(doneFiles: seq<string>, disk: Disk) returns (complete: bool)
    ensures complete <==> LatestSaysComplete(doneFiles, disk)
  {
    if |doneFiles| == 0 {
      return false;
    }
    if !Known(disk, doneFiles[0]) {
      return false;
    }
    var k := LatestDoneFile(doneFiles, disk);
    assert forall m: nat :: IsLatest(doneFiles, disk, m) ==> m == k by {
      forall m: nat | IsLatest(doneFiles, disk, m) ensures m == k { LatestUnique(doneFiles, disk, m, k); }
    }
    var latestDoneFile := doneFiles[k];
    if latestDoneFile !in disk.contents {
      // the failed Open is only logged; reading from no file then fails
      return false;
    }
    complete := ScanLines(disk.contents[latestDoneFile]);
  }

  // --- the status of one conversion -------------------------------------------------

  // notExist: Stat found no directory; running: pgrep printed a pid;
  // inProgressFiles: some *.inprogress file exists.
  method GetStatus(notExist: bool, running: bool, inProgressFiles: bool, doneFiles: seq<string>, disk: Disk)
      returns (status: StepStatus)
    ensures status == PENDING <==> notExist
    ensures status == RUNNING <==> !notExist && running
    ensures status == COMPLETE <==>
              !notExist && !running && !inProgressFiles && LatestSaysComplete(doneFiles, disk)
    ensures status != UNKNOWN_STATUS
  {
    if notExist {
      return PENDING;
    }
    if running {
      return RUNNING;
    }
    if !inProgressFiles {
      var complete := IsUpgradeComplete(doneFiles, disk);
      if complete {
        return COMPLETE;
      }
    }
    return FAILED;
  }

  // Whole lines: nothing, or a text that ends with a newline.
  predicate WholeLines(text: string) {
    text == "" || text[|text| - 1] == '\n'
  }

  lemma TerminatedTail(text: string, tail: string)
    requires WholeLines(text)
    ensures Terminated(text + tail) == text + Terminated(tail)
  {
    if text == "" {
      assert text + tail == tail;
      assert text + Terminated(tail) == Terminated(tail);
    } else {
      TerminatedAfter(text, tail);
    }
  }

  // A last line that is not terminated does not count, whatever it says; once it is
  // terminated it counts like any other. `text` are the lines before it.
  lemma UnterminatedLineIsIgnored(text: string, line: string)
    requires WholeLines(text) && '\n' !in line
    ensures Contains(Terminated(text + line), "Upgrade complete") <==> Contains(text, "Upgrade complete")
    ensures Contains(Terminated(text + (line + "\n")), "Upgrade complete") <==>
            Contains(text, "Upgrade complete") || Contains(line, "Upgrade complete")
  {
    LastLineIgnored(text, line);
    EndedLineCounts(text, line);
  }

  lemma LastLineIgnored(text: string, line: string)
    requires WholeLines(text) && '\n' !in line
    ensures Terminated(text + line) == text
  {
    TerminatedTail(text, line);
    NothingTerminated(line);
    assert text + "" == text;
  }

  lemma EndedLineCounts(text: string, line: string)
    requires WholeLines(text) && '\n' !in line
    ensures Contains(Terminated(text + (line + "\n")), COMPLETED_LINE) <==>
            Contains(text, COMPLETED_LINE) || Contains(line, COMPLETED_LINE)
  {
    var ended := line + "\n";
    TerminatedTail(text, ended);
    assert Terminated(ended) == ended;
    EndedContains(line);
    LinesContain(text, ended);
  }

  lemma LinesContain(text: string, rest: string)
    requires WholeLines(text)
    ensures Contains(text + rest, COMPLETED_LINE) <==> Contains(text, COMPLETED_LINE) || Contains(rest, COMPLETED_LINE)
  {
    if text == "" {
      assert text + rest == rest;
      assert !Contains("", COMPLETED_LINE);
    } else {
      NewlineSplits(text, rest, COMPLETED_LINE);
    }
  }

  lemma EndedContains(line: string)
    ensures Contains(line + "\n", COMPLETED_LINE) <==> Contains(line, COMPLETED_LINE)
  {
    assert line + "\n" == line + ['\n'] + "";
    ContainsAcross(line, '\n', "", COMPLETED_LINE);
    assert !Contains("", COMPLETED_LINE);
  }
}

// The reader side of the marker protocol: one Stat, then one Glob.
module StateCheck {
  import opened Idl
  import opened Markers

  datatype Polled = Polled(status: StepStatus) | TooManyFiles

  function GetStatus(statOk: bool, files: set<File>): Polled {
    if !statOk then Polled(PENDING)
    else if |files| > 1 then TooManyFiles
    else if files == {Failed} then Polled(FAILED)
    else if files == {Completed} then Polled(COMPLETE)
    else if files == {InProgress} then Polled(RUNNING)
    else Polled(PENDING)
  }

  // Which of the two reads went wrong for reasons of its own: Stat may fail on
  // a directory that exists, Glob may come back empty.
  datatype ReadFaults = ReadFaults(stat: bool, glob: bool)

  const NO_FAULTS := ReadFaults(false, false)

  // A poll whose Stat saw `first` and whose Glob saw `second`.
  function Poll(first: Dir, second: Dir, faults: ReadFaults): Polled {
    GetStatus(first.Present? && !faults.stat, if faults.glob then {} else Listing(second))
  }

  // What a poll reports of a directory that does not change under it.
  function StatusOf(d: Dir): Polled {
    Poll(d, d, NO_FAULTS)
  }

  lemma AtMostOneIsSmall(files: set<File>)
    ensures |files| > 1 <==> !AtMostOne(files)
  {
    if files != {} {
      var f :| f in files;
      var rest := files - {f};
      assert files == rest + {f};
      if rest == {} {
        assert forall g :: g in files ==> g == f;
      } else {
        var g :| g in rest;
        assert g in files && g != f;
      }
    }
  }

  // The error answer is given exactly when both reads work and the directory
  // listed holds two files.
  lemma TooManyIff(first: Dir, second: Dir, faults: ReadFaults)
    ensures Poll(first, second, faults).TooManyFiles? <==>
            first.Present? && !faults.stat && !faults.glob && !AtMostOne(Listing(second))
  {
    AtMostOneIsSmall(Listing(second));
  }

  // Every answer of every poll.
  lemma PollIs(first: Dir, second: Dir, faults: ReadFaults)
    ensures var seen := first.Present? && !faults.stat && !faults.glob; var files := Listing(second);
            var answer := Poll(first, second, faults);
            && (answer == Polled(RUNNING) <==> seen && files == {InProgress})
            && (answer == Polled(COMPLETE) <==> seen && files == {Completed})
            && (answer == Polled(FAILED) <==> seen && files == {Failed})
            && (answer == TooManyFiles <==> seen && !AtMostOne(files))
            && (answer == Polled(PENDING) <==>
                  !seen || files == {} || exists name :: files == {Other(name)})
  {
    var files := Listing(second);
    AtMostOneIsSmall(files);
    assert |{InProgress}| == 1 && |{Completed}| == 1 && |{Failed}| == 1;
    if files != {} && |files| <= 1 {
      OnlyFile(files);
    }
    forall name | files == {Other(name)}
      ensures |files| == 1 && files != {InProgress} && files != {Completed} && files != {Failed}
    {
      assert Other(name) in files;
    }
  }

  lemma OnlyFile(files: set<File>)
    requires files != {} && AtMostOne(files)
    ensures exists f :: f in files && files == {f}
  {
    var f :| f in files;
    assert files == {f};
  }

  // Each conclusive answer is given by exactly one content of the directory.
  lemma ConclusiveIff(first: Dir, second: Dir, f: File, st: StepStatus)
    requires (f, st) in {(Failed, FAILED), (Completed, COMPLETE), (InProgress, RUNNING)}
    ensures Poll(first, second, NO_FAULTS) == Polled(st) <==> first.Present? && Listing(second) == {f}
  {
    AtMostOneIsSmall(Listing(second));
    assert |{f}| == 1;
  }
}

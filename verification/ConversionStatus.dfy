// The agent's report on the conversion of its segments: one line of text each.
module ConversionStatus {
  import opened Idl
  import opened Text

  datatype SegmentInfo = SegmentInfo(content: int, dbid: int, dataDir: string)

  datatype Reply = Refused | Statuses(lines: seq<string>)

  // Whether the status of a segment could be told, and what it is.
  datatype Checked = Unknown | Checked(status: StepStatus)

  function StatusName(s: StepStatus): string {
    match s
    case UNKNOWN_STATUS => "UNKNOWN_STATUS"
    case PENDING => "PENDING"
    case RUNNING => "RUNNING"
    case COMPLETE => "COMPLETE"
    case FAILED => "FAILED"
  }

  predicate IsMaster(s: SegmentInfo) {
    s.dbid == 1 && s.content == -1
  }

  function Role(s: SegmentInfo): string {
    if IsMaster(s) then "MASTER" else "PRIMARY"
  }

  // "%s - DBID %d - CONTENT ID %d - %s - %s"
  function Line(status: StepStatus, s: SegmentInfo, hostname: string): string {
    StatusName(status) + " - DBID " + Decimal(s.dbid) + " - CONTENT ID " + Decimal(s.content) + " - " + Role(s) +
        " - " + hostname
  }

  type Checker = SegmentInfo -> Checked

  predicate AllKnown(segments: seq<SegmentInfo>, check: Checker) {
    forall i :: 0 <= i < |segments| ==> check(segments[i]).Checked?
  }

  // The lines of the segments that are not the master, in order.
  function PrimaryLines(segments: seq<SegmentInfo>, hostname: string, check: Checker): seq<string>
    requires AllKnown(segments, check)
  {
    if segments == [] then []
    else
      var n := |segments| - 1;
      PrimaryLines(segments[..n], hostname, check) +
      if IsMaster(segments[n]) then [] else [Line(check(segments[n]).status, segments[n], hostname)]
  }

  // The line of the last master, or the empty string.
  function MasterLine(segments: seq<SegmentInfo>, hostname: string, check: Checker): string
    requires AllKnown(segments, check)
  {
    if segments == [] then ""
    else
      var n := |segments| - 1;
      if IsMaster(segments[n]) then Line(check(segments[n]).status, segments[n], hostname)
      else MasterLine(segments[..n], hostname, check)
  }

  function Report(segments: seq<SegmentInfo>, hostname: string, check: Checker): Reply {
    if segments == [] || !AllKnown(segments, check) then Refused
    else Statuses([MasterLine(segments, hostname, check)] + PrimaryLines(segments, hostname, check))
  }

  lemma ReportExtends(front: seq<SegmentInfo>, last: SegmentInfo, hostname: string, check: Checker)
    requires AllKnown(front, check)
    ensures AllKnown(front + [last], check) <==> check(last).Checked?
    ensures check(last).Checked? ==>
              var line := Line(check(last).status, last, hostname);
              && MasterLine(front + [last], hostname, check) ==
                  (if IsMaster(last) then line else MasterLine(front, hostname, check))
              && PrimaryLines(front + [last], hostname, check) ==
                 PrimaryLines(front, hostname, check) + if IsMaster(last) then [] else [line]
  {
    var all := front + [last];
    assert all[..|front|] == front && all[|front|] == last;
    assert forall i :: 0 <= i < |front| ==> all[i] == front[i];
  }

  // The loop's state after its first n segments.
  ghost predicate SoFar(segments: seq<SegmentInfo>, n: nat, hostname: string, check: Checker,
                           master: string, replies: seq<string>) {
    && n <= |segments| && AllKnown(segments[..n], check)
    && master == MasterLine(segments[..n], hostname, check)
    && replies == PrimaryLines(segments[..n], hostname, check)
  }

  lemma OneMoreChecked(segments: seq<SegmentInfo>, n: nat, hostname: string, check: Checker,
                       master: string, replies: seq<string>)
    requires n < |segments| && SoFar(segments, n, hostname, check, master, replies) && check(segments[n]).Checked?
    ensures var line := Line(check(segments[n]).status, segments[n], hostname);
            if IsMaster(segments[n]) then SoFar(segments, n + 1, hostname, check, line, replies)
            else SoFar(segments, n + 1, hostname, check, master, replies + [line])
  {
    var front, last := segments[..n], segments[n];
    assert front + [last] == segments[..n + 1];
    ReportExtends(front, last, hostname, check);
    SoFarExtends(segments, n, hostname, check, master, replies);
  }

  lemma SoFarExtends(segments: seq<SegmentInfo>, n: nat, hostname: string, check: Checker,
                     master: string, replies: seq<string>)
    requires n < |segments| && SoFar(segments, n, hostname, check, master, replies)
    requires check(segments[n]).Checked? && AllKnown(segments[..n + 1], check)
    requires var line := Line(check(segments[n]).status, segments[n], hostname);
             && MasterLine(segments[..n + 1], hostname, check) == (if IsMaster(segments[n]) then line else master)
             && PrimaryLines(segments[..n + 1], hostname, check) ==
                 replies + if IsMaster(segments[n]) then [] else [line]
    ensures var line := Line(check(segments[n]).status, segments[n], hostname);
            if IsMaster(segments[n]) then SoFar(segments, n + 1, hostname, check, line, replies)
            else SoFar(segments, n + 1, hostname, check, master, replies + [line])
  {
    assert replies + [] == replies;
  }

  // --- the reply, written out ------------------------------------------------------

  // line is the text for s: its status, dbid, content id, role and host.
  ghost predicate Printed(line: string, s: SegmentInfo, role: string, hostname: string, check: Checker) {
    && check(s).Checked?
    && exists status: string ::
         && Spells(status, check(s).status)
         && line == status + " - DBID " + Decimal(s.dbid) + " - CONTENT ID " + Decimal(s.content) + " - " + role +
                    " - " + hostname
  }

  predicate Spells(text: string, status: StepStatus) {
    match status
    case UNKNOWN_STATUS => text == "UNKNOWN_STATUS"
    case PENDING => text == "PENDING"
    case RUNNING => text == "RUNNING"
    case COMPLETE => text == "COMPLETE"
    case FAILED => text == "FAILED"
  }

  // places are those of all segments but the masters, in order. A master has dbid 1
  // and content id -1.
  ghost predicate OtherPlaces(places: seq<nat>, segments: seq<SegmentInfo>) {
    && (forall k, m :: 0 <= k < m < |places| ==> places[k] < places[m])
    && (forall k :: 0 <= k < |places| ==> places[k] < |segments|)
    && (forall i: nat :: i < |segments| ==> (i in places <==> !(segments[i].dbid == 1 && segments[i].content == -1)))
  }

  ghost predicate LastMasterAt(segments: seq<SegmentInfo>, i: nat) {
    && i < |segments| && segments[i].dbid == 1 && segments[i].content == -1
    && forall j :: i < j < |segments| ==> !(segments[j].dbid == 1 && segments[j].content == -1)
  }

  // The line of the last master, or nothing when there is none.
  ghost predicate PrintsMaster(line: string, segments: seq<SegmentInfo>, hostname: string, check: Checker) {
    if exists i: nat :: LastMasterAt(segments, i)
    then exists i: nat :: LastMasterAt(segments, i) && Printed(line, segments[i], "MASTER", hostname, check)
    else line == ""
  }

  // One line for each of the other segments, in order.
  ghost predicate PrintsOthers(lines: seq<string>, places: seq<nat>, segments: seq<SegmentInfo>, hostname: string,
                               check: Checker) {
    && OtherPlaces(places, segments) && |lines| == |places|
    && forall k :: 0 <= k < |places| ==> Printed(lines[k], segments[places[k]], "PRIMARY", hostname, check)
  }

  ghost predicate WrittenOut(lines: seq<string>, segments: seq<SegmentInfo>, hostname: string, check: Checker) {
    && lines != [] && PrintsMaster(lines[0], segments, hostname, check)
    && exists places: seq<nat> :: PrintsOthers(lines[1..], places, segments, hostname, check)
  }

  lemma LinePrinted(s: SegmentInfo, hostname: string, check: Checker)
    requires check(s).Checked?
    ensures Printed(Line(check(s).status, s, hostname), s,
                    if s.dbid == 1 && s.content == -1 then "MASTER" else "PRIMARY", hostname, check)
  {
    assert Spells(StatusName(check(s).status), check(s).status);
  }

  lemma {:induction false} MasterPrinted(segments: seq<SegmentInfo>, hostname: string, check: Checker)
    requires AllKnown(segments, check)
    ensures PrintsMaster(MasterLine(segments, hostname, check), segments, hostname, check)
  {
    if segments != [] {
      var n := |segments| - 1;
      if segments[n].dbid == 1 && segments[n].content == -1 {
        LinePrinted(segments[n], hostname, check);
        assert LastMasterAt(segments, n);
      } else {
        MasterPrinted(segments[..n], hostname, check);
        MasterBefore(MasterLine(segments[..n], hostname, check), segments, hostname, check);
      }
    }
  }

  lemma MasterBefore(line: string, segments: seq<SegmentInfo>, hostname: string, check: Checker)
    requires segments != [] && PrintsMaster(line, segments[..|segments| - 1], hostname, check)
    requires !(segments[|segments| - 1].dbid == 1 && segments[|segments| - 1].content == -1)
    ensures PrintsMaster(line, segments, hostname, check)
  {
    var front := segments[..|segments| - 1];
    forall i: nat ensures LastMasterAt(segments, i) <==> LastMasterAt(front, i) {
      SameMaster(segments, i);
    }
    if exists i: nat :: LastMasterAt(front, i) {
      var i: nat :| LastMasterAt(front, i) && Printed(line, front[i], "MASTER", hostname, check);
      assert front[i] == segments[i];
    }
  }

  lemma SameMaster(segments: seq<SegmentInfo>, i: nat)
    requires segments != []
    requires !(segments[|segments| - 1].dbid == 1 && segments[|segments| - 1].content == -1)
    ensures LastMasterAt(segments, i) <==> LastMasterAt(segments[..|segments| - 1], i)
  {
    var front := segments[..|segments| - 1];
    assert forall j :: 0 <= j < |front| ==> front[j] == segments[j];
  }

  lemma {:induction false} OthersPrinted(segments: seq<SegmentInfo>, hostname: string, check: Checker)
      returns (places: seq<nat>)
    requires AllKnown(segments, check)
    ensures PrintsOthers(PrimaryLines(segments, hostname, check), places, segments, hostname, check)
  {
    if segments == [] {
      places := [];
    } else {
      var n := |segments| - 1;
      places := OthersPrinted(segments[..n], hostname, check);
      LinePrinted(segments[n], hostname, check);
      var lines := PrimaryLines(segments[..n], hostname, check);
      if segments[n].dbid == 1 && segments[n].content == -1 {
        MasterNotAmongOthers(segments, places);
        assert lines + [] == lines;
      } else {
        OneMoreOther(segments, places);
        OneMorePrinted(segments, hostname, check, lines, places,
                       Line(check(segments[n]).status, segments[n], hostname));
        places := places + [n];
      }
    }
  }

  lemma MasterNotAmongOthers(segments: seq<SegmentInfo>, places: seq<nat>)
    requires segments != [] && OtherPlaces(places, segments[..|segments| - 1])
    requires segments[|segments| - 1].dbid == 1 && segments[|segments| - 1].content == -1
    ensures OtherPlaces(places, segments)
  {
    SamePlaces(segments, places);
  }

  lemma OneMoreOther(segments: seq<SegmentInfo>, places: seq<nat>)
    requires segments != [] && OtherPlaces(places, segments[..|segments| - 1])
    requires !(segments[|segments| - 1].dbid == 1 && segments[|segments| - 1].content == -1)
    ensures OtherPlaces(places + [|segments| - 1], segments)
  {
    SamePlaces(segments, places);
    var n := |segments| - 1;
    forall i: nat | i < |segments|
      ensures i in places + [n] <==> !(segments[i].dbid == 1 && segments[i].content == -1)
    {
      assert i in places + [n] <==> i in places || i == n;
    }
  }

  lemma SamePlaces(segments: seq<SegmentInfo>, places: seq<nat>)
    requires segments != [] && OtherPlaces(places, segments[..|segments| - 1])
    ensures forall i: nat :: i < |segments| - 1 ==>
              (i in places <==> !(segments[i].dbid == 1 && segments[i].content == -1))
    ensures |segments| - 1 !in places
  {
    var front := segments[..|segments| - 1];
    assert forall i :: 0 <= i < |front| ==> front[i] == segments[i];
  }

  lemma OneMorePrinted(segments: seq<SegmentInfo>, hostname: string, check: Checker, lines: seq<string>,
                       places: seq<nat>, line: string)
    requires segments != [] && PrintsOthers(lines, places, segments[..|segments| - 1], hostname, check)
    requires OtherPlaces(places + [|segments| - 1], segments)
    requires Printed(line, segments[|segments| - 1], "PRIMARY", hostname, check)
    ensures PrintsOthers(lines + [line], places + [|segments| - 1], segments, hostname, check)
  {
    var front := segments[..|segments| - 1];
    assert forall i :: 0 <= i < |front| ==> front[i] == segments[i];
  }

  lemma ReportWrittenOut(segments: seq<SegmentInfo>, hostname: string, check: Checker)
    requires Report(segments, hostname, check).Statuses?
    ensures WrittenOut(Report(segments, hostname, check).lines, segments, hostname, check)
  {
    MasterPrinted(segments, hostname, check);
    var places := OthersPrinted(segments, hostname, check);
    assert Report(segments, hostname, check).lines[1..] == PrimaryLines(segments, hostname, check);
  }

  method CheckConversionStatus(segments: seq<SegmentInfo>, hostname: string, check: Checker) returns (reply: Reply)
    ensures reply == Report(segments, hostname, check)
    ensures reply.Refused? <==> segments == [] || exists s :: s in segments && check(s).Unknown?
    ensures reply.Statuses? ==> WrittenOut(reply.lines, segments, hostname, check)
  {
    if AllKnown(segments, check) && segments != [] { ReportWrittenOut(segments, hostname, check); }
    if |segments| == 0 {
      return Refused;
    }
    var replies: seq<string> := [];
    var master := "";
    for i := 0 to |segments|
      invariant SoFar(segments, i, hostname, check, master, replies)
    {
      var segment := segments[i];
      var status := check(segment);
      if status.Unknown? {
        assert !AllKnown(segments, check);
        return Refused;
      }
      OneMoreChecked(segments, i, hostname, check, master, replies);
      if segment.dbid == 1 && segment.content == -1 {
        master := Line(status.status, segment, hostname);
      } else {
        replies := replies + [Line(status.status, segment, hostname)];
      }
    }
    assert segments[..|segments|] == segments;
    replies := [master] + replies;
    return Statuses(replies);
  }

  function CountPrimaries(segments: seq<SegmentInfo>): nat {
    if segments == [] then 0
    else CountPrimaries(segments[..|segments| - 1]) + if IsMaster(segments[|segments| - 1]) then 0 else 1
  }

  // A reply has one line for the master, possibly empty, and one for each of
  // the other segments.
  lemma {:induction false} ReplyLength(segments: seq<SegmentInfo>, hostname: string, check: Checker)
    requires AllKnown(segments, check)
    ensures |PrimaryLines(segments, hostname, check)| == CountPrimaries(segments)
    ensures segments != [] ==> Report(segments, hostname, check).Statuses? &&
                               |Report(segments, hostname, check).lines| == 1 + CountPrimaries(segments)
  {
    if segments != [] {
      ReplyLength(segments[..|segments| - 1], hostname, check);
    }
  }

  // --- keywords ------------------------------------------------------------------

  // A character of the keyword that nothing else in a line contains.
  function Telltale(k: StepStatus): char {
    match k case FAILED => 'F' case RUNNING => 'U' case _ => 'L'
  }

  predicate IsKeyword(k: StepStatus) {
    k == FAILED || k == RUNNING || k == COMPLETE
  }

  predicate Clean(hostname: string) {
    !Contains(hostname, "FAILED") && !Contains(hostname, "RUNNING") && !Contains(hostname, "COMPLETE")
  }

  lemma NameContains(status: StepStatus, k: StepStatus)
    requires IsKeyword(k)
    ensures Contains(StatusName(status), StatusName(k)) <==> status == k
  {
    if status == k {
      ContainsItself(StatusName(k));
    } else {
      match k
      case FAILED => NameLacksFailed(status);
      case RUNNING => NameLacksRunning(status);
      case COMPLETE => NameLacksComplete(status);
    }
  }

  lemma NameLacksFailed(status: StepStatus)
    requires status != FAILED
    ensures !Contains(StatusName(status), "FAILED")
  {
    LacksChar(StatusName(status), "FAILED", 'F');
  }

  lemma NameLacksRunning(status: StepStatus)
    requires status != RUNNING
    ensures !Contains(StatusName(status), "RUNNING")
  {
    LacksChar(StatusName(status), "RUNNING", 'R');
  }

  lemma NameLacksComplete(status: StepStatus)
    requires status != COMPLETE
    ensures !Contains(StatusName(status), "COMPLETE")
  {
    LacksChar(StatusName(status), "COMPLETE", 'C');
  }

  lemma PieceLacks(s: SegmentInfo, k: StepStatus)
    requires IsKeyword(k)
    ensures !Contains(Decimal(s.dbid), StatusName(k)) && !Contains(Decimal(s.content), StatusName(k))
    ensures !Contains(Role(s), StatusName(k))
  {
    var c := Telltale(k);
    LacksChar(Decimal(s.dbid), StatusName(k), c);
    LacksChar(Decimal(s.content), StatusName(k), c);
    LacksChar(Role(s), StatusName(k), c);
  }

  // A line contains a status keyword exactly when it reports that status or the
  // hostname contains it: none comes from the other fields or from where two
  // fields meet.
  lemma LineContains(status: StepStatus, s: SegmentInfo, hostname: string, k: StepStatus)
    requires IsKeyword(k)
    ensures Contains(Line(status, s, hostname), StatusName(k)) <==> status == k || Contains(hostname, StatusName(k))
  {
    IdsContain(status, s, k);
    var ids := StatusName(status) + " - DBID " + Decimal(s.dbid) + " - CONTENT ID " + Decimal(s.content);
    RoleAndHostContain(ids, Role(s), hostname, k);
    assert Line(status, s, hostname) == ids + " - " + Role(s) + " - " + hostname;
  }

  lemma RoleAndHostContain(ids: string, role: string, hostname: string, k: StepStatus)
    requires IsKeyword(k) && (role == "MASTER" || role == "PRIMARY")
    ensures Contains(ids + " - " + role + " - " + hostname, StatusName(k)) <==>
            Contains(ids, StatusName(k)) || Contains(hostname, StatusName(k))
  {
    LacksChar(role, StatusName(k), Telltale(k));
    ContainsThrough(ids, " - ", role, StatusName(k), Telltale(k));
    ContainsThrough(ids + " - " + role, " - ", hostname, StatusName(k), Telltale(k));
  }

  lemma IdsContain(status: StepStatus, s: SegmentInfo, k: StepStatus)
    requires IsKeyword(k)
    ensures var ids := StatusName(status) + " - DBID " + Decimal(s.dbid) + " - CONTENT ID " + Decimal(s.content);
            Contains(ids, StatusName(k)) <==> status == k
  {
    var name, c := StatusName(k), Telltale(k);
    PieceLacks(s, k);
    NameContains(status, k);
    ContainsThrough(StatusName(status), " - DBID ", Decimal(s.dbid), name, c);
    ContainsThrough(StatusName(status) + " - DBID " + Decimal(s.dbid), " - CONTENT ID ", Decimal(s.content), name, c);
  }

  // --- the keywords of a reply ---------------------------------------------------

  ghost predicate SomeLine(lines: seq<string>, k: StepStatus) {
    exists l :: l in lines && Contains(l, StatusName(k))
  }

  // Segment i has a line in the reply: it is not a master, or it is the last one.
  ghost predicate Told(segments: seq<SegmentInfo>, i: nat) {
    && i < |segments|
    && (IsMaster(segments[i]) ==> forall j :: i < j < |segments| ==> !IsMaster(segments[j]))
  }

  ghost predicate Shows(s: SegmentInfo, hostname: string, check: Checker, k: StepStatus) {
    check(s) == Checked(k) || Contains(hostname, StatusName(k))
  }

  ghost predicate PrimaryShows(segments: seq<SegmentInfo>, hostname: string, check: Checker, k: StepStatus) {
    exists i: nat :: i < |segments| && !IsMaster(segments[i]) && Shows(segments[i], hostname, check, k)
  }

  ghost predicate MasterShows(segments: seq<SegmentInfo>, hostname: string, check: Checker, k: StepStatus) {
    exists i: nat :: Told(segments, i) && IsMaster(segments[i]) && Shows(segments[i], hostname, check, k)
  }

  ghost predicate SomeTold(segments: seq<SegmentInfo>, hostname: string, check: Checker, k: StepStatus) {
    exists i: nat :: Told(segments, i) && Shows(segments[i], hostname, check, k)
  }

  lemma {:induction false} PrimaryKeywords(segments: seq<SegmentInfo>, hostname: string, check: Checker, k: StepStatus)
    requires AllKnown(segments, check) && IsKeyword(k)
    ensures SomeLine(PrimaryLines(segments, hostname, check), k) <==> PrimaryShows(segments, hostname, check, k)
  {
    if segments != [] {
      var n := |segments| - 1;
      var front, last := segments[..n], segments[n];
      PrimaryKeywords(front, hostname, check, k);
      LineContains(check(last).status, last, hostname, k);
      LineAdded(PrimaryLines(front, hostname, check), Line(check(last).status, last, hostname), k);
      PrimaryAdded(segments, hostname, check, k);
    }
  }

  lemma LineAdded(lines: seq<string>, line: string, k: StepStatus)
    ensures SomeLine(lines + [line], k) <==> SomeLine(lines, k) || Contains(line, StatusName(k))
    ensures SomeLine([line] + lines, k) <==> SomeLine(lines, k) || Contains(line, StatusName(k))
    ensures lines + [] == lines
  {
    assert forall l :: l in lines + [line] <==> l in lines || l == line;
    assert forall l :: l in [line] + lines <==> l in lines || l == line;
  }

  lemma PrimaryAdded(segments: seq<SegmentInfo>, hostname: string, check: Checker, k: StepStatus)
    requires segments != []
    ensures var n := |segments| - 1;
            PrimaryShows(segments, hostname, check, k) <==>
            || PrimaryShows(segments[..n], hostname, check, k)
            || (!IsMaster(segments[n]) && Shows(segments[n], hostname, check, k))
  {
    var n := |segments| - 1;
    if PrimaryShows(segments[..n], hostname, check, k) {
      var i: nat :| i < n && !IsMaster(segments[..n][i]) && Shows(segments[..n][i], hostname, check, k);
      assert segments[i] == segments[..n][i];
    }
    if PrimaryShows(segments, hostname, check, k) {
      var i: nat :| i <= n && !IsMaster(segments[i]) && Shows(segments[i], hostname, check, k);
      assert i < n ==> segments[..n][i] == segments[i];
    }
  }

  lemma {:induction false} MasterKeywords(segments: seq<SegmentInfo>, hostname: string, check: Checker, k: StepStatus)
    requires AllKnown(segments, check) && IsKeyword(k)
    ensures Contains(MasterLine(segments, hostname, check), StatusName(k)) <==>
            MasterShows(segments, hostname, check, k)
  {
    if segments == [] {
      assert !Contains("", StatusName(k));
    } else {
      var n := |segments| - 1;
      MasterAdded(segments, hostname, check, k);
      if IsMaster(segments[n]) {
        LineContains(check(segments[n]).status, segments[n], hostname, k);
      } else {
        MasterKeywords(segments[..n], hostname, check, k);
      }
    }
  }

  // A segment that is not a master leaves what is told of those before it.
  lemma ToldBefore(segments: seq<SegmentInfo>, i: nat)
    requires i < |segments| - 1 && !IsMaster(segments[|segments| - 1])
    ensures Told(segments, i) <==> Told(segments[..|segments| - 1], i)
  {
    var front := segments[..|segments| - 1];
    assert forall j :: 0 <= j < |front| ==> front[j] == segments[j];
  }

  lemma MasterAdded(segments: seq<SegmentInfo>, hostname: string, check: Checker, k: StepStatus)
    requires segments != []
    ensures var n := |segments| - 1;
            MasterShows(segments, hostname, check, k) <==>
            if IsMaster(segments[n]) then Shows(segments[n], hostname, check, k)
            else MasterShows(segments[..n], hostname, check, k)
  {
    if IsMaster(segments[|segments| - 1]) {
      assert Told(segments, |segments| - 1);
    } else {
      EarlierMasterShows(segments, hostname, check, k);
      MasterStillShows(segments, hostname, check, k);
    }
  }

  lemma EarlierMasterShows(segments: seq<SegmentInfo>, hostname: string, check: Checker, k: StepStatus)
    requires segments != [] && !IsMaster(segments[|segments| - 1])
    ensures MasterShows(segments, hostname, check, k) ==>
            MasterShows(segments[..|segments| - 1], hostname, check, k)
  {
    if MasterShows(segments, hostname, check, k) {
      var i: nat :| Told(segments, i) && IsMaster(segments[i]) && Shows(segments[i], hostname, check, k);
      ToldBefore(segments, i);
    }
  }

  lemma MasterStillShows(segments: seq<SegmentInfo>, hostname: string, check: Checker, k: StepStatus)
    requires segments != [] && !IsMaster(segments[|segments| - 1])
    ensures MasterShows(segments[..|segments| - 1], hostname, check, k) ==>
            MasterShows(segments, hostname, check, k)
  {
    var front := segments[..|segments| - 1];
    if MasterShows(front, hostname, check, k) {
      var i: nat :| Told(front, i) && IsMaster(front[i]) && Shows(front[i], hostname, check, k);
      ToldBefore(segments, i);
    }
  }

  // A reply contains a status keyword exactly when a segment that has a line in it
  // has that status, or the hostname contains the keyword.
  lemma ReplyKeywordsExact(segments: seq<SegmentInfo>, hostname: string, check: Checker, k: StepStatus)
    requires AllKnown(segments, check) && IsKeyword(k)
    ensures SomeLine([MasterLine(segments, hostname, check)] + PrimaryLines(segments, hostname, check), k) <==>
            SomeTold(segments, hostname, check, k)
  {
    LineAdded(PrimaryLines(segments, hostname, check), MasterLine(segments, hostname, check), k);
    PrimaryKeywords(segments, hostname, check, k);
    MasterKeywords(segments, hostname, check, k);
    TellsByRole(segments, hostname, check, k);
  }

  lemma TellsByRole(segments: seq<SegmentInfo>, hostname: string, check: Checker, k: StepStatus)
    ensures SomeTold(segments, hostname, check, k) <==>
            PrimaryShows(segments, hostname, check, k) || MasterShows(segments, hostname, check, k)
  {
    if PrimaryShows(segments, hostname, check, k) {
      var i: nat :| i < |segments| && !IsMaster(segments[i]) && Shows(segments[i], hostname, check, k);
      assert Told(segments, i);
    }
  }

  // With one master and a hostname free of keywords: exactly when some segment has
  // that status.
  ghost predicate SomeSegment(segments: seq<SegmentInfo>, check: Checker, k: StepStatus) {
    exists i :: 0 <= i < |segments| && check(segments[i]) == Checked(k)
  }

  predicate OneMaster(segments: seq<SegmentInfo>) {
    forall i, j :: 0 <= i < j < |segments| ==> !(IsMaster(segments[i]) && IsMaster(segments[j]))
  }

  lemma ReplyKeywords(segments: seq<SegmentInfo>, hostname: string, check: Checker, k: StepStatus)
    requires AllKnown(segments, check) && OneMaster(segments)
    requires IsKeyword(k) && Clean(hostname)
    ensures SomeLine([MasterLine(segments, hostname, check)] + PrimaryLines(segments, hostname, check), k) <==>
            SomeSegment(segments, check, k)
  {
    ReplyKeywordsExact(segments, hostname, check, k);
    AllTold(segments, hostname, check, k);
  }

  lemma AllTold(segments: seq<SegmentInfo>, hostname: string, check: Checker, k: StepStatus)
    requires OneMaster(segments) && IsKeyword(k) && Clean(hostname)
    ensures SomeTold(segments, hostname, check, k) <==> SomeSegment(segments, check, k)
  {
    if SomeSegment(segments, check, k) {
      var i: nat :| i < |segments| && check(segments[i]) == Checked(k);
      assert Told(segments, i);
    }
  }
}

// The configuration reader: a file location fixed by the first call that names
// one, and a configuration loaded when a getter first needs it.
module ConfigReader {
  import opened Config

  // Which file the reader reads: none yet, cluster_config.json or
  // new_cluster_config.json under a base directory.
  datatype Location = NoFile | OldConfig(base: string) | NewConfig(base: string)

  // What reading and parsing the file gives at a moment.
  datatype Contents = Unreadable | Parsed(segConfig: SegmentConfiguration, binDir: string)

  datatype State = State(config: SegmentConfiguration, binDir: string, fileLocation: Location,
                         isInitialized: bool, filesRead: seq<Location>)

  const FRESH := State([], "", NoFile, false, [])

  datatype Call = OfOld(base: string) | OfNew(base: string) | ReadFile(disk: Contents) | Getter(disk: Contents)

  function Locate(st: State, l: Location): State {
    if st.isInitialized then st else st.(fileLocation := l, config := [], isInitialized := true)
  }

  datatype Loaded = Loaded(ok: bool, st: State)

  function Load(st: State, disk: Contents): Loaded {
    if st.fileLocation.NoFile? then Loaded(false, st)
    else
      var st' := st.(filesRead := st.filesRead + [st.fileLocation]);
      match disk
      case Unreadable => Loaded(false, st')
      case Parsed(segments, binDir) => Loaded(true, st'.(config := segments, binDir := binDir))
  }

  function LoadIfEmpty(st: State, disk: Contents): Loaded {
    if |st.config| == 0 then Load(st, disk) else Loaded(true, st)
  }

  function After(st: State, c: Call): State {
    match c
    case OfOld(base) => Locate(st, OldConfig(base))
    case OfNew(base) => Locate(st, NewConfig(base))
    case ReadFile(disk) => Load(st, disk).st
    case Getter(disk) => LoadIfEmpty(st, disk).st
  }

  function Replay(st: State, calls: seq<Call>): State {
    if calls == [] then st else After(Replay(st, calls[..|calls| - 1]), calls[|calls| - 1])
  }

  // The file named by the first OfOld or OfNew of a history.
  function FirstNamed(calls: seq<Call>): Location {
    if calls == [] then NoFile
    else if calls[0].OfOld? then OldConfig(calls[0].base)
    else if calls[0].OfNew? then NewConfig(calls[0].base)
    else FirstNamed(calls[1..])
  }

  lemma {:induction false} FirstNamedExtends(calls: seq<Call>, c: Call)
    ensures FirstNamed(calls + [c]) ==
            if !FirstNamed(calls).NoFile? then FirstNamed(calls)
            else match c case OfOld(base) => OldConfig(base) case OfNew(base) => NewConfig(base) case _ => NoFile
  {
    if calls != [] {
      assert (calls + [c])[1..] == calls[1..] + [c];
      FirstNamedExtends(calls[1..], c);
    } else {
      assert FirstNamed([c][1..]) == NoFile;
    }
  }

  // Over every history of one reader, the first call that names a file decides
  // the file for good: it is the only one ever read.
  lemma {:induction false} LocationIsSticky(calls: seq<Call>)
    ensures var st := Replay(FRESH, calls);
            && st.fileLocation == FirstNamed(calls)
            && (st.isInitialized <==> !FirstNamed(calls).NoFile?)
            && (forall l :: l in st.filesRead ==> l == FirstNamed(calls) && !l.NoFile?)
  {
    if calls != [] {
      var front, c := calls[..|calls| - 1], calls[|calls| - 1];
      LocationIsSticky(front);
      FirstNamedExtends(front, c);
      assert calls == front + [c];
    }
  }

  // The hub names the old file when it is created. Its reader then never reads
  // the new one, whatever is asked of it later.
  lemma HubReadsOldFileOnly(base: string, calls: seq<Call>)
    ensures var st := Replay(FRESH, [OfOld(base)] + calls);
            st.fileLocation == OldConfig(base) && forall l :: l in st.filesRead ==> l == OldConfig(base)
  {
    LocationIsSticky([OfOld(base)] + calls);
  }

  // Once a configuration with segments is loaded, nothing but an explicit Read
  // touches the reader: no call re-reads the file or changes what it answers.
  lemma {:induction false} LoadedConfigStays(calls: seq<Call>, more: seq<Call>)
    requires Replay(FRESH, calls).config != []
    requires forall c :: c in more ==> !c.ReadFile?
    ensures Replay(Replay(FRESH, calls), more) == Replay(FRESH, calls)
  {
    LocationIsSticky(calls);
    ConfigNeedsLocation(calls);
    if more != [] {
      LoadedConfigStays(calls, more[..|more| - 1]);
    }
  }

  lemma {:induction false} ConfigNeedsLocation(calls: seq<Call>)
    ensures Replay(FRESH, calls).config != [] ==> Replay(FRESH, calls).isInitialized
  {
    if calls != [] {
      ConfigNeedsLocation(calls[..|calls| - 1]);
      LocationIsSticky(calls[..|calls| - 1]);
    }
  }

  // A configuration with segments is what the last successful read gave.
  lemma {:induction false} ConfigIsLastRead(calls: seq<Call>) returns (k: nat)
    requires Replay(FRESH, calls).config != []
    ensures k < |calls| && (calls[k].ReadFile? || calls[k].Getter?) && calls[k].disk.Parsed?
    ensures Replay(FRESH, calls).config == calls[k].disk.segConfig &&
            Replay(FRESH, calls).binDir == calls[k].disk.binDir
    ensures forall m :: k < m < |calls| ==> !(calls[m].ReadFile? && calls[m].disk.Parsed?)
  {
    var n := |calls| - 1;
    var before := Replay(FRESH, calls[..n]);
    ConfigNeedsLocation(calls[..n]);
    LocationIsSticky(calls[..n]);
    if before.config != [] && !(calls[n].ReadFile? && calls[n].disk.Parsed?) {
      k := ConfigIsLastRead(calls[..n]);
    } else {
      k := n;
    }
  }

  // And every read of a file that is named and can be parsed is taken.
  lemma ReadIsTaken(calls: seq<Call>, disk: Contents)
    requires !FirstNamed(calls).NoFile? && disk.Parsed?
    ensures Replay(FRESH, calls + [ReadFile(disk)]).config == disk.segConfig
    ensures Replay(FRESH, calls).config == [] ==> Replay(FRESH, calls + [Getter(disk)]).config == disk.segConfig
  {
    LocationIsSticky(calls);
    assert (calls + [ReadFile(disk)])[..|calls|] == calls && (calls + [Getter(disk)])[..|calls|] == calls;
  }

  datatype Hostnames = Unavailable | Hostnames(names: seq<string>)

  // `disk` is what the file would give if it were read during the call.
  class Reader {
    var config: SegmentConfiguration
    var binDir: string
    var fileLocation: Location
    var isInitialized: bool
    ghost var filesRead: seq<Location>

    constructor ()
      ensures Now() == FRESH
    {
      config, binDir, fileLocation, isInitialized, filesRead := [], "", NoFile, false, [];
    }

    ghost function Now(): State
      reads this
    {
      State(config, binDir, fileLocation, isInitialized, filesRead)
    }

    method OfOldClusterConfig(base: string)
      modifies this
      ensures Now() == After(old(Now()), OfOld(base))
      ensures old(isInitialized) ==> Now() == old(Now())
      ensures !old(isInitialized) ==> isInitialized && fileLocation == OldConfig(base) && config == []
    {
      if isInitialized {
        return;
      }
      fileLocation := OldConfig(base);
      config := [];
      isInitialized := true;
    }

    method OfNewClusterConfig(base: string)
      modifies this
      ensures Now() == After(old(Now()), OfNew(base))
      ensures old(isInitialized) ==> Now() == old(Now())
      ensures !old(isInitialized) ==> isInitialized && fileLocation == NewConfig(base) && config == []
    {
      if isInitialized {
        return;
      }
      fileLocation := NewConfig(base);
      config := [];
      isInitialized := true;
    }

    method Read(disk: Contents) returns (ok: bool)
      modifies this
      ensures Loaded(ok, Now()) == Load(old(Now()), disk)
      ensures ok <==> !fileLocation.NoFile? && disk.Parsed?
      ensures ok ==> config == disk.segConfig && binDir == disk.binDir
      ensures !ok ==> config == old(config) && binDir == old(binDir)
      ensures fileLocation == old(fileLocation) && isInitialized == old(isInitialized)
    {
      if fileLocation.NoFile? {
        return false;
      }
      filesRead := filesRead + [fileLocation];
      match disk
      case Unreadable => return false;
      case Parsed(segments, dir) =>
        config := segments;
        binDir := dir;
        return true;
    }

    // What a getter answers from: the configuration, or if that is empty what the
    // file gives; ok says whether there was something to answer from.
    ghost predicate Serves(before: SegmentConfiguration, disk: Contents, ok: bool)
      reads this
    {
      && (before != [] ==> ok && config == before)
      && (before == [] && !fileLocation.NoFile? && disk.Parsed? ==> ok && config == disk.segConfig)
      && (before == [] && (fileLocation.NoFile? || disk.Unreadable?) ==> !ok && config == [])
    }

    // The port of the first segment with the given dbid; -1 when the
    // configuration cannot be loaded or has no such segment.
    method GetPortForSegment(segmentDbid: int, disk: Contents) returns (port: int)
      modifies this
      ensures Now() == After(old(Now()), Getter(disk))
      ensures Serves(old(config), disk, true) || (Serves(old(config), disk, false) && port == -1)
      ensures if exists s :: s in config && s.dbid == segmentDbid
              then exists i :: 0 <= i < |config| && config[i].dbid == segmentDbid && config[i].port == port &&
                               forall j :: 0 <= j < i ==> config[j].dbid != segmentDbid
              else port == -1
    {
      port := -1;
      if |config| == 0 {
        var ok := Read(disk);
        if !ok {
          return;
        }
      }
      for i := 0 to |config|
        invariant port == -1 && forall j :: 0 <= j < i ==> config[j].dbid != segmentDbid
      {
        if config[i].dbid == segmentDbid {
          return config[i].port;
        }
      }
    }

    // Each host once; the order is that of a map iteration, so any.
    method GetHostnames(disk: Contents) returns (r: Hostnames)
      modifies this
      ensures Now() == After(old(Now()), Getter(disk))
      ensures Serves(old(config), disk, r.Hostnames?)
      ensures r.Hostnames? ==> HostList(r.names, config)
    {
      if |config| == 0 {
        var ok := Read(disk);
        if !ok {
          return Unavailable;
        }
      }
      var seen: set<string> := {};
      for i := 0 to |config|
        invariant forall h :: h in seen <==> exists j :: 0 <= j < i && config[j].hostname == h
      {
        if config[i].hostname !in seen {
          seen := seen + {config[i].hostname};
        }
      }
      ghost var all := seen;
      var names := [];
      while seen != {}
        invariant NoDuplicates(names) && seen <= all
        invariant forall h :: h in all <==> h in seen || h in names
        invariant forall h :: h in names ==> h !in seen
        decreases seen
      {
        var k :| k in seen;
        names := names + [k];
        seen := seen - {k};
      }
      r := Hostnames(names);
    }

    method GetSegmentConfiguration(disk: Contents) returns (segments: SegmentConfiguration)
      modifies this
      ensures Now() == After(old(Now()), Getter(disk))
      ensures Serves(old(config), disk, true) || Serves(old(config), disk, false)
      ensures segments == config
    {
      if |config| == 0 {
        var ok := Read(disk);
        if !ok {
          return [];
        }
      }
      return config;
    }

    // The directory of the first segment with content -1, or nothing.
    method GetMasterDataDir(disk: Contents) returns (dir: string)
      modifies this
      ensures Now() == After(old(Now()), Getter(disk))
      ensures Serves(old(config), disk, true) || Serves(old(config), disk, false)
      ensures if exists s :: s in config && s.content == -1
              then exists i :: 0 <= i < |config| && config[i].content == -1 && config[i].datadir == dir &&
                               forall j :: 0 <= j < i ==> config[j].content != -1
              else dir == ""
    {
      var segments := GetSegmentConfiguration(disk);
      for i := 0 to |segments|
        invariant forall j :: 0 <= j < i ==> segments[j].content != -1
      {
        if segments[i].content == -1 {
          return segments[i].datadir;
        }
      }
      return "";
    }
  }
}

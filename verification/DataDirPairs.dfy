// Pairing the old and the new primary of each content id, grouped by host.
module DataDirPairs {
  import opened Config

  datatype DataDirPair = DataDirPair(oldDataDir: string, newDataDir: string, oldPort: int, newPort: int, content: int)

  predicate IsPrimary(s: Segment) {
    s.preferredRole == "p" && s.content != -1
  }

  // i is the last place of a primary with content id c: a segment whose preferred
  // role is "p" and that is not the master.
  ghost predicate IsLastPrimary(config: SegmentConfiguration, c: int, i: nat) {
    && i < |config| && config[i].preferredRole == "p" && config[i].content == c && c != -1
    && forall j :: i < j < |config| && config[j].preferredRole == "p" ==> config[j].content != c
  }

  ghost predicate HasPrimary(config: SegmentConfiguration, c: int) {
    exists i: nat :: i < |config| && IsPrimary(config[i]) && config[i].content == c
  }

  ghost predicate IsPrimaryOf(x: Segment, config: SegmentConfiguration, c: int) {
    exists i: nat :: IsLastPrimary(config, c, i) && x == config[i]
  }

  // Each primary content id with its last primary: what the map-filling loops
  // compute.
  ghost predicate PrimariesOf(m: map<int, Segment>, config: SegmentConfiguration) {
    && (forall c :: c in m <==> HasPrimary(config, c))
    && (forall c :: c in m ==> IsPrimaryOf(m[c], config, c))
  }

  lemma HasPrimaryExtends(config: SegmentConfiguration, x: Segment, c: int)
    ensures HasPrimary(config + [x], c) <==> HasPrimary(config, c) || (IsPrimary(x) && x.content == c)
  {
    var more, n := config + [x], |config|;
    assert more[n] == x;
    if HasPrimary(config, c) {
      var i: nat :| i < n && IsPrimary(config[i]) && config[i].content == c;
      assert more[i] == config[i];
    }
    if HasPrimary(more, c) {
      var i: nat :| i < |more| && IsPrimary(more[i]) && more[i].content == c;
      assert i < n ==> config[i] == more[i];
    }
  }

  lemma IsPrimaryExtends(y: Segment, config: SegmentConfiguration, x: Segment, c: int)
    ensures IsPrimary(x) && x.content == c ==> IsPrimaryOf(x, config + [x], c)
    ensures !(IsPrimary(x) && x.content == c) && IsPrimaryOf(y, config, c) ==> IsPrimaryOf(y, config + [x], c)
  {
    var more, n := config + [x], |config|;
    assert more[n] == x;
    if IsPrimary(x) && x.content == c {
      assert IsLastPrimary(more, c, n);
    } else if IsPrimaryOf(y, config, c) {
      var i: nat :| IsLastPrimary(config, c, i) && y == config[i];
      assert more[i] == config[i] && IsLastPrimary(more, c, i);
    }
  }

  lemma PrimariesExtend(m: map<int, Segment>, config: SegmentConfiguration, x: Segment)
    requires PrimariesOf(m, config)
    ensures PrimariesOf(if IsPrimary(x) then m[x.content := x] else m, config + [x])
  {
    var m' := if IsPrimary(x) then m[x.content := x] else m;
    forall c ensures c in m' <==> HasPrimary(config + [x], c) {
      HasPrimaryExtends(config, x, c);
    }
    forall c | c in m' ensures IsPrimaryOf(m'[c], config + [x], c) {
      IsPrimaryExtends(m'[c], config, x, c);
    }
  }

  method Primaries(config: SegmentConfiguration) returns (m: map<int, Segment>)
    ensures PrimariesOf(m, config)
  {
    m := map[];
    for i := 0 to |config|
      invariant PrimariesOf(m, config[..i])
    {
      PrimariesExtend(m, config[..i], config[i]);
      assert config[..i] + [config[i]] == config[..i + 1];
      if config[i].preferredRole == "p" && config[i].content != -1 {
        m := m[config[i].content := config[i]];
      }
    }
    assert config[..|config|] == config;
  }

  lemma PrimariesUnique(m: map<int, Segment>, m': map<int, Segment>, config: SegmentConfiguration)
    requires PrimariesOf(m, config) && PrimariesOf(m', config)
    ensures m == m'
  {
    forall c | c in m ensures c in m' && m[c] == m'[c] {
      assert HasPrimary(config, c);
      var i: nat :| IsLastPrimary(config, c, i) && m[c] == config[i];
      var j: nat :| IsLastPrimary(config, c, j) && m'[c] == config[j];
      assert i == j;
    }
    forall c ensures c in m <==> c in m' { assert c in m <==> HasPrimary(config, c); }
    assert m.Keys == m'.Keys;
  }

  // --- pairing --------------------------------------------------------------------

  // The two configurations can be paired: every old primary content id has a new
  // primary, on the same host.
  predicate Matched(olds: map<int, Segment>, news: map<int, Segment>) {
    forall c :: c in olds ==> c in news && olds[c].hostname == news[c].hostname
  }

  function PairOf(olds: map<int, Segment>, news: map<int, Segment>, c: int): DataDirPair
    requires c in olds && c in news
  {
    DataDirPair(olds[c].datadir, news[c].datadir, olds[c].port, news[c].port, c)
  }

  // The pairs of the content ids in `done`, each once, under the host of its
  // old primary, and nothing else.
  ghost predicate PairsOf(pairs: map<string, seq<DataDirPair>>, olds: map<int, Segment>, news: map<int, Segment>,
                          done: set<int>)
    requires forall c :: c in done ==> c in olds && c in news
  {
    && (forall h :: h in pairs ==> pairs[h] != [] && NoDuplicates(pairs[h]))
    && (forall h, p :: h in pairs && p in pairs[h] ==>
          p.content in done && olds[p.content].hostname == h && p == PairOf(olds, news, p.content))
    && (forall c :: c in done ==> olds[c].hostname in pairs && PairOf(olds, news, c) in pairs[olds[c].hostname])
  }

  datatype Error = NoNewPrimary(content: int) | HostnameMismatch(content: int)

  datatype Result = Err(error: Error) | Ok(pairs: map<string, seq<DataDirPair>>)

  // Why the pairing failed.
  predicate Explains(e: Error, olds: map<int, Segment>, news: map<int, Segment>) {
    && e.content in olds
    && if e.NoNewPrimary? then e.content !in news
       else e.content in news && olds[e.content].hostname != news[e.content].hostname
  }

  lemma PairsExtend(pairs: map<string, seq<DataDirPair>>, olds: map<int, Segment>, news: map<int, Segment>,
                    done: set<int>, c: int)
    requires forall d :: d in done + {c} ==> d in olds && d in news
    requires c !in done && PairsOf(pairs, olds, news, done)
    ensures var h := olds[c].hostname;
            PairsOf(pairs[h := (if h in pairs then pairs[h] else []) + [PairOf(olds, news, c)]], olds, news, done + {c})
  {
    var h, p := olds[c].hostname, PairOf(olds, news, c);
    var before := if h in pairs then pairs[h] else [];
    var pairs' := pairs[h := before + [p]];
    assert p.content == c;
    assert p !in before;
    assert NoDuplicates(pairs'[h]);
    forall g: string, q: DataDirPair | g in pairs' && q in pairs'[g]
      ensures q.content in done + {c} && olds[q.content].hostname == g && q == PairOf(olds, news, q.content)
    {
      if g == h { assert q in before || q == p; }
    }
    forall d | d in done + {c} ensures olds[d].hostname in pairs' && PairOf(olds, news, d) in pairs'[olds[d].hostname] {
      if d == c {
        assert pairs'[h][|before|] == p;
      } else if olds[d].hostname == h {
        assert PairOf(olds, news, d) in before;
      }
    }
  }

  // In terms of the configurations: every last old primary has a last new
  // primary with its content id on its host.
  ghost predicate ConfigsMatch(oldConfig: SegmentConfiguration, newConfig: SegmentConfiguration) {
    forall c, i: nat :: IsLastPrimary(oldConfig, c, i) ==>
      exists j: nat :: IsLastPrimary(newConfig, c, j) && newConfig[j].hostname == oldConfig[i].hostname
  }

  lemma MatchedMeans(oldConfig: SegmentConfiguration, newConfig: SegmentConfiguration, olds: map<int, Segment>,
                     news: map<int, Segment>)
    requires PrimariesOf(olds, oldConfig) && PrimariesOf(news, newConfig)
    ensures Matched(olds, news) <==> ConfigsMatch(oldConfig, newConfig)
  {
    if Matched(olds, news) {
      forall c, i: nat | IsLastPrimary(oldConfig, c, i)
        ensures exists j: nat :: IsLastPrimary(newConfig, c, j) && newConfig[j].hostname == oldConfig[i].hostname
      {
        LastPrimaryIn(olds, oldConfig, c, i);
        var j: nat :| IsLastPrimary(newConfig, c, j) && news[c] == newConfig[j];
      }
    }
    if ConfigsMatch(oldConfig, newConfig) {
      forall c | c in olds ensures c in news && olds[c].hostname == news[c].hostname {
        var i: nat :| IsLastPrimary(oldConfig, c, i) && olds[c] == oldConfig[i];
        var j: nat :| IsLastPrimary(newConfig, c, j) && newConfig[j].hostname == oldConfig[i].hostname;
        LastPrimaryIn(news, newConfig, c, j);
      }
    }
  }

  lemma LastPrimaryIn(m: map<int, Segment>, config: SegmentConfiguration, c: int, i: nat)
    requires PrimariesOf(m, config) && IsLastPrimary(config, c, i)
    ensures c in m && m[c] == config[i]
  {
    assert HasPrimary(config, c);
    var j: nat :| IsLastPrimary(config, c, j) && m[c] == config[j];
    assert i == j;
  }

  // p is the pair, under host h, of the last old and the last new primary with its
  // content id: the directories and ports of the old one first.
  ghost predicate Joins(p: DataDirPair, h: string, oldConfig: SegmentConfiguration, newConfig: SegmentConfiguration) {
    exists i: nat, j: nat :: JoinsAt(p, h, oldConfig, newConfig, i, j)
  }

  ghost predicate JoinsAt(p: DataDirPair, h: string, oldConfig: SegmentConfiguration, newConfig: SegmentConfiguration,
                          i: nat, j: nat) {
    && IsLastPrimary(oldConfig, p.content, i) && IsLastPrimary(newConfig, p.content, j)
    && p.oldDataDir == oldConfig[i].datadir && p.oldPort == oldConfig[i].port
    && p.newDataDir == newConfig[j].datadir && p.newPort == newConfig[j].port
    && h == oldConfig[i].hostname
  }

  lemma PairJoins(olds: map<int, Segment>, news: map<int, Segment>, oldConfig: SegmentConfiguration,
                  newConfig: SegmentConfiguration, c: int)
    requires PrimariesOf(olds, oldConfig) && PrimariesOf(news, newConfig) && c in olds && c in news
    ensures Joins(PairOf(olds, news, c), olds[c].hostname, oldConfig, newConfig)
  {
    var i: nat :| IsLastPrimary(oldConfig, c, i) && olds[c] == oldConfig[i];
    var j: nat :| IsLastPrimary(newConfig, c, j) && news[c] == newConfig[j];
    assert JoinsAt(PairOf(olds, news, c), olds[c].hostname, oldConfig, newConfig, i, j);
  }

  lemma JoinIsPair(olds: map<int, Segment>, news: map<int, Segment>, oldConfig: SegmentConfiguration,
                   newConfig: SegmentConfiguration, p: DataDirPair, h: string)
    requires PrimariesOf(olds, oldConfig) && PrimariesOf(news, newConfig) && Joins(p, h, oldConfig, newConfig)
    ensures p.content in olds && p.content in news
    ensures p == PairOf(olds, news, p.content) && h == olds[p.content].hostname
  {
    var i: nat, j: nat :| JoinsAt(p, h, oldConfig, newConfig, i, j);
    LastPrimaryIn(olds, oldConfig, p.content, i);
    LastPrimaryIn(news, newConfig, p.content, j);
  }

  // The pairs are those of the two configurations, each once under its host.
  ghost predicate PairsJoin(pairs: map<string, seq<DataDirPair>>, oldConfig: SegmentConfiguration,
                            newConfig: SegmentConfiguration) {
    && (forall h, p :: h in pairs && p in pairs[h] ==> Joins(p, h, oldConfig, newConfig))
    && (forall h, p :: Joins(p, h, oldConfig, newConfig) ==> h in pairs && p in pairs[h])
    && (forall h :: h in pairs ==> NoDuplicates(pairs[h]))
  }

  lemma PairsAreJoins(pairs: map<string, seq<DataDirPair>>, olds: map<int, Segment>, news: map<int, Segment>,
                      oldConfig: SegmentConfiguration, newConfig: SegmentConfiguration)
    requires PrimariesOf(olds, oldConfig) && PrimariesOf(news, newConfig)
    requires Matched(olds, news) && PairsOf(pairs, olds, news, olds.Keys)
    ensures PairsJoin(pairs, oldConfig, newConfig)
  {
    forall h, p | h in pairs && p in pairs[h] ensures Joins(p, h, oldConfig, newConfig) {
      PairJoins(olds, news, oldConfig, newConfig, p.content);
    }
    forall h, p | Joins(p, h, oldConfig, newConfig) ensures h in pairs && p in pairs[h] {
      JoinIsPair(olds, news, oldConfig, newConfig, p, h);
      assert p.content in olds.Keys;
    }
  }

  // The last old primary that the error names has no new primary, or its last one is
  // on another host.
  ghost predicate Unpaired(e: Error, oldConfig: SegmentConfiguration, newConfig: SegmentConfiguration) {
    exists i: nat :: IsLastPrimary(oldConfig, e.content, i) && UnpairedAt(e, oldConfig[i].hostname, newConfig)
  }

  ghost predicate UnpairedAt(e: Error, h: string, newConfig: SegmentConfiguration) {
    match e
    case NoNewPrimary(c) => forall j: nat :: !IsLastPrimary(newConfig, c, j)
    case HostnameMismatch(c) => exists j: nat :: IsLastPrimary(newConfig, c, j) && newConfig[j].hostname != h
  }

  lemma ExplainedIsUnpaired(e: Error, olds: map<int, Segment>, news: map<int, Segment>,
                            oldConfig: SegmentConfiguration, newConfig: SegmentConfiguration)
    requires PrimariesOf(olds, oldConfig) && PrimariesOf(news, newConfig) && Explains(e, olds, news)
    ensures Unpaired(e, oldConfig, newConfig)
  {
    var c := e.content;
    var i: nat :| IsLastPrimary(oldConfig, c, i) && olds[c] == oldConfig[i];
    if e.NoNewPrimary? {
      forall j: nat ensures !IsLastPrimary(newConfig, c, j) {
        if IsLastPrimary(newConfig, c, j) { LastPrimaryIn(news, newConfig, c, j); }
      }
    } else {
      var j: nat :| IsLastPrimary(newConfig, c, j) && news[c] == newConfig[j];
    }
    assert UnpairedAt(e, oldConfig[i].hostname, newConfig);
  }

  // The content ids are taken in the order of a map iteration: any order.
  method GetDataDirPairs(oldConfig: SegmentConfiguration, newConfig: SegmentConfiguration) returns (r: Result)
    ensures r.Ok? <==> ConfigsMatch(oldConfig, newConfig)
    ensures r.Ok? ==> PairsJoin(r.pairs, oldConfig, newConfig)
    ensures r.Err? ==> Unpaired(r.error, oldConfig, newConfig)
    ensures forall olds, news :: PrimariesOf(olds, oldConfig) && PrimariesOf(news, newConfig) ==> Answers(r, olds, news)
  {
    var oldConfigMap := Primaries(oldConfig);
    var newConfigMap := Primaries(newConfig);
    r := PairUp(oldConfigMap, newConfigMap);
    MatchedMeans(oldConfig, newConfig, oldConfigMap, newConfigMap);
    match r {
      case Ok(pairs) => PairsAreJoins(pairs, oldConfigMap, newConfigMap, oldConfig, newConfig);
      case Err(e) => ExplainedIsUnpaired(e, oldConfigMap, newConfigMap, oldConfig, newConfig);
    }
    forall olds, news | PrimariesOf(olds, oldConfig) && PrimariesOf(news, newConfig) ensures Answers(r, olds, news) {
      PrimariesUnique(olds, oldConfigMap, oldConfig);
      PrimariesUnique(news, newConfigMap, newConfig);
    }
  }

  // All the pairs when the primaries match, otherwise a reason why they do not.
  ghost predicate Answers(r: Result, olds: map<int, Segment>, news: map<int, Segment>) {
    match r
    case Ok(pairs) => Matched(olds, news) && PairsOf(pairs, olds, news, olds.Keys)
    case Err(e) => !Matched(olds, news) && Explains(e, olds, news)
  }

  // The loop over the old primaries.
  method PairUp(olds: map<int, Segment>, news: map<int, Segment>) returns (r: Result)
    ensures Answers(r, olds, news)
  {
    var pairs: map<string, seq<DataDirPair>> := map[];
    var todo := olds.Keys;
    ghost var done: set<int> := {};
    while todo != {}
      invariant todo + done == olds.Keys && todo !! done
      invariant forall c :: c in done ==> c in news && olds[c].hostname == news[c].hostname
      invariant PairsOf(pairs, olds, news, done)
      decreases todo
    {
      ghost var some := SomeElement(todo);
      var contentId :| contentId in todo;
      todo := todo - {contentId};
      var oldSegment := olds[contentId];
      if contentId !in news {
        return Err(NoNewPrimary(contentId));
      }
      var newSegment := news[contentId];
      var hostname := oldSegment.hostname;
      if oldSegment.hostname != newSegment.hostname {
        return Err(HostnameMismatch(contentId));
      }
      var dataPair := DataDirPair(oldSegment.datadir, newSegment.datadir, oldSegment.port, newSegment.port, contentId);
      PairsExtend(pairs, olds, news, done, contentId);
      pairs := pairs[hostname := (if hostname in pairs then pairs[hostname] else []) + [dataPair]];
      done := done + {contentId};
    }
    assert done == olds.Keys;
    return Ok(pairs);
  }

  // --- what this means for the caller ------------------------------------------------

  // A content id is in at most one pair of all hosts, the one that joins its last
  // old and new primaries; and every last old primary has one.
  lemma PairedOnce(pairs: map<string, seq<DataDirPair>>, oldConfig: SegmentConfiguration,
                   newConfig: SegmentConfiguration,
                   h: string, i: nat, h': string, i': nat)
    requires PairsJoin(pairs, oldConfig, newConfig)
    requires h in pairs && i < |pairs[h]| && h' in pairs && i' < |pairs[h']|
    requires pairs[h][i].content == pairs[h'][i'].content
    ensures h == h' && i == i' && Joins(pairs[h][i], h, oldConfig, newConfig)
  {
    var p, p' := pairs[h][i], pairs[h'][i'];
    assert p in pairs[h] && p' in pairs[h'];
    JoinsUnique(p, h, p', h', oldConfig, newConfig);
  }

  lemma JoinsUnique(p: DataDirPair, h: string, p': DataDirPair, h': string,
                    oldConfig: SegmentConfiguration, newConfig: SegmentConfiguration)
    requires Joins(p, h, oldConfig, newConfig) && Joins(p', h', oldConfig, newConfig) && p.content == p'.content
    ensures p == p' && h == h'
  {
    var i: nat, j: nat :| JoinsAt(p, h, oldConfig, newConfig, i, j);
    var i': nat, j': nat :| JoinsAt(p', h', oldConfig, newConfig, i', j');
    assert i == i' && j == j';
  }

  lemma OneHost(p: DataDirPair, h: string, h': string, oldConfig: SegmentConfiguration, newConfig: SegmentConfiguration)
    ensures Joins(p, h, oldConfig, newConfig) && Joins(p, h', oldConfig, newConfig) ==> h == h'
  {
    if Joins(p, h, oldConfig, newConfig) && Joins(p, h', oldConfig, newConfig) {
      JoinsUnique(p, h, p, h', oldConfig, newConfig);
    }
  }

  lemma EveryPrimaryPaired(pairs: map<string, seq<DataDirPair>>, oldConfig: SegmentConfiguration,
                           newConfig: SegmentConfiguration, c: int, i: nat) returns (p: DataDirPair)
    requires ConfigsMatch(oldConfig, newConfig) && PairsJoin(pairs, oldConfig, newConfig)
    requires IsLastPrimary(oldConfig, c, i)
    ensures oldConfig[i].hostname in pairs && p in pairs[oldConfig[i].hostname]
    ensures p.content == c && p.oldDataDir == oldConfig[i].datadir && p.oldPort == oldConfig[i].port
  {
    var j: nat :| IsLastPrimary(newConfig, c, j) && newConfig[j].hostname == oldConfig[i].hostname;
    p := DataDirPair(oldConfig[i].datadir, newConfig[j].datadir, oldConfig[i].port, newConfig[j].port, c);
    assert JoinsAt(p, oldConfig[i].hostname, oldConfig, newConfig, i, j);
    assert Joins(p, oldConfig[i].hostname, oldConfig, newConfig);
  }

  lemma {:induction false} SameElements<T>(a: seq<T>, b: seq<T>)
    requires NoDuplicates(a) && NoDuplicates(b) && forall x :: x in a <==> x in b
    ensures multiset(a) == multiset(b)
  {
    forall x ensures multiset(a)[x] == multiset(b)[x] {
      CountOne(a, x);
      CountOne(b, x);
    }
  }

  lemma {:induction false} CountOne<T>(s: seq<T>, x: T)
    requires NoDuplicates(s)
    ensures multiset(s)[x] == if x in s then 1 else 0
  {
    if s != [] {
      var n := |s| - 1;
      CountOne(s[..n], x);
      assert s == s[..n] + [s[n]];
    }
  }

  // Whatever the iteration order, the same hosts get the same pairs, up to
  // their order within a host.
  lemma OrderIndependent(pairs: map<string, seq<DataDirPair>>, pairs': map<string, seq<DataDirPair>>,
                         olds: map<int, Segment>, news: map<int, Segment>)
    requires Matched(olds, news)
    requires PairsOf(pairs, olds, news, olds.Keys) && PairsOf(pairs', olds, news, olds.Keys)
    ensures pairs.Keys == pairs'.Keys
    ensures forall h :: h in pairs ==> multiset(pairs[h]) == multiset(pairs'[h])
  {
    forall h | h in pairs ensures h in pairs' && forall p :: p in pairs[h] ==> p in pairs'[h] {
      Within(pairs, pairs', olds, news, h);
    }
    forall h | h in pairs' ensures h in pairs && forall p :: p in pairs'[h] ==> p in pairs[h] {
      Within(pairs', pairs, olds, news, h);
    }
    forall h | h in pairs ensures multiset(pairs[h]) == multiset(pairs'[h]) { SameElements(pairs[h], pairs'[h]); }
  }

  lemma Within(pairs: map<string, seq<DataDirPair>>, pairs': map<string, seq<DataDirPair>>,
               olds: map<int, Segment>, news: map<int, Segment>, h: string)
    requires Matched(olds, news) && h in pairs
    requires PairsOf(pairs, olds, news, olds.Keys) && PairsOf(pairs', olds, news, olds.Keys)
    ensures h in pairs' && forall p :: p in pairs[h] ==> p in pairs'[h]
  {
    assert pairs[h][0] in pairs[h];
    assert pairs[h][0].content in olds.Keys;
    forall p | p in pairs[h] ensures p in pairs'[olds[p.content].hostname] {
      assert p.content in olds.Keys && p == PairOf(olds, news, p.content);
    }
  }

  // Given one configuration as both the old and the new one, the pairing always
  // succeeds and pairs every primary with itself.
  lemma SameConfigPairsItself(config: SegmentConfiguration, m: map<int, Segment>, pairs: map<string, seq<DataDirPair>>,
                              h: string, p: DataDirPair)
    requires PrimariesOf(m, config)
    ensures Matched(m, m)
    ensures PairsOf(pairs, m, m, m.Keys) && h in pairs && p in pairs[h] ==>
              p.oldDataDir == p.newDataDir && p.oldPort == p.newPort
  {
    if PairsOf(pairs, m, m, m.Keys) && h in pairs && p in pairs[h] {
      assert p == PairOf(m, m, p.content);
    }
  }
}

/** What the block cache promises: exact byte accounting within the budget,
    least-recent-first minimal eviction, and a plain map of blocks behind it all.
    Where the code breaks a promise, the exact condition is given. */
module ContentLaws {
  import opened Options
  import opened Recency
  import opened Disk
  import opened ContentCache

  // ------------------------------------------------------------ the map

  function CidsOf(d: Files): set<Cid> {
    set p | p in d :: p.cid
  }

  /** The blocks a lookup can find. */
  function Contents(d: Files): map<Cid, Bytes> {
    map c | c in CidsOf(d) ::
      if Hashed(c) in d then d[Hashed(c)] else if Flat(c) in d then d[Flat(c)] else []
  }

  ghost predicate OneLayout(d: Files) {
    forall c :: !(Hashed(c) in d && Flat(c) in d)
  }

  lemma InContents(d: Files, c: Cid)
    ensures c in Contents(d) <==> Hashed(c) in d || Flat(c) in d
  {
    if Hashed(c) in d {
      assert Hashed(c).cid in CidsOf(d);
    }
    if Flat(c) in d {
      assert Flat(c).cid in CidsOf(d);
    }
  }

  lemma ContentsAt(d: Files, c: Cid)
    ensures c in Contents(d) <==> Hashed(c) in d || Flat(c) in d
    ensures c in Contents(d) ==> Contents(d)[c] == if Hashed(c) in d then d[Hashed(c)] else d[Flat(c)]
  {
    InContents(d, c);
  }

  /** The CIDs the eviction callback was given between two states. */
  function Reported(s: State, t: State): seq<Cid>
    requires |s.reports| <= |t.reports|
  {
    t.reports[|s.reports|..]
  }

  function SetOf(q: seq<Cid>): set<Cid> {
    set c | c in q
  }

  ghost predicate Books(s: State) {
    s.bytes == Total(s.files)
  }

  ghost predicate TracksFiles(s: State) {
    forall c :: c in s.lru ==> Hashed(c) in s.files || Flat(c) in s.files
  }

  ghost predicate Good(s: State, l: Limits) {
    && Books(s) && s.bytes <= l.maxBytes
    && Distinct(s.lru) && |s.lru| <= l.lruSize && l.lruSize > 0
    && TracksFiles(s) && OneLayout(s.files)
    && Hashed("") !in s.files && Flat("") !in s.files
  }

  // ---------------------------------------------------------- eviction

  /** `t` is `s` with the files `gone` removed, each reported once, and the byte
      count lowered by exactly their sizes. */
  ghost predicate ShrinksBy(s: State, t: State, gone: seq<Path>) {
    && Distinct(gone) && (forall p :: p in gone ==> p in s.files)
    && t.files == s.files - Elems(gone)
    && t.reports == s.reports + Cids(gone)
    && s.bytes - t.bytes == Total(s.files) - Total(t.files) >= 0
  }

  lemma SweptShrinks(s: State, f: Faults, ts: seq<Option<Path>>, k: nat)
    requires Apart(ts) && k <= |ts|
    ensures ShrinksBy(s, Swept(s, f, ts, k), Gone(s.files, f.stuck, ts[..k]))
    ensures s.bytes - Swept(s, f, ts, k).bytes == Sum(s.files, f.stuck, ts[..k])
  {
    assert Apart(ts[..k]);
    GoneFacts(s.files, f.stuck, ts[..k]);
  }

  lemma ShrinksTwice(s: State, t: State, u: State, gone: seq<Path>, more: seq<Path>)
    requires ShrinksBy(s, t, gone) && ShrinksBy(t, u, more)
    ensures ShrinksBy(s, u, gone + more)
  {
    assert s.files - Elems(gone) - Elems(more) == s.files - Elems(gone + more);
    assert Cids(gone + more) == Cids(gone) + Cids(more);
    assert forall p :: p in more ==> p in t.files && p !in gone;
    DistinctConcat(gone, more);
  }

  lemma GoneContents(d: Files, gone: seq<Path>)
    requires OneLayout(d) && Distinct(gone) && forall p :: p in gone ==> p in d
    ensures Contents(d - Elems(gone)) == Contents(d) - SetOf(Cids(gone))
    ensures Distinct(Cids(gone)) && SetOf(Cids(gone)) <= CidsOf(d)
  {
    var d' := d - Elems(gone);
    forall c
      ensures c in SetOf(Cids(gone)) <==> Hashed(c) in gone || Flat(c) in gone
    {
      if p :| p in gone && p.cid == c {
        var i :| 0 <= i < |gone| && gone[i] == p;
        assert Cids(gone)[i] == c;
        assert p == Hashed(c) || p == Flat(c);
      }
    }
    forall c
      ensures c in Contents(d') <==> c in Contents(d) && c !in SetOf(Cids(gone))
    {
      InContents(d, c);
      InContents(d', c);
    }
    assert forall p: Path :: p == (if p.Hashed? then Hashed(p.cid) else Flat(p.cid));
    forall i, k | 0 <= i < k < |gone|
      ensures Cids(gone)[i] != Cids(gone)[k]
    {
      assert gone[i] in d && gone[k] in d && gone[i] != gone[k];
    }
  }

  lemma TrackedShrinks(s: State, f: Faults, n: int) returns (gone: seq<Path>)
    requires Distinct(s.lru)
    ensures ShrinksBy(s, EvictTracked(s, f, n).0, gone)
    ensures EvictTracked(s, f, n).1 == s.bytes - EvictTracked(s, f, n).0.bytes
  {
    TrackedApart(s, f);
    var ts := Tracked(s.files, f, s.lru);
    var k := Cut(s.files, f.stuck, ts, n);
    SweptShrinks(s, f, ts, k);
    gone := Gone(s.files, f.stuck, ts[..k]);
  }

  lemma NothingShrinks(s: State) returns (gone: seq<Path>)
    ensures gone == [] && ShrinksBy(s, s, [])
  {
    assert s.files - Elems([]) == s.files && s.reports + Cids([]) == s.reports;
    gone := [];
  }

  lemma WalkedShrinks(s: State, f: Faults, w: Walk, n: int) returns (gone: seq<Path>)
    requires Distinct(w.order)
    ensures ShrinksBy(s, EvictWalked(s, f, w, n).0, gone)
    ensures EvictWalked(s, f, w, n).1 ==> s.bytes - EvictWalked(s, f, w, n).0.bytes >= n
  {
    gone := NothingShrinks(s);
    if s.bytes != 0 {
      var ts := Visited(w);
      assert Apart(ts);
      var k := Cut(s.files, f.stuck, ts, n);
      SweptShrinks(s, f, ts, k);
      gone := Gone(s.files, f.stuck, ts[..k]);
    }
  }

  /** Whatever goes wrong, eviction only removes whole files, reports each of them
      once, and lowers the byte count by exactly their sizes; if it succeeds, it
      has freed what it was asked for. */
  lemma EvictShrinks(s: State, f: Faults, w: Walk, n: int) returns (gone: seq<Path>)
    requires Distinct(s.lru) && Distinct(w.order)
    ensures ShrinksBy(s, Evict(s, f, w, n).0, gone)
    ensures Evict(s, f, w, n).1 ==> s.bytes - Evict(s, f, w, n).0.bytes >= n
  {
    hide EvictTracked, EvictWalked, Total;
    gone := NothingShrinks(s);
    if s.bytes != 0 {
      gone := TrackedShrinks(s, f, n);
      var (t, freed) := EvictTracked(s, f, n);
      if freed < n {
        var more := WalkedShrinks(t, f, w, n - freed);
        ShrinksTwice(s, t, EvictWalked(t, f, w, n - freed).0, gone, more);
        gone := gone + more;
      }
    }
  }

  /** Eviction forgets the least recently used blocks and leaves the files of all
      blocks it still tracks alone. */
  lemma EvictKeepsTracked(s: State, f: Faults, w: Walk, n: int)
    requires Distinct(s.lru) && Distinct(w.order)
    ensures var t := Evict(s, f, w, n).0;
            && Distinct(t.lru) && |t.lru| <= |s.lru|
            && (forall c :: c in t.lru ==>
                  && c in s.lru
                  && (Hashed(c) in s.files ==> Hashed(c) in t.files)
                  && (Flat(c) in s.files ==> Flat(c) in t.files))
  {
    hide Sum, Gone;
    if s.bytes != 0 {
      TrackedApart(s, f);
      var ts := Tracked(s.files, f, s.lru);
      var k := Cut(s.files, f.stuck, ts, n);
      var (t, freed) := EvictTracked(s, f, n);
      assert Apart(ts[..k]);
      GoneFacts(s.files, f.stuck, ts[..k]);
      if freed < n {
        assert t.lru == [];
      }
      forall c | c in t.lru
        ensures c in s.lru && Hashed(c) !in Gone(s.files, f.stuck, ts[..k])
                && Flat(c) !in Gone(s.files, f.stuck, ts[..k])
      {
        var i :| k <= i < |s.lru| && s.lru[i] == c;
        assert forall m :: 0 <= m < k && ts[..k][m].Some? ==> ts[..k][m].value.cid == s.lru[m];
      }
    }
  }

  /** Under any faults, eviction succeeds exactly if what goes frees enough; only a walk
      that it has come to can spoil that, by failing. */
  lemma EvictSucceedsIff(s: State, f: Faults, w: Walk, n: int)
    requires Distinct(s.lru) && Distinct(w.order) && n > 0
    ensures var (t, ok) := Evict(s, f, w, n);
            ok <==> s.bytes - t.bytes >= n && (w.fails ==> EvictTracked(s, f, n).1 >= n)
  {
    var gone := EvictShrinks(s, f, w, n);
    var listed := TrackedShrinks(s, f, n);
    var (t, freed) := EvictTracked(s, f, n);
    if s.bytes != 0 && freed < n && t.bytes != 0 {
      var ts := Visited(w);
      assert Apart(ts);
      SweptShrinks(t, f, ts, Cut(t.files, f.stuck, ts, n - freed));
    }
    hide Swept, Sum, Gone, Cut, Total, ShrinksBy;
  }

  lemma EvictLaw(s: State, l: Limits, f: Faults, w: Walk, n: int)
    requires Good(s, l) && Distinct(w.order)
    ensures var t := Evict(s, f, w, n).0;
            && |s.reports| <= |t.reports| && Good(t, l) && t.bytes <= s.bytes
            && Contents(t.files) == Contents(s.files) - SetOf(Reported(s, t))
            && Distinct(Reported(s, t)) && SetOf(Reported(s, t)) <= CidsOf(s.files)
            && t.files.Keys <= s.files.Keys
  {
    var t := Evict(s, f, w, n).0;
    var gone := EvictShrinks(s, f, w, n);
    assert Reported(s, t) == Cids(gone);
    GoneContents(s.files, gone);
    EvictKeepsTracked(s, f, w, n);
  }

  // -------------------------------------------- eviction without faults

  const CALM := Faults({}, {}, {}, false, false)

  /** The bytes held by the blocks of `q`. */
  function Weight(m: map<Cid, Bytes>, q: seq<Cid>): nat {
    if q == [] then 0
    else Weight(m, q[..|q| - 1]) + (if q[|q| - 1] in m then |m[q[|q| - 1]]| else 0)
  }

  /** The file of a tracked block holds what a lookup finds, and can be removed. */
  lemma TrackedOne(d: Files, c: Cid)
    requires Hashed(c) in d || Flat(c) in d
    ensures var p := Locate(d, CALM, c);
            Goes(d, {}, p) && p.value.cid == c && c in Contents(d) && d[p.value] == Contents(d)[c]
  {
    InContents(d, c);
  }

  lemma CidsNext(g: seq<Path>, p: Path)
    ensures Cids(g + [p]) == Cids(g) + [p.cid]
  {
  }

  lemma WeightNext(m: map<Cid, Bytes>, q: seq<Cid>, i: nat)
    requires i < |q|
    ensures Weight(m, q[..i + 1]) == Weight(m, q[..i]) + if q[i] in m then |m[q[i]]| else 0
  {
    assert q[..i + 1][..i] == q[..i];
  }

  /** Attempting the first `m` tracked blocks removes exactly those. */
  lemma {:induction false} TrackedPrefix(s: State, m: nat)
    requires TracksFiles(s) && m <= |s.lru|
    ensures var ts := Tracked(s.files, CALM, s.lru)[..m];
            && Sum(s.files, {}, ts) == Weight(Contents(s.files), s.lru[..m])
            && Cids(Gone(s.files, {}, ts)) == s.lru[..m]
  {
    var d, ts := s.files, Tracked(s.files, CALM, s.lru);
    if m > 0 {
      hide Locate, Sum, Gone, Contents, Cids, CidsOf;
      TrackedPrefix(s, m - 1);
      var c := s.lru[m - 1];
      assert c in s.lru;
      TrackedOne(d, c);
      SumNext(d, {}, ts, m - 1);
      var p := ts[m - 1].value;
      CidsNext(Gone(d, {}, ts[..m - 1]), p);
      WeightNext(Contents(d), s.lru, m - 1);
      assert s.lru[..m] == s.lru[..m - 1] + [c];
      hide Tracked, Weight;
    }
  }

  lemma TrackedPrefixes(s: State)
    requires TracksFiles(s)
    ensures forall m :: 0 <= m <= |s.lru| ==>
              Sum(s.files, {}, Tracked(s.files, CALM, s.lru)[..m]) == Weight(Contents(s.files), s.lru[..m])
  {
    forall m | 0 <= m <= |s.lru|
      ensures Sum(s.files, {}, Tracked(s.files, CALM, s.lru)[..m]) == Weight(Contents(s.files), s.lru[..m])
    {
      TrackedPrefix(s, m);
    }
  }

  lemma RemovesPrefix(s: State, k: nat)
    requires Distinct(s.lru) && OneLayout(s.files) && TracksFiles(s) && k <= |s.lru|
    ensures Contents(s.files - Elems(Gone(s.files, {}, Tracked(s.files, CALM, s.lru)[..k])))
            == Contents(s.files) - SetOf(s.lru[..k])
  {
    var ts := Tracked(s.files, CALM, s.lru);
    TrackedApart(s, CALM);
    assert Apart(ts[..k]);
    GoneFacts(s.files, {}, ts[..k]);
    TrackedPrefix(s, k);
    GoneContents(s.files, Gone(s.files, {}, ts[..k]));
  }

  /** Without faults, eviction takes the least recently used blocks first and no
      more of them than needed: as long as the tracked blocks hold `n` bytes, it
      removes and reports exactly their shortest prefix that does. */
  lemma EvictsShortestPrefix(s: State, l: Limits, w: Walk, n: int) returns (k: nat)
    requires Good(s, l) && s.bytes > 0
    requires Weight(Contents(s.files), s.lru) >= n
    ensures k <= |s.lru| && Weight(Contents(s.files), s.lru[..k]) >= n
    ensures forall m :: 0 <= m < k ==> Weight(Contents(s.files), s.lru[..m]) < n
    ensures var (t, ok) := Evict(s, CALM, w, n);
            && ok && t.lru == s.lru[k..] && t.reports == s.reports + s.lru[..k]
            && Contents(t.files) == Contents(s.files) - SetOf(s.lru[..k])
  {
    TrackedPrefixes(s);
    var ts := Tracked(s.files, CALM, s.lru);
    k := Cut(s.files, {}, ts, n);
    assert s.lru[..|s.lru|] == s.lru;
    TrackedPrefix(s, k);
    RemovesPrefix(s, k);
  }

  lemma {:induction false} SumGrows(d: Files, stuck: set<Path>, ts: seq<Option<Path>>, k: nat)
    requires k <= |ts|
    ensures Sum(d, stuck, ts[..k]) <= Sum(d, stuck, ts)
  {
    if k < |ts| {
      SumGrows(d, stuck, ts[..|ts| - 1], k);
      assert ts[..|ts| - 1][..k] == ts[..k];
    } else {
      assert ts[..k] == ts;
    }
  }

  /** Eviction from the list falls short exactly when the tracked blocks hold less
      than `n` bytes, and then it takes them all. */
  lemma TooLittleTracked(s: State, n: int)
    requires TracksFiles(s)
    ensures var (t, freed) := EvictTracked(s, CALM, n);
            && (freed < n <==> Weight(Contents(s.files), s.lru) < n)
            && (freed < n ==> t.lru == [] && t.reports == s.reports + s.lru)
  {
    var ts := Tracked(s.files, CALM, s.lru);
    var k := Cut(s.files, {}, ts, n);
    assert ts[..|s.lru|] == ts && s.lru[..|s.lru|] == s.lru;
    TrackedPrefix(s, |s.lru|);
    SumGrows(s.files, {}, ts, k);
  }

  /** A walk over the whole disk frees any amount that is there. */
  lemma WalkTakesAll(t: State, w: Walk, n: int)
    requires Books(t) && n > 0 && Distinct(w.order) && !w.fails
    requires forall p :: p in t.files ==> p in w.order
    ensures EvictWalked(t, CALM, w, n).1 <==> n <= Total(t.files)
    ensures t.reports <= EvictWalked(t, CALM, w, n).0.reports && EvictWalked(t, CALM, w, n).0.lru == t.lru
  {
    var vs := Visited(w);
    assert Apart(vs);
    var v := Cut(t.files, {}, vs, n);
    assert Apart(vs[..v]);
    GoneFacts(t.files, {}, vs[..v]);
    if Sum(t.files, {}, vs[..v]) < n {
      assert vs[..v] == vs;
      forall p | p in t.files
        ensures p in Gone(t.files, {}, vs)
      {
        var i :| 0 <= i < |w.order| && w.order[i] == p;
        assert vs[i] == Some(p);
      }
      assert t.files - Elems(Gone(t.files, {}, vs)) == map[];
    }
  }

  /** Only when the tracked blocks hold too little is the disk walked: then every
      tracked block has been removed and reported first. Eviction succeeds exactly
      when the cache holds `n` bytes at all. */
  lemma EvictsAllTrackedFirst(s: State, l: Limits, w: Walk, n: int)
    requires Good(s, l) && s.bytes > 0
    requires Walks(w, s.files) && !w.fails
    ensures var (t, ok) := Evict(s, CALM, w, n);
            && (ok <==> n <= Total(s.files))
            && (Weight(Contents(s.files), s.lru) < n ==>
                  t.lru == [] && s.reports + s.lru <= t.reports)
  {
    hide EvictTracked, EvictWalked, Contents, Weight, Total;
    var (t, freed) := EvictTracked(s, CALM, n);
    var gone := TrackedShrinks(s, CALM, n);
    TooLittleTracked(s, n);
    if freed < n {
      WalkTakesAll(t, w, n - freed);
    }
  }

  // ---------------------------------------------------------------- Put

  /** The one of Put's miscounts this call would make, if any: it subtracts the
      size of a flat file it leaves in place, of a file that it has itself just
      evicted, or fails to subtract that of a file whose status it cannot read. */
  predicate Miscounts(s: State, l: Limits, f: Faults, w: Walk, c: Cid, block: Bytes) {
    var room := MakeRoom(s, l, f, w, |block| - OldSize(s, f, c)).0;
    if Hashed(c) !in s.files then OldSize(s, f, c) > 0
    else if Hashed(c) in f.noStat then Hashed(c) in room.files && |s.files[Hashed(c)]| > 0
    else Hashed(c) !in room.files && |s.files[Hashed(c)]| > 0
  }

  lemma RoomShrinks(s: State, l: Limits, f: Faults, w: Walk, grow: int) returns (gone: seq<Path>)
    requires Distinct(s.lru) && Distinct(w.order)
    ensures ShrinksBy(s, MakeRoom(s, l, f, w, grow).0, gone)
    ensures MakeRoom(s, l, f, w, grow).1 ==> MakeRoom(s, l, f, w, grow).0.bytes + grow <= l.maxBytes
  {
    hide Evict, Total;
    if s.bytes + grow <= l.maxBytes {
      gone := NothingShrinks(s);
    } else {
      gone := EvictShrinks(s, f, w, grow - (l.maxBytes - s.bytes));
      assert MakeRoom(s, l, f, w, grow) == Evict(s, f, w, grow - (l.maxBytes - s.bytes));
    }
  }

  lemma RoomLaw(s: State, l: Limits, f: Faults, w: Walk, grow: int)
    requires Good(s, l) && Distinct(w.order)
    ensures var t := MakeRoom(s, l, f, w, grow).0;
            && |s.reports| <= |t.reports| && Good(t, l)
            && Contents(t.files) == Contents(s.files) - SetOf(Reported(s, t))
            && t.files.Keys <= s.files.Keys
  {
    hide Contents, Total, Evict;
    if s.bytes + grow <= l.maxBytes {
      assert Reported(s, s) == [];
      assert Contents(s.files) - {} == Contents(s.files);
    } else {
      var n := grow - (l.maxBytes - s.bytes);
      EvictLaw(s, l, f, w, n);
      assert MakeRoom(s, l, f, w, grow) == Evict(s, f, w, n);
    }
  }

  /** A successful Put keeps the byte count exact if and only if it does not
      miscount, whatever else goes wrong. */
  lemma PutKeepsBooksIff(s: State, l: Limits, f: Faults, w: Walk, c: Cid, block: Bytes)
    requires Books(s) && Distinct(s.lru) && Distinct(w.order)
    requires Put(s, l, f, w, c, block).1
    ensures Books(Put(s, l, f, w, c, block).0) <==> !Miscounts(s, l, f, w, c, block)
  {
    var room := MakeRoom(s, l, f, w, |block| - OldSize(s, f, c)).0;
    var gone := RoomShrinks(s, l, f, w, |block| - OldSize(s, f, c));
    TotalWrite(room.files, Hashed(c), block);
    if Hashed(c) in room.files {
      TotalRemove(room.files, Hashed(c));
    } else {
      assert room.files - {Hashed(c)} == room.files;
    }
  }

  lemma {:induction false} WeightGrows(m: map<Cid, Bytes>, q: seq<Cid>, k: nat)
    requires k <= |q|
    ensures Weight(m, q[..k]) <= Weight(m, q)
  {
    if k < |q| {
      WeightGrows(m, q[..|q| - 1], k);
      assert q[..|q| - 1][..k] == q[..k];
    } else {
      assert q[..k] == q;
    }
  }

  /** How many bytes a Put of this length over the block's file has to free. */
  function Need(s: State, l: Limits, c: Cid, block: Bytes): int
    requires Hashed(c) in s.files
  {
    |block| - |s.files[Hashed(c)]| - (l.maxBytes - s.bytes)
  }

  lemma PrefixHolds(q: seq<Cid>, k: nat, i: nat)
    requires Distinct(q) && k <= |q| && i < |q|
    ensures q[i] in SetOf(q[..k]) <==> i < k
  {
    if i < k {
      assert q[..k][i] == q[i];
    }
  }

  lemma AllTrackedGo(s: State, w: Walk, n: int)
    requires TracksFiles(s) && s.bytes > 0 && Weight(Contents(s.files), s.lru) < n
    ensures s.reports + s.lru <= Evict(s, CALM, w, n).0.reports
  {
    TooLittleTracked(s, n);
    hide EvictTracked, Weight, Contents;
  }

  /** What is left of a tracked block once room has been made, without faults: its file
      goes exactly if the blocks used less recently hold less than is needed. */
  lemma EvictionReaches(s: State, l: Limits, w: Walk, i: nat, n: int)
    requires Good(s, l) && Distinct(w.order) && s.bytes > 0 && n > 0
    requires i < |s.lru| && Hashed(s.lru[i]) in s.files
    ensures Hashed(s.lru[i]) in Evict(s, CALM, w, n).0.files <==> Weight(Contents(s.files), s.lru[..i]) >= n
  {
    hide Evict, Contents, Weight;
    var c, m := s.lru[i], Contents(s.files);
    var t := Evict(s, CALM, w, n).0;
    EvictLaw(s, l, CALM, w, n);
    InContents(s.files, c);
    InContents(t.files, c);
    assert s.lru[..|s.lru|] == s.lru;
    if Weight(m, s.lru) >= n {
      var k := EvictsShortestPrefix(s, l, w, n);
      PrefixHolds(s.lru, k, i);
      if k <= i {
        WeightGrows(m, s.lru[..i], k);
        assert s.lru[..i][..k] == s.lru[..k];
      }
    } else {
      WeightGrows(m, s.lru, i);
      AllTrackedGo(s, w, n);
      assert c in s.lru;
      assert Reported(s, t)[..|s.lru|] == s.lru;
      assert Reported(s, t)[i] == c;
    }
  }

  /** A fault-free Put over a tracked block miscounts, by evicting that very block, if
      and only if it needs room and the blocks used less recently hold too little. */
  lemma MiscountsIff(s: State, l: Limits, w: Walk, i: nat, block: Bytes)
    requires Good(s, l) && Distinct(w.order) && i < |s.lru| && Hashed(s.lru[i]) in s.files
    ensures Miscounts(s, l, CALM, w, s.lru[i], block) <==>
            var need := Need(s, l, s.lru[i], block);
            |s.files[Hashed(s.lru[i])]| > 0 && need > 0 && Weight(Contents(s.files), s.lru[..i]) < need
  {
    hide Evict, Contents, Weight;
    var c := s.lru[i];
    TotalRemove(s.files, Hashed(c));
    if |s.files[Hashed(c)]| > 0 && Need(s, l, c, block) > 0 {
      EvictionReaches(s, l, w, i, Need(s, l, c, block));
    }
  }

  /** The total size of some files. */
  ghost function Weigh(d: Files, ps: seq<Path>): nat {
    if ps == [] then 0
    else Weigh(d, ps[..|ps| - 1]) + (if ps[|ps| - 1] in d then |d[ps[|ps| - 1]]| else 0)
  }

  /** The files of blocks that the recency list does not track. */
  function Untracked(s: State): Files { map p | p in s.files && p.cid !in s.lru :: s.files[p] }

  lemma {:induction false} SumIsWeigh(d: Files, w: Walk, i: nat)
    requires i <= |w.order|
    ensures Sum(d, {}, Visited(w)[..i]) == Weigh(d, w.order[..i])
  {
    if i > 0 {
      SumIsWeigh(d, w, i - 1);
      SumNext(d, {}, Visited(w), i - 1);
      assert w.order[..i][..i - 1] == w.order[..i - 1];
    }
  }

  /** The files of the tracked blocks are those that eviction from the list can take. */
  lemma TrackedFilesGo(s: State)
    requires Distinct(s.lru) && OneLayout(s.files)
    ensures s.files - Elems(Gone(s.files, {}, Tracked(s.files, CALM, s.lru))) == Untracked(s)
  {
    var ts := Tracked(s.files, CALM, s.lru);
    TrackedApart(s, CALM);
    GoneFacts(s.files, {}, ts);
    hide Sum, Gone;
    forall p | p in s.files
      ensures p in Gone(s.files, {}, ts) <==> p.cid in s.lru
    {
      if p.cid in s.lru {
        var i :| 0 <= i < |s.lru| && s.lru[i] == p.cid;
        assert ts[i] == Some(p);
      }
      assert forall i :: 0 <= i < |ts| && ts[i] == Some(p) ==> p.cid == s.lru[i];
    }
  }

  /** Eviction from the list takes all of it once the list falls short. */
  lemma ListTakesAll(s: State, n: int)
    requires TracksFiles(s) && Weight(Contents(s.files), s.lru) < n
    ensures Cut(s.files, {}, Tracked(s.files, CALM, s.lru), n) == |s.lru|
    ensures EvictTracked(s, CALM, n).1 == Weight(Contents(s.files), s.lru)
  {
    var ts := Tracked(s.files, CALM, s.lru);
    var k := Cut(s.files, {}, ts, n);
    assert ts[..|s.lru|] == ts && s.lru[..|s.lru|] == s.lru;
    TrackedPrefix(s, |s.lru|);
    SumGrows(s.files, {}, ts, k);
    hide Sum, Gone, Weight, Contents;
  }

  /** Once the list falls short, what is left to the walk is the untracked files. */
  lemma ListLeavesUntracked(s: State, n: int)
    requires Distinct(s.lru) && OneLayout(s.files) && TracksFiles(s)
    requires Weight(Contents(s.files), s.lru) < n
    ensures var (t, freed) := EvictTracked(s, CALM, n);
            t.files == Untracked(s) && freed == Weight(Contents(s.files), s.lru)
  {
    var ts := Tracked(s.files, CALM, s.lru);
    ListTakesAll(s, n);
    TrackedFilesGo(s);
    assert ts[..|s.lru|] == ts;
    hide Sum, Gone, Weight, Contents, Cut, Untracked;
  }

  /** What is left of an untracked file once the walk has made room: it goes exactly if
      the untracked files that the walk comes to before it weigh less than is needed. */
  lemma WalkReaches(t: State, w: Walk, n: int, i: nat)
    requires Distinct(w.order) && t.bytes != 0 && i < |w.order| && w.order[i] in t.files
    ensures w.order[i] in EvictWalked(t, CALM, w, n).0.files <==> Weigh(t.files, w.order[..i]) >= n
  {
    var vs := Visited(w);
    var k := Cut(t.files, {}, vs, n);
    assert Apart(vs[..k]);
    GoneFacts(t.files, {}, vs[..k]);
    SumIsWeigh(t.files, w, i);
    assert forall m :: 0 <= m < k ==> vs[..k][m] == Some(w.order[m]);
    if k <= i {
      SumGrows(t.files, {}, vs[..i], k);
      assert vs[..i][..k] == vs[..k];
    } else {
      assert vs[..k][i] == Some(w.order[i]);
    }
  }

  /** As long as the list suffices, untracked blocks stay. */
  lemma ListSparesUntracked(s: State, l: Limits, w: Walk, c: Cid, n: int)
    requires Good(s, l) && Distinct(w.order) && c !in s.lru && Hashed(c) in s.files && s.bytes > 0
    requires Weight(Contents(s.files), s.lru) >= n
    ensures Hashed(c) in Evict(s, CALM, w, n).0.files
  {
    hide Evict, Contents, Weight, Total;
    var k := EvictsShortestPrefix(s, l, w, n);
    EvictLaw(s, l, CALM, w, n);
    InContents(s.files, c);
    InContents(Evict(s, CALM, w, n).0.files, c);
    assert forall x :: x in s.lru[..k] ==> x in s.lru;
  }

  /** Once it does not, the walk decides. */
  lemma WalkDecidesUntracked(s: State, l: Limits, w: Walk, c: Cid, i: nat, n: int)
    requires Good(s, l) && Distinct(w.order) && c !in s.lru && Hashed(c) in s.files
    requires i < |w.order| && w.order[i] == Hashed(c) && |s.files[Hashed(c)]| > 0 && s.bytes > 0
    requires Weight(Contents(s.files), s.lru) < n
    ensures Hashed(c) in Evict(s, CALM, w, n).0.files <==>
            Weight(Contents(s.files), s.lru) + Weigh(Untracked(s), w.order[..i]) >= n
  {
    hide EvictTracked, EvictWalked, Contents, Weight, Weigh, Elems, Total;
    ListLeavesUntracked(s, n);
    var gone := TrackedShrinks(s, CALM, n);
    var (t, freed) := EvictTracked(s, CALM, n);
    TotalRemove(t.files, Hashed(c));
    WalkReaches(t, w, n - freed, i);
  }

  /** What is left of an untracked block once room has been made: its file goes exactly
      if the tracked blocks, together with the untracked files that the walk comes to
      before it, hold less than is needed. */
  lemma EvictionReachesUntracked(s: State, l: Limits, w: Walk, c: Cid, i: nat, n: int)
    requires Good(s, l) && Distinct(w.order) && c !in s.lru && Hashed(c) in s.files
    requires i < |w.order| && w.order[i] == Hashed(c) && |s.files[Hashed(c)]| > 0 && s.bytes > 0
    ensures Hashed(c) in Evict(s, CALM, w, n).0.files <==>
            Weight(Contents(s.files), s.lru) + Weigh(Untracked(s), w.order[..i]) >= n
  {
    hide Evict, Contents, Weight, Weigh, Untracked;
    if Weight(Contents(s.files), s.lru) >= n {
      ListSparesUntracked(s, l, w, c, n);
    } else {
      WalkDecidesUntracked(s, l, w, c, i, n);
    }
  }

  /** A fault-free Put over a block on disk that the recency list has forgotten miscounts
      if and only if eviction reaches it. */
  lemma UntrackedMiscountsIff(s: State, l: Limits, w: Walk, c: Cid, i: nat, block: Bytes)
    requires Good(s, l) && Distinct(w.order) && c !in s.lru && Hashed(c) in s.files
    requires i < |w.order| && w.order[i] == Hashed(c)
    ensures Miscounts(s, l, CALM, w, c, block) <==>
            && |s.files[Hashed(c)]| > 0
            && Weight(Contents(s.files), s.lru) + Weigh(Untracked(s), w.order[..i]) < Need(s, l, c, block)
  {
    hide Evict, Contents, Weight, Weigh, Untracked;
    TotalRemove(s.files, Hashed(c));
    if |s.files[Hashed(c)]| > 0 && Need(s, l, c, block) > 0 {
      EvictionReachesUntracked(s, l, w, c, i, Need(s, l, c, block));
    }
  }

  /** Rewriting a block with one of the same length needs no room. */
  lemma SameLengthIsSafe(s: State, l: Limits, f: Faults, w: Walk, c: Cid, block: Bytes)
    requires Good(s, l) && Hashed(c) in s.files && Hashed(c) !in f.noStat
    requires |block| == |s.files[Hashed(c)]|
    ensures !Miscounts(s, l, f, w, c, block)
  {
  }

  lemma WriteContents(d: Files, c: Cid, block: Bytes)
    requires OneLayout(d) && Flat(c) !in d
    ensures OneLayout(d[Hashed(c) := block])
    ensures Contents(d[Hashed(c) := block]) == Contents(d)[c := block]
  {
    var d' := d[Hashed(c) := block];
    hide Contents;
    forall x
      ensures x in Contents(d') <==> x in Contents(d)[c := block]
      ensures x in Contents(d') ==> Contents(d')[x] == Contents(d)[c := block][x]
    {
      ContentsAt(d, x);
      ContentsAt(d', x);
    }
  }

  /** Unless it miscounts, Put keeps the cache in order and within budget even if
      it fails half way; a success stores the block besides what eviction reported. */
  lemma PutLaw(s: State, l: Limits, f: Faults, w: Walk, c: Cid, block: Bytes)
    requires Good(s, l) && Distinct(w.order)
    requires Flat(c) !in s.files && !Miscounts(s, l, f, w, c, block)
    ensures var (t, ok) := Put(s, l, f, w, c, block);
            && |s.reports| <= |t.reports| && Good(t, l)
            && var left := Contents(s.files) - SetOf(Reported(s, t));
               Contents(t.files) == if ok then left[c := block] else left
  {
    hide Contents, Total, MakeRoom, Miscounts;
    var (t, ok) := Put(s, l, f, w, c, block);
    if c == "" || block == [] {
      assert Reported(s, s) == [];
      assert Contents(s.files) - {} == Contents(s.files);
    } else {
      var grow := |block| - OldSize(s, f, c);
      var room := MakeRoom(s, l, f, w, grow).0;
      RoomLaw(s, l, f, w, grow);
      if ok {
        var gone := RoomShrinks(s, l, f, w, grow);
        PutKeepsBooksIff(s, l, f, w, c, block);
        TouchFacts(room.lru, c, l.lruSize);
        WriteContents(room.files, c, block);
      }
    }
  }

  /** How many bytes a Put has to free. */
  function Missing(s: State, l: Limits, f: Faults, c: Cid, block: Bytes): int {
    s.bytes + |block| - OldSize(s, f, c) - l.maxBytes
  }

  /** The state a Put makes its room in. */
  function Roomy(s: State, f: Faults, w: Walk, n: int): State { if n <= 0 then s else Evict(s, f, w, n).0 }

  /** When a Put succeeds, whatever goes wrong: CID and block are there, directory and file
      can be made, and nothing is missing, or making room frees what is, without a failing
      walk. */
  lemma PutSucceedsIff(s: State, l: Limits, f: Faults, w: Walk, c: Cid, block: Bytes)
    requires Distinct(s.lru) && Distinct(w.order)
    ensures var n := Missing(s, l, f, c, block);
            Put(s, l, f, w, c, block).1 <==>
            && c != "" && block != [] && !f.noMkdir && !f.noWrite
            && (n <= 0 || (s.bytes - Evict(s, f, w, n).0.bytes >= n && (w.fails ==> EvictTracked(s, f, n).1 >= n)))
  {
    var n := Missing(s, l, f, c, block);
    if n > 0 {
      EvictSucceedsIff(s, f, w, n);
    }
    hide Evict, EvictTracked, OldSize;
  }

  lemma RoomIsOrderly(s: State, l: Limits, f: Faults, w: Walk, c: Cid, block: Bytes)
    requires Distinct(s.lru) && Distinct(w.order)
    ensures var room := MakeRoom(s, l, f, w, |block| - OldSize(s, f, c)).0;
            && room == Roomy(s, f, w, Missing(s, l, f, c, block))
            && Distinct(room.lru) && |room.lru| <= |s.lru|
  {
    EvictKeepsTracked(s, f, w, Missing(s, l, f, c, block));
    hide Evict, OldSize;
  }

  /** What a Put that succeeds leaves: what fits evicts nothing, the block and nothing else
      is new, and it counts as used last. */
  lemma PutLeaves(s: State, l: Limits, f: Faults, w: Walk, c: Cid, block: Bytes)
    requires Distinct(s.lru) && |s.lru| <= l.lruSize && l.lruSize > 0 && Distinct(w.order)
    requires Put(s, l, f, w, c, block).1
    ensures var t, room := Put(s, l, f, w, c, block).0, Roomy(s, f, w, Missing(s, l, f, c, block));
            && t.files == room.files[Hashed(c) := block] && t.reports == room.reports
            && UsedLast(room.lru, t.lru, c, l.lruSize)
  {
    hide Evict, OldSize, Touch, UsedLast;
    var room := MakeRoom(s, l, f, w, |block| - OldSize(s, f, c)).0;
    RoomIsOrderly(s, l, f, w, c, block);
    hide MakeRoom, Roomy, Missing;
    TouchUses(room.lru, c, l.lruSize);
  }

  /** The size of the block a lookup finds, if any. */
  function SizeOf(m: map<Cid, Bytes>, c: Cid): nat { if c in m then |m[c]| else 0 }

  lemma OldSizeIs(s: State, c: Cid)
    ensures OldSize(s, CALM, c) == SizeOf(Contents(s.files), c)
  {
    ContentsAt(s.files, c);
    hide Contents;
  }

  lemma CalmPutIs(s: State, l: Limits, w: Walk, c: Cid, block: Bytes)
    ensures var n := Missing(s, l, CALM, c, block);
            Put(s, l, CALM, w, c, block).1 <==> c != "" && block != [] && (n <= 0 || Evict(s, CALM, w, n).1)
  {
    hide Evict, OldSize;
  }

  /** Without faults and with the whole disk to walk, exactly the blocks within the budget
      can be put, a block that is there already counting for its own room. */
  lemma CalmPutSucceedsIff(s: State, l: Limits, w: Walk, c: Cid, block: Bytes)
    requires Good(s, l) && Walks(w, s.files) && !w.fails
    ensures Put(s, l, CALM, w, c, block).1 <==>
            c != "" && block != [] && |block| <= l.maxBytes + SizeOf(Contents(s.files), c)
  {
    OldSizeIs(s, c);
    var n := Missing(s, l, CALM, c, block);
    CalmPutIs(s, l, w, c, block);
    assert s.bytes == 0 ==> !Evict(s, CALM, w, n).1;
    hide Evict, OldSize, Contents, Total, Weight, OneLayout, TracksFiles, Put;
    if n > 0 && s.bytes > 0 {
      EvictsAllTrackedFirst(s, l, w, n);
    }
  }

  lemma CalmRoom(s: State, l: Limits, w: Walk, n: int) returns (k: nat)
    requires Good(s, l) && n <= Weight(Contents(s.files), s.lru)
    ensures k <= |s.lru| && Weight(Contents(s.files), s.lru[..k]) >= n
    ensures forall i :: 0 <= i < k ==> Weight(Contents(s.files), s.lru[..i]) < n
    ensures var t := Roomy(s, CALM, w, n);
            t.lru == s.lru[k..] && t.reports == s.reports + s.lru[..k]
    ensures n <= s.bytes || n <= 0
  {
    TooLittleTracked(s, n);
    var gone := TrackedShrinks(s, CALM, n);
    hide Contents, Total, Evict, EvictTracked;
    k := 0;
    if n > 0 {
      k := EvictsShortestPrefix(s, l, w, n);
    } else {
      assert s.lru[..0] == [] && s.lru[0..] == s.lru && s.reports + [] == s.reports;
    }
  }

  /** And such a Put costs no more than it needs: as long as the tracked blocks hold what
      is missing, exactly their shortest prefix that does goes, and is reported. */
  lemma CalmPutEvictsLeast(s: State, l: Limits, w: Walk, c: Cid, block: Bytes) returns (k: nat)
    requires Good(s, l) && Walks(w, s.files) && !w.fails && c != "" && block != [] && c !in Contents(s.files)
    requires Weight(Contents(s.files), s.lru) >= s.bytes + |block| - l.maxBytes
    ensures var n, m := s.bytes + |block| - l.maxBytes, Contents(s.files);
            && k <= |s.lru| && Weight(m, s.lru[..k]) >= n
            && (forall i :: 0 <= i < k ==> Weight(m, s.lru[..i]) < n)
    ensures var (t, ok) := Put(s, l, CALM, w, c, block);
            && ok && t.reports == s.reports + s.lru[..k]
            && Contents(t.files) == (Contents(s.files) - SetOf(s.lru[..k]))[c := block]
            && UsedLast(s.lru[k..], t.lru, c, l.lruSize)
  {
    OldSizeIs(s, c);
    InContents(s.files, c);
    hide OldSize, Contents, Total, Weight, Evict, EvictTracked, Roomy, UsedLast;
    k := CalmRoom(s, l, w, s.bytes + |block| - l.maxBytes);
    CalmPutSucceedsIff(s, l, w, c, block);
    PutLaw(s, l, CALM, w, c, block);
    PutLeaves(s, l, CALM, w, c, block);
    hide Put, Good;
    assert Reported(s, Put(s, l, CALM, w, c, block).0) == s.lru[..k];
  }

  // ------------------------------------------------- Get, Delete, Clear

  /** A lookup keeps the cache in order and changes nothing but, if it finds the block, its
      place in the recency list: it comes last, and the others keep their order. */
  lemma GetLaw(s: State, l: Limits, f: Faults, c: Cid)
    requires Good(s, l)
    ensures var (t, data) := Get(s, l, f, c);
            && Good(t, l) && t == s.(lru := t.lru)
            && (data.None? ==> t.lru == s.lru)
            && (data.Some? ==> UsedLast(s.lru, t.lru, c, l.lruSize))
  {
    TouchFacts(s.lru, c, l.lruSize);
    TouchUses(s.lru, c, l.lruSize);
    hide Touch, Total;
  }

  /** The block has a file, but one whose status cannot be read. */
  predicate Skips(s: State, f: Faults, c: Cid) {
    (Hashed(c) in s.files && Hashed(c) in f.noStat) || (Flat(c) in s.files && Flat(c) in f.noStat)
  }

  /** The block has a file that can be found and removed. */
  predicate Deletes(s: State, f: Faults, c: Cid) {
    || (Hashed(c) in s.files && Hashed(c) !in f.noStat && Hashed(c) !in f.stuck)
    || (Flat(c) in s.files && Flat(c) !in f.noStat && Flat(c) !in f.stuck)
  }

  lemma RemoveContents(d: Files, p: Path)
    requires OneLayout(d) && p in d
    ensures Contents(d - {p}) == Contents(d) - {p.cid}
  {
    assert p == Hashed(p.cid) || p == Flat(p.cid);
    forall x
      ensures x in Contents(d - {p}) <==> x in Contents(d) && x != p.cid
    {
      InContents(d, x);
      InContents(d - {p}, x);
    }
  }

  /** A deletion, whatever goes wrong, keeps the cache in order and removes exactly that
      block if its file can be found and removed, and nothing otherwise. It reports
      success for a block that is still there if and only if it could not read the
      status of the block's file. */
  lemma DeleteLaw(s: State, l: Limits, f: Faults, c: Cid)
    requires Good(s, l)
    ensures var (t, ok) := Delete(s, f, c);
            && Good(t, l) && t.reports == s.reports
            && Contents(t.files) == (if Deletes(s, f, c) then Contents(s.files) - {c} else Contents(s.files))
            && (ok && c in Contents(t.files) <==> Skips(s, f, c))
            && (ok && !Skips(s, f, c) ==> Contents(t.files) == Contents(s.files) - {c})
            && (!ok ==> Contents(t.files) == Contents(s.files))
  {
    hide Contents, Total;
    InContents(s.files, c);
    var t := Delete(s, f, c).0;
    InContents(t.files, c);
    if Doomed(s, f, c).Some? {
      var p := Doomed(s, f, c).value;
      TotalRemove(s.files, p);
      WithoutFacts(s.lru, c);
      RemoveContents(s.files, p);
    } else {
      assert c !in Contents(s.files) ==> Contents(s.files) - {c} == Contents(s.files);
    }
  }

  /** A deletion makes the recency list forget that block alone, if it removes it. */
  lemma DeleteForgets(s: State, f: Faults, c: Cid)
    requires Distinct(s.lru) && OneLayout(s.files)
    ensures var t := Delete(s, f, c).0;
            && (!Deletes(s, f, c) || c !in s.lru ==> t.lru == s.lru)
            && (Deletes(s, f, c) ==>
                  forall i :: 0 <= i < |s.lru| && s.lru[i] == c ==> t.lru == s.lru[..i] + s.lru[i + 1..])
  {
    WithoutFacts(s.lru, c);
    forall i | 0 <= i < |s.lru| && s.lru[i] == c
      ensures Without(s.lru, c) == s.lru[..i] + s.lru[i + 1..]
    {
      WithoutOne(s.lru, i);
    }
  }

  lemma {:induction false} TotalWithout(d: Files, ps: seq<Path>)
    requires Distinct(ps) && forall p :: p in ps ==> p in d
    ensures Total(d) == Total(d - Elems(ps)) + Weigh(d, ps)
    ensures Weigh(d, ps) == 0 <==> forall p :: p in ps ==> d[p] == []
  {
    if ps == [] {
      assert d - Elems(ps) == d;
    } else {
      var init, p := ps[..|ps| - 1], ps[|ps| - 1];
      assert ps == init + [p];
      TotalWithout(d, init);
      TotalRemove(d - Elems(init), p);
      assert d - Elems(ps) == (d - Elems(init)) - {p};
    }
  }

  /** Nothing stands in the way of a walk that removes every file. */
  ghost predicate ClearsAll(f: Faults, w: Walk) {
    !w.fails && forall p :: p in w.order ==> p !in f.stuck
  }

  /** The walk removes this file before it comes to one that it cannot remove. */
  ghost predicate Falls(f: Faults, w: Walk, i: nat) {
    i < |w.order| && forall m :: 0 <= m <= i ==> w.order[m] !in f.stuck
  }

  lemma ClearedIff(f: Faults, w: Walk)
    ensures var k := Cleared(w, f, 0);
            && (k == |w.order| && !w.fails <==> ClearsAll(f, w))
            && forall i: nat :: Falls(f, w, i) <==> i < k
  {
    var k := Cleared(w, f, 0);
    assert k < |w.order| ==> w.order[k] in w.order;
    assert forall p :: p in w.order ==> exists i :: 0 <= i < |w.order| && w.order[i] == p;
  }

  /** What a walk of `k` files removes weighs nothing exactly if they are all empty. */
  lemma PrefixWeighs(d: Files, ps: seq<Path>, k: nat)
    requires Distinct(ps) && k <= |ps| && forall p :: p in ps ==> p in d
    ensures Total(d) == Total(d - Elems(ps[..k])) <==> forall i :: 0 <= i < k ==> d[ps[i]] == []
  {
    assert Distinct(ps[..k]);
    TotalWithout(d, ps[..k]);
    assert forall i :: 0 <= i < k ==> ps[..k][i] == ps[i] && ps[i] in ps[..k];
  }

  /** Clear succeeds exactly if nothing stands in its way. It keeps the byte count exact
      if and only if it does, or no file that it removes before failing holds any
      bytes. */
  lemma ClearKeepsBooksIff(s: State, f: Faults, w: Walk)
    requires Books(s) && Walks(w, s.files)
    ensures var (t, ok) := Clear(s, f, w);
            && (ok <==> ClearsAll(f, w))
            && (ok ==> t.files == map[] && t.lru == [])
            && (Books(t) <==> ClearsAll(f, w) || forall i: nat :: Falls(f, w, i) ==> s.files[w.order[i]] == [])
  {
    var k := Cleared(w, f, 0);
    ClearedIff(f, w);
    PrefixWeighs(s.files, w.order, k);
    hide Falls, ClearsAll;
    if Clear(s, f, w).1 {
      assert w.order[..k] == w.order;
      assert s.files - Elems(w.order) == map[];
    }
  }

  /** What Clear takes away: the blocks of the files that it removes. */
  lemma ClearLeaves(s: State, f: Faults, w: Walk)
    requires OneLayout(s.files) && Walks(w, s.files)
    ensures var t := Clear(s, f, w).0;
            && t.reports == s.reports && t.files.Keys <= s.files.Keys
            && forall c :: (Hashed(c) in s.files || Flat(c) in s.files) ==>
                 (Hashed(c) in t.files || Flat(c) in t.files <==>
                    forall i: nat :: Falls(f, w, i) ==> w.order[i].cid != c)
  {
    var t, k := Clear(s, f, w).0, Cleared(w, f, 0);
    ClearedIff(f, w);
    hide Falls;
    forall c | Hashed(c) in s.files || Flat(c) in s.files
      ensures Hashed(c) in t.files || Flat(c) in t.files <==>
                forall i: nat :: Falls(f, w, i) ==> w.order[i].cid != c
    {
      var p := if Hashed(c) in s.files then Hashed(c) else Flat(c);
      assert Hashed(c) in t.files || Flat(c) in t.files <==> p !in w.order[..k];
      if p in w.order[..k] {
        var i :| 0 <= i < k && w.order[..k][i] == p;
        assert Falls(f, w, i) && w.order[i].cid == c;
      } else {
        forall i: nat | Falls(f, w, i)
          ensures w.order[i].cid != c
        {
          assert w.order[..k][i] == w.order[i] && w.order[i] in s.files;
          assert w.order[i] == Hashed(w.order[i].cid) || w.order[i] == Flat(w.order[i].cid);
        }
      }
    }
  }

  /** Whether every tracked block still has a file after Clear: it does exactly if Clear
      succeeds, or no file that it removes before failing belongs to a tracked block. */
  lemma ClearKeepsTrackedIff(s: State, l: Limits, f: Faults, w: Walk)
    requires Good(s, l) && Walks(w, s.files)
    ensures TracksFiles(Clear(s, f, w).0) <==>
            ClearsAll(f, w) || forall i: nat :: Falls(f, w, i) ==> w.order[i].cid !in s.lru
  {
    var t := Clear(s, f, w).0;
    ClearedIff(f, w);
    ClearLeaves(s, f, w);
    hide Falls, ClearsAll, Books;
    if !ClearsAll(f, w) && exists i: nat :: Falls(f, w, i) && w.order[i].cid in s.lru {
      var i: nat :| Falls(f, w, i) && w.order[i].cid in s.lru;
      assert w.order[i] in s.files && t.lru == s.lru;
    }
  }
}

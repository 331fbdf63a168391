/** The on-disk block cache: byte accounting, least-recently-used eviction with a
    whole-disk fallback, and the two file layouts. Each method is proved against a
    function that says what it leaves behind in one piece, under any faults. */
module ContentCache {
  import opened Options
  import opened Recency
  import opened Disk

  /** What a directory walk visits, and whether it fails afterwards. */
  datatype Walk = Walk(order: seq<Path>, fails: bool)

  /** The file operations that go wrong during one call: paths whose status cannot
      be read (other than for not existing), files that cannot be removed or read,
      and whether a directory cannot be made or a file not be opened for writing. */
  datatype Faults = Faults(noStat: set<Path>, stuck: set<Path>, unreadable: set<Path>,
                           noMkdir: bool, noWrite: bool)

  /** `reports` is every CID the eviction callback has been given. */
  datatype State = State(files: Files, lru: seq<Cid>, bytes: int, reports: seq<Cid>)

  datatype Limits = Limits(maxBytes: int, lruSize: nat)

  // ---------------------------------------------------- what calls leave

  /** The file an eviction finds for a tracked CID, if any. */
  function Locate(d: Files, f: Faults, c: Cid): Option<Path> {
    if Hashed(c) in f.noStat then None
    else if Hashed(c) in d then Some(Hashed(c))
    else if Flat(c) in d && Flat(c) !in f.noStat then Some(Flat(c))
    else None
  }

  function Tracked(d: Files, f: Faults, q: seq<Cid>): seq<Option<Path>> {
    seq(|q|, i requires 0 <= i < |q| => Locate(d, f, q[i]))
  }

  function Cids(ps: seq<Path>): seq<Cid> {
    seq(|ps|, i requires 0 <= i < |ps| => ps[i].cid)
  }

  function Visited(w: Walk): seq<Option<Path>> {
    seq(|w.order|, i requires 0 <= i < |w.order| => Some(w.order[i]))
  }

  /** The state once the files behind the first `k` of `ts` have been removed. */
  function Swept(s: State, f: Faults, ts: seq<Option<Path>>, k: nat): State
    requires k <= |ts|
  {
    var gone := Gone(s.files, f.stuck, ts[..k]);
    s.(files := s.files - Elems(gone), bytes := s.bytes - Sum(s.files, f.stuck, ts[..k]),
       reports := s.reports + Cids(gone))
  }

  /** Eviction from the recency list alone: its shortest prefix that frees `n`. */
  function EvictTracked(s: State, f: Faults, n: int): (r: (State, nat)) {
    var ts := Tracked(s.files, f, s.lru);
    var k := Cut(s.files, f.stuck, ts, n);
    (Swept(s, f, ts, k).(lru := s.lru[k..]), Sum(s.files, f.stuck, ts[..k]))
  }

  /** Eviction by walking the disk. */
  function EvictWalked(s: State, f: Faults, w: Walk, n: int): (State, bool) {
    if s.bytes == 0 then (s, false)
    else
      var ts := Visited(w);
      var k := Cut(s.files, f.stuck, ts, n);
      (Swept(s, f, ts, k), !w.fails && Sum(s.files, f.stuck, ts[..k]) >= n)
  }

  function Evict(s: State, f: Faults, w: Walk, n: int): (State, bool) {
    if s.bytes == 0 then (s, false)
    else
      var (s', freed) := EvictTracked(s, f, n);
      if freed >= n then (s', true) else EvictWalked(s', f, w, n - freed)
  }

  /** The size Put takes a present block to have. */
  function OldSize(s: State, f: Faults, c: Cid): nat {
    if Hashed(c) in f.noStat then 0
    else if Hashed(c) in s.files then |s.files[Hashed(c)]|
    else if Flat(c) in s.files && Flat(c) !in f.noStat then |s.files[Flat(c)]|
    else 0
  }

  /** The state in which Put writes its block, unless making room fails. */
  function MakeRoom(s: State, l: Limits, f: Faults, w: Walk, grow: int): (State, bool) {
    if s.bytes + grow <= l.maxBytes then (s, true)
    else Evict(s, f, w, grow - (l.maxBytes - s.bytes))
  }

  function Put(s: State, l: Limits, f: Faults, w: Walk, c: Cid, block: Bytes): (State, bool) {
    if c == "" || block == [] then (s, false)
    else
      var grow := |block| - OldSize(s, f, c);
      var (s', ok) := MakeRoom(s, l, f, w, grow);
      if !ok || f.noMkdir || f.noWrite then (s', false)
      else (s'.(files := s'.files[Hashed(c) := block], bytes := s'.bytes + grow,
                lru := Touch(s'.lru, c, l.lruSize)), true)
  }

  datatype Request = Request(c: Cid, block: Bytes, f: Faults, w: Walk)

  /** Puts in order, up to and including the first that fails. */
  function PutMany(s: State, l: Limits, rs: seq<Request>): (State, bool)
    decreases |rs|
  {
    if rs == [] then (s, true)
    else
      var (t, ok) := Put(s, l, rs[0].f, rs[0].w, rs[0].c, rs[0].block);
      if ok then PutMany(t, l, rs[1..]) else (t, false)
  }

  /** One more put is made exactly if all before it have succeeded. */
  lemma {:induction false} PutManyMore(s: State, l: Limits, rs: seq<Request>, r: Request)
    ensures var (t, ok) := PutMany(s, l, rs);
            PutMany(s, l, rs + [r]) == if ok then Put(t, l, r.f, r.w, r.c, r.block) else (t, false)
    decreases |rs|
  {
    hide Put;
    if rs == [] {
      assert [r][1..] == [];
    } else {
      var t := Put(s, l, rs[0].f, rs[0].w, rs[0].c, rs[0].block).0;
      assert (rs + [r])[1..] == rs[1..] + [r] && (rs + [r])[0] == rs[0];
      PutManyMore(t, l, rs[1..], r);
    }
  }

  /** The file a lookup reads, if it gets that far. */
  function Found(s: State, f: Faults, c: Cid): Option<Path> {
    var p := Locate(s.files, f, c);
    if c == "" || p.None? || p.value in f.unreadable then None else p
  }

  function Get(s: State, l: Limits, f: Faults, c: Cid): (State, Option<Bytes>) {
    match Found(s, f, c)
    case None => (s, None)
    case Some(p) =>
      (s.(lru := Touch(s.lru, c, l.lruSize)), if p in s.files then Some(s.files[p]) else None)
  }

  /** Whether the block is taken to be cached. */
  predicate Present(s: State, f: Faults, c: Cid) {
    c in s.lru || (Hashed(c) in s.files && Hashed(c) !in f.noStat) || (Flat(c) in s.files && Flat(c) !in f.noStat)
  }

  /** The file DeleteBlock goes for. */
  function Doomed(s: State, f: Faults, c: Cid): Option<Path> {
    if Hashed(c) in s.files && Hashed(c) !in f.noStat then Some(Hashed(c))
    else if Flat(c) in s.files && Flat(c) !in f.noStat then Some(Flat(c))
    else None
  }

  function Delete(s: State, f: Faults, c: Cid): (State, bool) {
    match Doomed(s, f, c)
    case None => (s, true)
    case Some(p) =>
      if p in f.stuck || p !in s.files then (s, false)
      else (s.(files := s.files - {p}, bytes := s.bytes - |s.files[p]|, lru := Without(s.lru, c)), true)
  }

  /** How many files of a walk Clear removes before one cannot be removed. */
  function Cleared(w: Walk, f: Faults, i: nat): (k: nat)
    requires i <= |w.order|
    ensures i <= k <= |w.order|
    ensures k < |w.order| ==> w.order[k] in f.stuck
    ensures forall m :: i <= m < k ==> w.order[m] !in f.stuck
    decreases |w.order| - i
  {
    if i == |w.order| || w.order[i] in f.stuck then i else Cleared(w, f, i + 1)
  }

  function Clear(s: State, f: Faults, w: Walk): (State, bool) {
    var k := Cleared(w, f, 0);
    var s' := s.(files := s.files - Elems(w.order[..k]));
    if k < |w.order| || w.fails then (s', false) else (s'.(lru := [], bytes := 0), true)
  }

  function TouchAll(q: seq<Cid>, ps: seq<Path>, cap: nat): seq<Cid> {
    if ps == [] then q else Touch(TouchAll(q, ps[..|ps| - 1], cap), ps[|ps| - 1].cid, cap)
  }

  /** The cache opened over an existing directory. */
  ghost function Open(d: Files, l: Limits, order: seq<Path>): State {
    State(d, TouchAll([], order, l.lruSize), Total(d), [])
  }

  /** A walk visits files of the directory, none twice, and all of them if it does
      not fail. */
  ghost predicate Walks(w: Walk, d: Files) {
    && Distinct(w.order)
    && (forall p :: p in w.order ==> p in d)
    && (!w.fails ==> forall p :: p in d ==> p in w.order)
  }

  // ------------------------------------------------- loop steps, in lemmas

  /** Making room takes a prefix off the recency list. */
  lemma RoomKeepsSuffix(s: State, l: Limits, f: Faults, w: Walk, grow: int) returns (k: nat)
    ensures k <= |s.lru| && MakeRoom(s, l, f, w, grow).0.lru == s.lru[k..]
  {
    hide Locate, Sum, Gone;
    k := 0;
    if s.bytes + grow > l.maxBytes && s.bytes != 0 {
      k := Cut(s.files, f.stuck, Tracked(s.files, f, s.lru), grow - (l.maxBytes - s.bytes));
    }
  }

  lemma PutKeepsRecency(s: State, l: Limits, r: Request)
    requires Distinct(s.lru) && |s.lru| <= l.lruSize && l.lruSize > 0
    ensures var t := Put(s, l, r.f, r.w, r.c, r.block).0;
            Distinct(t.lru) && |t.lru| <= l.lruSize
  {
    hide MakeRoom, OldSize;
    var grow := |r.block| - OldSize(s, r.f, r.c);
    var k := RoomKeepsSuffix(s, l, r.f, r.w, grow);
    TouchFacts(MakeRoom(s, l, r.f, r.w, grow).0.lru, r.c, l.lruSize);
  }

  lemma OneMoreFile(d: Files, order: seq<Path>, i: nat)
    requires Distinct(order) && i < |order| && order[i] in d
    ensures Total(d - Elems(order[..i])) == |d[order[i]]| + Total(d - Elems(order[..i + 1]))
  {
    assert order[..i + 1] == order[..i] + [order[i]];
    assert d - Elems(order[..i + 1]) == (d - Elems(order[..i])) - {order[i]};
    TotalRemove(d - Elems(order[..i]), order[i]);
  }

  lemma SweptNone(s: State, f: Faults, ts: seq<Option<Path>>)
    ensures Swept(s, f, ts, 0) == s && Sum(s.files, f.stuck, ts[..0]) == 0
  {
    assert s.files - Elems([]) == s.files && s.reports + Cids([]) == s.reports;
  }

  lemma SweptNext(s: State, f: Faults, ts: seq<Option<Path>>, i: nat)
    requires i < |ts|
    ensures var t := Swept(s, f, ts, i);
            Swept(s, f, ts, i + 1)
            == if Goes(s.files, f.stuck, ts[i])
               then t.(files := t.files - {ts[i].value}, bytes := t.bytes - |s.files[ts[i].value]|,
                       reports := t.reports + [ts[i].value.cid])
               else t
  {
    SumNext(s.files, f.stuck, ts, i);
    var g := Gone(s.files, f.stuck, ts[..i]);
    if Goes(s.files, f.stuck, ts[i]) {
      var p := ts[i].value;
      assert s.files - Elems(g + [p]) == (s.files - Elems(g)) - {p};
      assert Cids(g + [p]) == Cids(g) + [p.cid];
    } else {
      assert g + [] == g;
    }
  }

  lemma TrackedApart(s: State, f: Faults)
    requires Distinct(s.lru)
    ensures Apart(Tracked(s.files, f, s.lru))
  {
  }

  /** Sweeping the first tracked blocks leaves the file of the next one alone. */
  lemma OthersUntouched(s: State, f: Faults, i: nat)
    requires Distinct(s.lru) && i < |s.lru|
    ensures var d := Swept(s, f, Tracked(s.files, f, s.lru), i).files;
            var p := Locate(s.files, f, s.lru[i]);
            Locate(d, f, s.lru[i]) == p && (p.Some? ==> p.value in d && d[p.value] == s.files[p.value])
  {
    hide Sum, Gone;
    var ts := Tracked(s.files, f, s.lru);
    TrackedApart(s, f);
    assert Apart(ts[..i]);
    GoneFacts(s.files, f.stuck, ts[..i]);
    var g := Gone(s.files, f.stuck, ts[..i]);
    forall p | p in g
      ensures p.cid != s.lru[i]
    {
      var m :| 0 <= m < i && ts[..i][m] == Some(p);
      assert p.cid == s.lru[m];
    }
  }

  /** One turn of the eviction loop. */
  lemma TrackedNext(s: State, f: Faults, i: nat)
    requires Distinct(s.lru) && i < |s.lru|
    ensures var ts := Tracked(s.files, f, s.lru);
            var t := Swept(s, f, ts, i);
            var p := Locate(t.files, f, s.lru[i]);
            if p.Some? && p.value !in f.stuck then
              && p.value in t.files
              && Swept(s, f, ts, i + 1)
                 == t.(files := t.files - {p.value}, bytes := t.bytes - |t.files[p.value]|,
                       reports := t.reports + [s.lru[i]])
              && Sum(s.files, f.stuck, ts[..i + 1]) == Sum(s.files, f.stuck, ts[..i]) + |t.files[p.value]|
            else
              && Swept(s, f, ts, i + 1) == t
              && Sum(s.files, f.stuck, ts[..i + 1]) == Sum(s.files, f.stuck, ts[..i])
  {
    OthersUntouched(s, f, i);
    SweptNext(s, f, Tracked(s.files, f, s.lru), i);
    SumNext(s.files, f.stuck, Tracked(s.files, f, s.lru), i);
  }

  /** The loop stops where the shortest sufficient prefix ends. */
  lemma TrackedDone(s: State, f: Faults, n: int, i: nat)
    requires i <= |s.lru|
    requires var ts := Tracked(s.files, f, s.lru);
             && (forall m :: 0 <= m < i ==> Sum(s.files, f.stuck, ts[..m]) < n)
             && (Sum(s.files, f.stuck, ts[..i]) >= n || i == |s.lru|)
    ensures var ts := Tracked(s.files, f, s.lru);
            EvictTracked(s, f, n) == (Swept(s, f, ts, i).(lru := s.lru[i..]), Sum(s.files, f.stuck, ts[..i]))
  {
  }

  function Least(i: nat, k: nat): nat { if i <= k then i else k }

  lemma WalkedUntouched(s: State, f: Faults, w: Walk, i: nat)
    requires Distinct(w.order) && i < |w.order|
    ensures var d := Swept(s, f, Visited(w), i).files;
            && (w.order[i] in d <==> w.order[i] in s.files)
            && (w.order[i] in d ==> d[w.order[i]] == s.files[w.order[i]])
  {
    var ts := Visited(w);
    assert Apart(ts[..i]);
    GoneFacts(s.files, f.stuck, ts[..i]);
    assert forall m :: 0 <= m < i ==> ts[..i][m] == Some(w.order[m]) != Some(w.order[i]);
  }

  /** One turn of the walk: it acts as long as too little has been freed, which is up
      to the cut. */
  lemma WalkedNext(s: State, f: Faults, w: Walk, n: int, i: nat)
    requires Distinct(w.order) && i <= |w.order|
    ensures var ts := Visited(w);
            var k := Cut(s.files, f.stuck, ts, n);
            && k <= |w.order|
            && (i < |w.order| ==>
                  var t, freed := Swept(s, f, ts, Least(i, k)), Sum(s.files, f.stuck, ts[..Least(i, k)]);
                  var t', p := Swept(s, f, ts, Least(i + 1, k)), w.order[i];
                  if freed < n && p in t.files && p !in f.stuck then
                    && t' == t.(files := t.files - {p}, bytes := t.bytes - |t.files[p]|, reports := t.reports + [p.cid])
                    && Sum(s.files, f.stuck, ts[..Least(i + 1, k)]) == freed + |t.files[p]|
                  else t' == t && Sum(s.files, f.stuck, ts[..Least(i + 1, k)]) == freed)
  {
    hide Swept, Sum, Gone;
    var ts := Visited(w);
    var k := Cut(s.files, f.stuck, ts, n);
    if i < k {
      WalkedUntouched(s, f, w, i);
      SumNext(s.files, f.stuck, ts, i);
      SweptNext(s, f, ts, i);
    }
  }

  // -------------------------------------------------- the cache as an object

  class Cache {
    var files: Files
    var lru: seq<Cid>
    var bytes: int
    var reports: seq<Cid>
    const maxBytes: int
    const lruSize: nat

    function View(): State
      reads this
    {
      State(files, lru, bytes, reports)
    }

    function Caps(): Limits {
      Limits(maxBytes, lruSize)
    }

    /** Opening scans the directory: every file counts, and every block found is
        tracked, the last ones seen being the most recent. */
    constructor (d: Files, l: Limits, order: seq<Path>)
      requires Walks(Walk(order, false), d)
      ensures View() == Open(d, l, order) && Caps() == l
    {
      var q, sum := [], 0;
      files, maxBytes, lruSize, reports := d, l.maxBytes, l.lruSize, [];
      assert d - Elems(order[..0]) == d;
      for i := 0 to |order|
        invariant q == TouchAll([], order[..i], l.lruSize)
        invariant sum + Total(d - Elems(order[..i])) == Total(d)
      {
        OneMoreFile(d, order, i);
        sum := sum + |d[order[i]]|;
        assert order[..i + 1][..i] == order[..i];
        q := Touch(q, order[i].cid, l.lruSize);
      }
      assert order[..|order|] == order && d - Elems(order) == map[];
      lru, bytes := q, sum;
    }

    /** The eviction loop over the recency list. */
    method EvictOldest(f: Faults, n: int) returns (freed: nat)
      requires Distinct(lru)
      modifies this`files, this`lru, this`bytes, this`reports
      ensures (View(), freed) == EvictTracked(old(View()), f, n)
    {
      hide Swept, Sum, Cut, EvictTracked;
      ghost var s := View();
      ghost var ts := Tracked(s.files, f, s.lru);
      freed := 0;
      var i := 0;
      SweptNone(s, f, ts);
      while freed < n && lru != []
        invariant i <= |s.lru| && lru == s.lru[i..]
        invariant View() == Swept(s, f, ts, i).(lru := s.lru[i..])
        invariant freed == Sum(s.files, f.stuck, ts[..i])
        invariant forall m :: 0 <= m < i ==> Sum(s.files, f.stuck, ts[..m]) < n
        decreases |lru|
      {
        var c := lru[0];
        TrackedNext(s, f, i);
        var p := Locate(files, f, c);
        lru := lru[1..];
        if p.Some? && p.value !in f.stuck {
          var size := |files[p.value]|;
          files := files - {p.value};
          bytes := bytes - size;
          freed := freed + size;
          reports := reports + [c];
        }
        i := i + 1;
      }
      TrackedDone(s, f, n, i);
    }

    /** Eviction: least recently used first, and, once nothing is tracked any
        more, by walking the disk. */
    method EvictLocked(f: Faults, w: Walk, n: int) returns (ok: bool)
      requires Distinct(lru) && Distinct(w.order)
      modifies this`files, this`lru, this`bytes, this`reports
      ensures (View(), ok) == Evict(old(View()), f, w, n)
    {
      if bytes == 0 { return false; }
      var freed := EvictOldest(f, n);
      if freed < n {
        ok := EvictFromDiskLocked(f, w, n - freed);
      } else {
        ok := true;
      }
    }

    method EvictFromDiskLocked(f: Faults, w: Walk, n: int) returns (ok: bool)
      requires Distinct(w.order)
      modifies this`files, this`bytes, this`reports
      ensures (View(), ok) == EvictWalked(old(View()), f, w, n)
    {
      hide Swept, Sum, Gone, Cut;
      if bytes == 0 { return false; }
      ghost var s := View();
      ghost var ts := Visited(w);
      ghost var k := Cut(s.files, f.stuck, ts, n);
      var freed := 0;
      SweptNone(s, f, ts);
      WalkedNext(s, f, w, n, 0);
      for i := 0 to |w.order|
        invariant k <= |w.order|
        invariant View() == Swept(s, f, ts, Least(i, k)) && freed == Sum(s.files, f.stuck, ts[..Least(i, k)])
      {
        WalkedNext(s, f, w, n, i);
        var p := w.order[i];
        if freed < n && p in files && p !in f.stuck {
          var size := |files[p]|;
          files := files - {p};
          bytes := bytes - size;
          freed := freed + size;
          reports := reports + [p.cid];
        }
      }
      return !w.fails && freed >= n;
    }

    /** Makes room for `grow` more bytes unless they fit already. */
    method Room(f: Faults, w: Walk, grow: int) returns (ok: bool)
      requires Distinct(lru) && Distinct(w.order)
      modifies this`files, this`lru, this`bytes, this`reports
      ensures (View(), ok) == MakeRoom(old(View()), Caps(), f, w, grow)
    {
      ok := true;
      if !(bytes + grow <= maxBytes) {
        ok := EvictLocked(f, w, grow - (maxBytes - bytes));
      }
    }

    method PutBlock(f: Faults, w: Walk, c: Cid, block: Bytes) returns (ok: bool)
      requires Distinct(lru) && Distinct(w.order)
      modifies this`files, this`lru, this`bytes, this`reports
      ensures (View(), ok) == Put(old(View()), Caps(), f, w, c, block)
    {
      hide MakeRoom;
      if c == "" || block == [] { return false; }
      var old_ := 0;
      if Hashed(c) !in f.noStat {
        if Hashed(c) in files {
          old_ := |files[Hashed(c)]|;
        } else if Flat(c) in files && Flat(c) !in f.noStat {
          old_ := |files[Flat(c)]|;
        }
      }
      var room := Room(f, w, |block| - old_);
      if !room { return false; }
      if f.noMkdir || f.noWrite { return false; }
      files := files[Hashed(c) := block];
      bytes := bytes + (|block| - old_);
      lru := Touch(lru, c, lruSize);
      return true;
    }

    method PutBlocks(rs: seq<Request>) returns (ok: bool)
      requires Distinct(lru) && |lru| <= lruSize && lruSize > 0
      requires forall r :: r in rs ==> Distinct(r.w.order)
      modifies this`files, this`lru, this`bytes, this`reports
      ensures (View(), ok) == PutMany(old(View()), Caps(), rs)
    {
      for i := 0 to |rs|
        invariant Distinct(lru) && |lru| <= lruSize
        invariant PutMany(View(), Caps(), rs[i..]) == PutMany(old(View()), Caps(), rs)
      {
        PutKeepsRecency(View(), Caps(), rs[i]);
        ok := PutBlock(rs[i].f, rs[i].w, rs[i].c, rs[i].block);
        assert rs[i..][1..] == rs[i + 1..];
        if !ok { return; }
      }
      ok := true;
    }

    method GetBlock(f: Faults, c: Cid) returns (data: Option<Bytes>)
      modifies this`lru
      ensures (View(), data) == Get(old(View()), Caps(), f, c)
    {
      if c == "" || Hashed(c) in f.noStat { return None; }
      var p := Hashed(c);
      if p !in files {
        p := Flat(c);
        if p !in files || p in f.noStat { return None; }
      }
      if p in f.unreadable { return None; }
      lru := Touch(lru, c, lruSize);
      return Some(files[p]);
    }

    method DeleteBlock(f: Faults, c: Cid) returns (ok: bool)
      modifies this`files, this`lru, this`bytes
      ensures (View(), ok) == Delete(old(View()), f, c)
    {
      var removed := false;
      if Hashed(c) in files && Hashed(c) !in f.noStat {
        if Hashed(c) in f.stuck { return false; }
        bytes := bytes - |files[Hashed(c)]|;
        files := files - {Hashed(c)};
        lru := Without(lru, c);
        removed := true;
      }
      if !removed {
        if Flat(c) in files && Flat(c) !in f.noStat {
          if Flat(c) in f.stuck { return false; }
          bytes := bytes - |files[Flat(c)]|;
          files := files - {Flat(c)};
          lru := Without(lru, c);
        }
      }
      return true;
    }

    /** A failed Clear has removed some files already and corrected nothing. */
    method ClearAll(f: Faults, w: Walk) returns (ok: bool)
      modifies this`files, this`lru, this`bytes
      ensures (View(), ok) == Clear(old(View()), f, w)
    {
      ghost var d := files;
      assert d - Elems([]) == d;
      for i := 0 to |w.order|
        invariant files == d - Elems(w.order[..i]) && lru == old(lru) && bytes == old(bytes)
        invariant forall m :: 0 <= m < i ==> w.order[m] !in f.stuck
      {
        if w.order[i] in f.stuck { return false; }
        assert w.order[..i + 1] == w.order[..i] + [w.order[i]];
        assert d - Elems(w.order[..i + 1]) == (d - Elems(w.order[..i])) - {w.order[i]};
        files := files - {w.order[i]};
      }
      if w.fails { return false; }
      lru, bytes := [], 0;
      return true;
    }

    /** Whether the block is cached: the recency list is asked first. */
    method Has(f: Faults, c: Cid) returns (has: bool)
      ensures has <==> Present(View(), f, c)
    {
      if c in lru { return true; }
      if Hashed(c) in files && Hashed(c) !in f.noStat { return true; }
      return Flat(c) in files && Flat(c) !in f.noStat;
    }

    method GetSize(f: Faults, c: Cid) returns (size: Option<nat>)
      ensures size == match Doomed(View(), f, c)
                      case None => None
                      case Some(p) => if p in files then Some(|files[p]|) else None
    {
      if Hashed(c) in files && Hashed(c) !in f.noStat { return Some(|files[Hashed(c)]|); }
      if Flat(c) in files && Flat(c) !in f.noStat { return Some(|files[Flat(c)]|); }
      return None;
    }
  }
}

/** The block cache over whole runs: a plain map of blocks, exact accounting and
    the budget, through any sequence of operations under faults; and concrete runs
    in which the code itself breaks its accounting. */
module BlockMap {
  import opened Options
  import opened Recency
  import opened Disk
  import CC = ContentCache
  import opened ContentLaws

  datatype Op =
    | Put(c: Cid, block: Bytes, f: CC.Faults, w: CC.Walk)
    | Get(c: Cid, f: CC.Faults)
    | Evict(n: int, f: CC.Faults, w: CC.Walk)
    | Delete(c: Cid, f: CC.Faults)
    | Clear(f: CC.Faults, w: CC.Walk)

  function Next(s: CC.State, l: CC.Limits, op: Op): (CC.State, bool) {
    match op
    case Put(c, block, f, w) => CC.Put(s, l, f, w, c, block)
    case Get(c, f) => var (t, data) := CC.Get(s, l, f, c); (t, data.Some?)
    case Evict(n, f, w) => CC.Evict(s, f, w, n)
    case Delete(c, f) => CC.Delete(s, f, c)
    case Clear(f, w) => CC.Clear(s, f, w)
  }

  /** The hypotheses on an operation: no Put onto a block stored flat only or one
      that would miscount, and no Clear that fails after it has removed something. */
  ghost predicate Allowed(s: CC.State, l: CC.Limits, op: Op) {
    match op
    case Put(c, block, f, w) => Distinct(w.order) && Flat(c) !in s.files && !Miscounts(s, l, f, w, c, block)
    case Get(_, _) => true
    case Evict(_, _, w) => Distinct(w.order)
    case Delete(_, _) => true
    case Clear(f, w) => CC.Walks(w, s.files) && (ClearsAll(f, w) || !Falls(f, w, 0))
  }

  /** Whether an operation did what it reports: a deletion of a block whose status
      cannot be read reports success and does nothing. */
  predicate Succeeds(s: CC.State, op: Op, ok: bool) {
    ok && !(op.Delete? && Skips(s, op.f, op.c))
  }

  /** The map a caller keeps from what it is told: what it put, less what it deleted
      and what the eviction callback reported. */
  function Told(m: map<Cid, Bytes>, op: Op, ok: bool, reported: seq<Cid>): map<Cid, Bytes> {
    match op
    case Put(c, block, _, _) => var left := m - SetOf(reported); if ok then left[c := block] else left
    case Get(_, _) => m
    case Evict(_, _, _) => m - SetOf(reported)
    case Delete(c, _) => if ok then m - {c} else m
    case Clear(_, _) => if ok then map[] else m
  }

  ghost function NewReports(s: CC.State, t: CC.State): seq<Cid> {
    if |s.reports| <= |t.reports| then Reported(s, t) else []
  }

  ghost function Exec(s: CC.State, l: CC.Limits, ops: seq<Op>): (CC.State, map<Cid, Bytes>) {
    if ops == [] then (s, Contents(s.files))
    else
      var (t, m) := Exec(s, l, ops[..|ops| - 1]);
      var op := ops[|ops| - 1];
      var (u, ok) := Next(t, l, op);
      (u, Told(m, op, Succeeds(t, op, ok), NewReports(t, u)))
  }

  ghost predicate AllAllowed(s: CC.State, l: CC.Limits, ops: seq<Op>) {
    ops == [] ||
    (AllAllowed(s, l, ops[..|ops| - 1])
     && Allowed(Exec(s, l, ops[..|ops| - 1]).0, l, ops[|ops| - 1]))
  }

  lemma StepLaw(s: CC.State, l: CC.Limits, op: Op)
    requires Good(s, l) && Allowed(s, l, op)
    ensures var (t, ok) := Next(s, l, op);
            Good(t, l) && Contents(t.files) == Told(Contents(s.files), op, Succeeds(s, op, ok), NewReports(s, t))
  {
    match op {
      case Put(c, block, f, w) => PutLaw(s, l, f, w, c, block);
      case Get(c, f) => GetLaw(s, l, f, c);
      case Evict(n, f, w) => EvictLaw(s, l, f, w, n);
      case Delete(c, f) => DeleteLaw(s, l, f, c);
      case Clear(f, w) =>
        ClearKeepsBooksIff(s, f, w);
        assert s.files - Elems([]) == s.files;
    }
  }

  /** After any sequence of operations, with files that cannot be removed, made,
      read or written along the way and with the recency list forgetting blocks at
      its own capacity: the byte count is the sum of the file sizes and within the
      budget, every tracked block has its file, and the blocks a lookup finds are
      exactly those of the map the caller was told about. */
  lemma {:induction false} CacheRefinesMap(s: CC.State, l: CC.Limits, ops: seq<Op>)
    requires Good(s, l) && AllAllowed(s, l, ops)
    ensures var (t, m) := Exec(s, l, ops);
            Good(t, l) && Contents(t.files) == m
  {
    if ops != [] {
      CacheRefinesMap(s, l, ops[..|ops| - 1]);
      StepLaw(Exec(s, l, ops[..|ops| - 1]).0, l, ops[|ops| - 1]);
    }
  }

  // ------------------------------------------- content-addressed blocks

  /** Every file is in the hashed layout and holds the block of its CID. */
  ghost predicate Addressed(d: Files, blocks: Cid -> Bytes) {
    forall p :: p in d ==> p.Hashed? && d[p] == blocks(p.cid)
  }

  /** The operation puts no other block under a CID than its own, and none whose file is
      there but cannot have its status read; the rest is as in any run. */
  ghost predicate Plain(s: CC.State, op: Op, blocks: Cid -> Bytes) {
    match op
    case Put(c, block, f, w) =>
      Distinct(w.order) && block == blocks(c) && (Hashed(c) in s.files ==> Hashed(c) !in f.noStat)
    case Get(_, _) => true
    case Evict(_, _, w) => Distinct(w.order)
    case Delete(_, _) => true
    case Clear(f, w) => CC.Walks(w, s.files) && (ClearsAll(f, w) || !Falls(f, w, 0))
  }

  ghost predicate AllPlain(s: CC.State, l: CC.Limits, ops: seq<Op>, blocks: Cid -> Bytes) {
    ops == [] ||
    (AllPlain(s, l, ops[..|ops| - 1], blocks)
     && Plain(Exec(s, l, ops[..|ops| - 1]).0, ops[|ops| - 1], blocks))
  }

  /** Putting a block of a content-addressed cache never miscounts. */
  lemma PlainPutIsAllowed(s: CC.State, l: CC.Limits, op: Op, blocks: Cid -> Bytes)
    requires Good(s, l) && Addressed(s.files, blocks) && op.Put? && Plain(s, op, blocks)
    ensures Allowed(s, l, op) && Addressed(Next(s, l, op).0.files, blocks)
  {
    assert Flat(op.c) !in s.files;
    if Hashed(op.c) in s.files {
      SameLengthIsSafe(s, l, op.f, op.w, op.c, op.block);
    }
    var gone := RoomShrinks(s, l, op.f, op.w, |op.block| - CC.OldSize(s, op.f, op.c));
    hide CC.MakeRoom, Good, Touch;
  }

  lemma PlainIsAllowed(s: CC.State, l: CC.Limits, op: Op, blocks: Cid -> Bytes)
    requires Good(s, l) && Addressed(s.files, blocks) && Plain(s, op, blocks)
    ensures Allowed(s, l, op) && Addressed(Next(s, l, op).0.files, blocks)
  {
    if op.Put? {
      PlainPutIsAllowed(s, l, op, blocks);
    } else if op.Evict? {
      var gone := EvictShrinks(s, op.f, op.w, op.n);
      hide CC.Evict;
    }
  }

  lemma {:induction false} PlainRuns(s: CC.State, l: CC.Limits, ops: seq<Op>, blocks: Cid -> Bytes)
    requires Good(s, l) && Addressed(s.files, blocks) && AllPlain(s, l, ops, blocks)
    ensures AllAllowed(s, l, ops) && Addressed(Exec(s, l, ops).0.files, blocks)
  {
    if ops != [] {
      var init := ops[..|ops| - 1];
      PlainRuns(s, l, init, blocks);
      CacheRefinesMap(s, l, init);
      PlainIsAllowed(Exec(s, l, init).0, l, ops[|ops| - 1], blocks);
    }
  }

  /** Hence, with content-addressed blocks and no flat files to start from, the cache is
      the caller's map, exact and within budget, after any sequence of operations: no
      Put has to be excluded but of a block whose present file's status cannot be read. */
  lemma {:induction false} AddressedCacheRefinesMap(s: CC.State, l: CC.Limits, ops: seq<Op>, blocks: Cid -> Bytes)
    requires Good(s, l) && Addressed(s.files, blocks) && AllPlain(s, l, ops, blocks)
    ensures var (t, m) := Exec(s, l, ops);
            && Good(t, l) && Contents(t.files) == m
            && forall c :: c in m ==> m[c] == blocks(c)
  {
    PlainRuns(s, l, ops, blocks);
    CacheRefinesMap(s, l, ops);
    var t := Exec(s, l, ops).0;
    forall c | c in Contents(t.files)
      ensures Contents(t.files)[c] == blocks(c)
    {
      InContents(t.files, c);
    }
  }

  // ------------------------------------------------------------- lookups

  /** The file of a block that is there. */
  function FileOf(d: Files, c: Cid): Path { if Hashed(c) in d then Hashed(c) else Flat(c) }

  /** In an orderly cache Has, Get and GetSize answer that map, as far as the status of
      the block's file, and its contents, can be read; a tracked block needs no file
      to be reported present. */
  lemma LookupsAgree(s: CC.State, l: CC.Limits, f: CC.Faults, c: Cid)
    requires Good(s, l)
    ensures var m, p := Contents(s.files), FileOf(s.files, c);
            && (CC.Present(s, f, c) <==> c in m && (c in s.lru || p !in f.noStat))
            && CC.Get(s, l, f, c).1 == (if c in m && Hashed(c) !in f.noStat && p !in f.noStat + f.unreadable
                                        then Some(m[c]) else None)
            && (CC.Doomed(s, f, c).Some? <==> c in m && p !in f.noStat)
            && (CC.Doomed(s, f, c).Some? ==> CC.Doomed(s, f, c).value == p && |s.files[p]| == |m[c]|)
  {
    InContents(s.files, c);
  }

  // ----------------------------------------------------------- opening

  /** The last keys that the list has room for. */
  function Latest(q: seq<Cid>, cap: nat): seq<Cid> {
    if |q| <= cap then q else q[|q| - cap..]
  }

  lemma CidsApart(d: Files, ps: seq<Path>)
    requires OneLayout(d) && Distinct(ps) && forall p :: p in ps ==> p in d
    ensures Distinct(CC.Cids(ps))
  {
    forall i, k | 0 <= i < k < |ps|
      ensures CC.Cids(ps)[i] != CC.Cids(ps)[k]
    {
      assert ps[i] in d && ps[k] in d && ps[i] != ps[k];
      assert ps[i] == Hashed(ps[i].cid) || ps[i] == Flat(ps[i].cid);
      assert ps[k] == Hashed(ps[k].cid) || ps[k] == Flat(ps[k].cid);
    }
  }

  lemma TouchLatest(q: seq<Cid>, c: Cid, cap: nat)
    requires cap > 0 && Distinct(q) && c !in q
    ensures Touch(Latest(q, cap), c, cap) == Latest(q + [c], cap)
  {
    TouchUses(Latest(q, cap), c, cap);
    hide Touch;
    assert forall x :: x in Latest(q, cap) ==> x in q;
    if |q| >= cap {
      assert (q + [c])[|q| + 1 - cap..] == q[|q| - cap..][1..] + [c];
    }
  }

  lemma {:induction false} TouchAllFacts(ps: seq<Path>, cap: nat)
    requires cap > 0 && Distinct(CC.Cids(ps))
    ensures CC.TouchAll([], ps, cap) == Latest(CC.Cids(ps), cap)
  {
    if ps != [] {
      var init, c := ps[..|ps| - 1], ps[|ps| - 1].cid;
      assert CC.Cids(ps) == CC.Cids(init) + [c];
      assert CC.Cids(ps)[|init|] == c;
      assert forall i :: 0 <= i < |init| ==> CC.Cids(init)[i] == CC.Cids(ps)[i] != c;
      assert Distinct(CC.Cids(init));
      TouchAllFacts(init, cap);
      TouchLatest(CC.Cids(init), c, cap);
      hide CC.Cids, Touch, Latest;
    }
  }

  /** A cache opened over a directory with each block in one layout, within the budget,
      starts in order, whatever the walk's order; it tracks the blocks the walk came to
      last, the last one as the most recent, up to the capacity of the recency list: all
      of them if they fit. */
  lemma OpensInOrder(d: Files, l: CC.Limits, order: seq<Path>)
    requires CC.Walks(CC.Walk(order, false), d) && OneLayout(d) && Total(d) <= l.maxBytes
    requires l.lruSize > 0 && Hashed("") !in d && Flat("") !in d
    ensures Good(CC.Open(d, l, order), l)
    ensures CC.Open(d, l, order).lru == Latest(CC.Cids(order), l.lruSize)
    ensures |order| <= l.lruSize ==> forall c :: c in Contents(d) <==> c in CC.Open(d, l, order).lru
  {
    CidsApart(d, order);
    TouchAllFacts(order, l.lruSize);
    var q := CC.Cids(order);
    forall c | c in q
      ensures Hashed(c) in d || Flat(c) in d
    {
      var i :| 0 <= i < |q| && q[i] == c;
      assert order[i] in d && (order[i] == Hashed(c) || order[i] == Flat(c));
    }
    forall c
      ensures c in Contents(d) <==> c in q
    {
      InContents(d, c);
      if Hashed(c) in d || Flat(c) in d {
        var p := FileOf(d, c);
        var i :| 0 <= i < |order| && order[i] == p;
        assert q[i] == c;
      }
    }
    hide Contents, Total, CC.TouchAll;
  }

  // --------------------------------------------- where the books go wrong

  const SMALL := CC.Limits(2, 8)
  const NO_WALK := CC.Walk([], false)

  lemma OneFile(p: Path, b: Bytes)
    ensures Total(map[p := b]) == |b|
  {
    var none: Files := map[];
    TotalWrite(none, p, b);
    assert none[p := b] == map[p := b] && none - {p} == none;
  }

  /** Putting a block that is stored flat only leaves the flat file in place but
      subtracts its size: two bytes on disk are counted as one. */
  lemma FlatOnlyPutMiscounts()
    ensures var s := CC.State(map[Flat("a") := [1]], ["a"], 1, []);
            && Good(s, SMALL)
            && var (t, ok) := CC.Put(s, SMALL, CALM, NO_WALK, "a", [2]);
               ok && !Books(t)
  {
    OneFile(Flat("a"), [1]);
    var s := CC.State(map[Flat("a") := [1]], ["a"], 1, []);
    assert CC.Put(s, SMALL, CALM, NO_WALK, "a", [2]).1;
    PutKeepsBooksIff(s, SMALL, CALM, NO_WALK, "a", [2]);
  }

  const FULL := CC.State(map[Hashed("a") := [1, 1]], ["a"], 2, [])

  /** Making one byte of room in a full cache of one block. */
  lemma EvictsOnly()
    ensures CC.Evict(FULL, CALM, NO_WALK, 1) == (CC.State(map[], [], 0, ["a"]), true)
  {
    var ts := CC.Tracked(FULL.files, CALM, FULL.lru);
    assert ts == [Some(Hashed("a"))];
    SumNext(FULL.files, {}, ts, 0);
    assert ts[..1] == ts && ts[..0] == [];
    assert Cut(FULL.files, {}, ts, 1) == 1;
    assert Sum(FULL.files, {}, ts) == 2 && Gone(FULL.files, {}, ts) == [Hashed("a")];
    hide Sum, Gone, Cut;
    assert FULL.files - Elems([Hashed("a")]) == map[];
    assert FULL.reports + CC.Cids([Hashed("a")]) == ["a"] && FULL.lru[1..] == [];
  }

  /** Putting a longer version of the oldest block evicts that very block and then
      subtracts its size again: the cache holds three bytes of two and counts one. */
  lemma SelfEvictingPutMiscounts()
    ensures Good(FULL, SMALL)
    ensures var (t, ok) := CC.Put(FULL, SMALL, CALM, NO_WALK, "a", [2, 2, 2]);
            ok && t.bytes == 1 && t.files == map[Hashed("a") := [2, 2, 2]] && !Books(t)
  {
    OneFile(Hashed("a"), [1, 1]);
    OneFile(Hashed("a"), [2, 2, 2]);
    EvictsOnly();
    hide CC.Evict;
    var none: Files := map[];
    assert none[Hashed("a") := [2, 2, 2]] == map[Hashed("a") := [2, 2, 2]];
  }

  /** Deleting a block whose status cannot be read reports success and leaves it. */
  lemma UnreadableDeleteDoesNothing()
    ensures var s := CC.State(map[Hashed("a") := [1]], ["a"], 1, []);
            var f := CALM.(noStat := {Hashed("a")});
            && Good(s, SMALL) && CC.Delete(s, f, "a") == (s, true) && "a" in Contents(s.files)
  {
    OneFile(Hashed("a"), [1]);
    InContents(map[Hashed("a") := [1]], "a");
  }

  const TWO_FILES: Files := map[Hashed("a") := [1], Hashed("b") := [1]]
  const TWO_BLOCKS := CC.State(TWO_FILES, ["a", "b"], 2, [])
  const BOTH_FILES := CC.Walk([Hashed("a"), Hashed("b")], false)
  const STUCK_B := CC.Faults({}, {Hashed("b")}, {}, false, false)

  lemma TwoBlocksAreGood()
    ensures Good(TWO_BLOCKS, SMALL) && CC.Walks(BOTH_FILES, TWO_FILES)
  {
    OneFile(Hashed("b"), [1]);
    TotalRemove(TWO_FILES, Hashed("a"));
    assert TWO_FILES - {Hashed("a")} == map[Hashed("b") := [1]];
  }

  /** A Clear that fails at its second file has removed the first one, but counts
      it still, and the recency list still claims its block. */
  lemma HalfClearMiscounts()
    ensures Good(TWO_BLOCKS, SMALL) && CC.Walks(BOTH_FILES, TWO_FILES)
    ensures var (t, ok) := CC.Clear(TWO_BLOCKS, STUCK_B, BOTH_FILES);
            !ok && !Books(t) && !TracksFiles(t)
  {
    TwoBlocksAreGood();
    hide Good, CC.Walks;
    assert CC.Cleared(BOTH_FILES, STUCK_B, 0) == 1;
    assert Falls(STUCK_B, BOTH_FILES, 0) && BOTH_FILES.order[1] in BOTH_FILES.order;
    ClearKeepsBooksIff(TWO_BLOCKS, STUCK_B, BOTH_FILES);
    assert "a" in TWO_BLOCKS.lru && BOTH_FILES.order[0] in Elems(BOTH_FILES.order[..1]);
  }
}

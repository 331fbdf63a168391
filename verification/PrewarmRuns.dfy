/** The prewarmer over whole runs: every walk is accounted for, warmed roots are what
    walks and evictions make them, and how they relate to the block cache. */
module PrewarmRuns {
  import opened Options
  import opened Recency
  import opened Disk
  import opened Prewarm
  import opened ContentLaws
  import CC = ContentCache
  import BM = BlockMap

  function Exec(s: State, trace: seq<Step>): State {
    if trace == [] then s else Next(Exec(s, trace[..|trace| - 1]), trace[|trace| - 1])
  }

  ghost predicate Legal(s: State, trace: seq<Step>) {
    trace == [] ||
    (Legal(s, trace[..|trace| - 1]) && Enabled(Exec(s, trace[..|trace| - 1]), trace[|trace| - 1]))
  }

  /** The number of walks of `c` on their way. */
  function WalksOf(s: State, c: Cid): nat {
    s.entering[c] + multiset(s.queue)[c] + s.running[c] + s.leaving[c]
  }

  /** The active CIDs are the walks on their way, one each. */
  ghost predicate Accounted(s: State) {
    forall c :: WalksOf(s, c) == if c in s.active then 1 else 0
  }

  /** A step changes the number of walks of its own CID alone, as the active set says. */
  lemma WalksChange(s: State, st: Step, c: Cid)
    requires Enabled(s, st) && WalksOf(s, c) == if c in s.active then 1 else 0
    ensures WalksOf(Next(s, st), c) == if c in Next(s, st).active then 1 else 0
  {
    if st.Start? {
      assert s.queue == [s.queue[0]] + s.queue[1..];
    }
  }

  lemma AccountedStep(s: State, st: Step)
    requires Accounted(s) && Enabled(s, st)
    ensures Accounted(Next(s, st))
  {
    forall c
      ensures WalksOf(Next(s, st), c) == if c in Next(s, st).active then 1 else 0
    {
      WalksChange(s, st, c);
    }
  }

  /** Conservation over every run, also across Stop: the active set is exactly the
      CIDs with a walk on its way, and no CID ever has two. */
  lemma {:induction false} WalksAreConserved(s: State, trace: seq<Step>)
    requires Accounted(s) && Legal(s, trace)
    ensures var t := Exec(s, trace);
            && Accounted(t)
            && (forall c :: c in t.active <==> c in t.entering || c in t.queue || c in t.running || c in t.leaving)
            && (forall c :: WalksOf(t, c) <= 1)
  {
    if trace != [] {
      WalksAreConserved(s, trace[..|trace| - 1]);
      AccountedStep(Exec(s, trace[..|trace| - 1]), trace[|trace| - 1]);
    }
    var t := Exec(s, trace);
    forall c
      ensures c in t.active <==> c in t.entering || c in t.queue || c in t.running || c in t.leaving
    {
      assert c in t.active <==> WalksOf(t, c) > 0;
      assert c in t.queue <==> multiset(t.queue)[c] > 0;
    }
  }

  // ------------------------------------------------------------ draining

  /** The steps the pool takes on its own. */
  predicate Works(st: Step) { st.Enter? || st.Start? || st.Finish? || st.Leave? }

  /** The number of such steps that are left. */
  function Left(s: State): nat {
    4 * |s.entering| + 3 * |s.queue| + 2 * |s.running| + |s.leaving|
  }

  lemma WorkProgresses(s: State, st: Step)
    requires Enabled(s, st) && Works(st)
    ensures Left(Next(s, st)) < Left(s)
  {
    match st {
      case Enter(c) => assert s.entering == (s.entering - multiset{c}) + multiset{c};
      case Start =>
      case Finish(c, _) => assert s.running == (s.running - multiset{c}) + multiset{c};
      case Leave(c) => assert s.leaving == (s.leaving - multiset{c}) + multiset{c};
    }
  }

  lemma IdleIff(t: State)
    requires Accounted(t)
    ensures (forall st :: Works(st) ==> !Enabled(t, st)) <==> t.active == {}
  {
    assert t.queue != [] ==> multiset(t.queue)[t.queue[0]] > 0 && WalksOf(t, t.queue[0]) > 0;
    if t.active != {} {
      var c :| c in t.active;
      assert WalksOf(t, c) == 1;
      assert Enabled(t, Enter(c)) || Enabled(t, Start) || Enabled(t, Finish(c, Outcome(0, 0, true)))
             || Enabled(t, Leave(c));
    } else {
      assert forall c :: WalksOf(t, c) == 0;
      forall st | Works(st)
        ensures !Enabled(t, st)
      {
        assert !st.Start? ==> WalksOf(t, st.c) == 0;
      }
    }
  }

  /** However the pool works on, it takes a bounded number of steps, and when it has
      none left, nothing is active. */
  lemma {:induction false} PoolDrains(s: State, trace: seq<Step>)
    requires Accounted(s) && Legal(s, trace) && forall k :: 0 <= k < |trace| ==> Works(trace[k])
    ensures var t := Exec(s, trace);
            && Left(t) + |trace| <= Left(s)
            && ((forall st :: Works(st) ==> !Enabled(t, st)) <==> t.active == {})
  {
    if trace != [] {
      var init := trace[..|trace| - 1];
      PoolDrains(s, init);
      WorkProgresses(Exec(s, init), trace[|trace| - 1]);
    }
    WalksAreConserved(s, trace);
    IdleIff(Exec(s, trace));
  }

  /** The steps in which the pool works on walks it has taken. */
  predicate Walking(st: Step) { st.Start? || st.Finish? || st.Leave? }

  function Walked(trace: seq<Step>): nat {
    if trace == [] then 0 else Walked(trace[..|trace| - 1]) + if Walking(trace[|trace| - 1]) then 1 else 0
  }

  /** The number of such steps that are left. */
  function LeftToWalk(s: State): nat { 3 * |s.queue| + 2 * |s.running| + |s.leaving| }

  lemma StoppedProgresses(s: State, st: Step)
    requires s.stopped && Enabled(s, st)
    ensures LeftToWalk(Next(s, st)) + (if Walking(st) then 1 else 0) <= LeftToWalk(s)
  {
    match st {
      case Finish(c, _) => assert s.running == (s.running - multiset{c}) + multiset{c};
      case Leave(c) => assert s.leaving == (s.leaving - multiset{c}) + multiset{c};
      case _ =>
    }
  }

  lemma StoppedStep(s: State, st: Step)
    requires s.stopped
    ensures Next(s, st).stopped
    ensures Next(s, st).queue == s.queue || (s.queue != [] && Next(s, st).queue == s.queue[1..])
  {
  }

  /** Once stopped, the pool drains whatever is still submitted, warmed or evicted: the
      walks it had taken are a bounded number of steps, no other is ever taken, and
      when those are done, only submissions on their way to being refused are active. */
  lemma {:induction false} StoppedPoolDrains(s: State, trace: seq<Step>)
    requires Accounted(s) && s.stopped && Legal(s, trace)
    ensures var t := Exec(s, trace);
            && t.stopped && LeftToWalk(t) + Walked(trace) <= LeftToWalk(s)
            && (LeftToWalk(t) == 0 ==> forall c :: c in t.active <==> c in t.entering)
  {
    if trace != [] {
      var init := trace[..|trace| - 1];
      StoppedPoolDrains(s, init);
      StoppedProgresses(Exec(s, init), trace[|trace| - 1]);
      StoppedStep(Exec(s, init), trace[|trace| - 1]);
    }
    WalksAreConserved(s, trace);
  }

  predicate Suffix(q: seq<Cid>, p: seq<Cid>) {
    |q| <= |p| && q == p[|p| - |q|..]
  }

  lemma SuffixTail(q: seq<Cid>, p: seq<Cid>)
    requires Suffix(q, p)
    ensures q != [] ==> Suffix(q[1..], p)
  {
  }

  /** A stopped pool queues nothing any more: what is queued later was queued before. */
  lemma {:induction false} StoppedQueueShrinks(s: State, trace: seq<Step>)
    requires s.stopped && Legal(s, trace)
    ensures Exec(s, trace).stopped && Suffix(Exec(s, trace).queue, s.queue)
  {
    if trace != [] {
      StoppedQueueShrinks(s, trace[..|trace| - 1]);
      var t, last := Exec(s, trace[..|trace| - 1]), trace[|trace| - 1];
      StoppedStep(t, last);
      SuffixTail(t.queue, s.queue);
    }
  }

  // ------------------------------------------------------- taking walks

  lemma StopsBy(s: State, st: Step)
    ensures Next(s, st).stopped <==> s.stopped || st == Stop
  {
  }

  /** The pool is stopped exactly from a Stop on. */
  lemma {:induction false} StopLasts(s: State, trace: seq<Step>)
    ensures Exec(s, trace).stopped <==> s.stopped || Stop in trace
  {
    if trace != [] {
      var init, last := trace[..|trace| - 1], trace[|trace| - 1];
      assert trace == init + [last];
      StopLasts(s, init);
      StopsBy(Exec(s, init), last);
      hide Next;
    }
  }

  /** Some walk of the CID has ended. */
  ghost predicate Walks(trace: seq<Step>, c: Cid) {
    exists k :: 0 <= k < |trace| && trace[k].Finish? && trace[k].c == c
  }

  lemma StaysActive(s: State, st: Step, c: Cid)
    requires Enabled(s, st) && !s.stopped && c in s.active && c !in s.leaving
    requires st != Stop && !(st.Finish? && st.c == c)
    ensures c in Next(s, st).active && c !in Next(s, st).leaving
  {
  }

  /** While the pool runs, a CID that is active and not on its way out stays so until some
      walk of it ends. */
  lemma {:induction false} ActiveUntilWalked(s: State, trace: seq<Step>, c: Cid)
    requires Accounted(s) && !s.stopped && Legal(s, trace) && Stop !in trace
    requires c in s.active && c !in s.leaving && !Walks(trace, c)
    ensures var t := Exec(s, trace); c in t.active && c !in t.leaving
  {
    if trace != [] {
      var init, last := trace[..|trace| - 1], trace[|trace| - 1];
      assert trace == init + [last] && last in trace;
      ActiveUntilWalked(s, init, c);
      StopLasts(s, init);
      StaysActive(Exec(s, init), last, c);
      hide Next, Enabled;
    }
  }

  /** What a submission comes to. To a pool that runs, and unless its CID is just on its way
      out of the active set, it leads to a walk: the CID is active from then on until some
      walk of it has ended, and one has by the time the pool has no step of its own left. A
      submission of a path does the same for a root that does not count as warmed. */
  lemma SubmittedIsWalked(s: State, st: Step, trace: seq<Step>, c: Cid)
    requires Accounted(s) && !s.stopped && c !in s.leaving
    requires st == Submit(c) || (st == SubmitPath(c) && c !in s.warmed)
    requires Legal(Next(s, st), trace) && Stop !in trace
    ensures var t := Exec(Next(s, st), trace);
            && c in Next(s, st).active
            && (c in t.active || Walks(trace, c))
            && ((forall w :: Works(w) ==> !Enabled(t, w)) ==> Walks(trace, c))
  {
    AccountedStep(s, st);
    var s1 := Next(s, st);
    if !Walks(trace, c) {
      ActiveUntilWalked(s1, trace, c);
    }
    WalksAreConserved(s1, trace);
    IdleIff(Exec(s1, trace));
  }

  /** A warmed root's path needs no walk, and a stopped pool takes none: the submission is
      dropped, the CID is not active afterwards, and nothing is queued. */
  lemma NotTaken(s: State, c: Cid)
    requires Accounted(s)
    ensures c in s.warmed ==> Next(s, SubmitPath(c)) == s
    ensures s.stopped && Enabled(s, Enter(c)) ==>
              var t := Next(s, Enter(c));
              c !in t.active && t.queue == s.queue && WalksOf(t, c) == 0
  {
    if s.stopped && Enabled(s, Enter(c)) {
      WalksChange(s, Enter(c), c);
    }
  }

  // -------------------------------------------------------- warmed roots

  /** The `k`-th step warmed the root, and its block has not been reported evicted
      since. */
  predicate WarmedAt(trace: seq<Step>, k: int, c: Cid) {
    && 0 <= k < |trace| && trace[k].Finish? && trace[k].c == c && !trace[k].o.failed && trace[k].o.visited > 0
    && ClearWarmed(c) !in trace[k..]
  }

  /** A root is warmed exactly if some walk of it warmed it, or it was warmed to begin
      with, and no block of that CID has been reported evicted since. */
  lemma {:induction false} WarmedExactly(s: State, trace: seq<Step>, c: Cid)
    ensures c in Exec(s, trace).warmed <==>
            (c in s.warmed && ClearWarmed(c) !in trace) || exists k :: WarmedAt(trace, k, c)
  {
    if trace != [] {
      var init, last := trace[..|trace| - 1], trace[|trace| - 1];
      WarmedExactly(s, init, c);
      assert trace == init + [last];
      forall k
        ensures WarmedAt(trace, k, c) <==>
                if k == |init| then last.Finish? && last.c == c && Warms(last.o)
                else WarmedAt(init, k, c) && last != ClearWarmed(c)
      {
        if 0 <= k < |init| {
          assert trace[k..] == init[k..] + [last];
        } else if k == |init| {
          assert trace[k..] == [last];
        }
      }
      if last.Finish? && last.c == c && Warms(last.o) {
        assert WarmedAt(trace, |init|, c);
      }
    }
  }

  // ------------------------------------------ the prewarmer and the cache

  /** Every warmed root has its block in the cache. */
  ghost predicate WarmedCached(warmed: set<Cid>, d: Files) {
    forall c :: c in warmed ==> c in Contents(d)
  }

  /** The operation takes a warmed root away without calling the eviction callback: it
      deletes one whose file can be found and removed, or a Clear removes the file of one,
      whether it goes on to succeed or fails later. */
  ghost predicate Unreported(s: CC.State, op: BM.Op, warmed: set<Cid>) {
    || (op.Delete? && op.c in warmed && Deletes(s, op.f, op.c))
    || (op.Clear? && exists i: nat :: Falls(op.f, op.w, i) && op.w.order[i].cid in warmed)
  }

  /** A walk of the operation, if it makes one, is a walk of the cache directory. */
  ghost predicate WalksSoundly(s: CC.State, op: BM.Op) {
    match op
    case Put(_, _, _, w) => Distinct(w.order)
    case Evict(_, _, w) => Distinct(w.order)
    case Clear(_, w) => CC.Walks(w, s.files)
    case _ => true
  }

  /** Any Put, also one that miscounts or fails half way, loses only blocks that it
      reports. */
  lemma PutReportsLosses(s: CC.State, l: CC.Limits, f: CC.Faults, w: CC.Walk, c: Cid, block: Bytes)
    requires Good(s, l) && Distinct(w.order)
    ensures var t := CC.Put(s, l, f, w, c, block).0;
            && |s.reports| <= |t.reports|
            && forall x :: x in Contents(s.files) && x !in SetOf(Reported(s, t)) ==> x in Contents(t.files)
  {
    var t := CC.Put(s, l, f, w, c, block).0;
    hide Contents, CC.MakeRoom, CC.OldSize;
    if c == "" || block == [] {
      assert t == s;
    } else {
      var grow := |block| - CC.OldSize(s, f, c);
      var room := CC.MakeRoom(s, l, f, w, grow).0;
      RoomLaw(s, l, f, w, grow);
      assert t.reports == room.reports;
      forall x | x in Contents(s.files) && x !in SetOf(Reported(s, t))
        ensures x in Contents(t.files)
      {
        assert x in Contents(room.files);
        InContents(room.files, x);
        InContents(t.files, x);
      }
    }
  }

  /** What a Clear does to the warmed roots. */
  lemma ClearKeepsWarmedIff(s: CC.State, f: CC.Faults, w: CC.Walk, warmed: set<Cid>)
    requires OneLayout(s.files) && CC.Walks(w, s.files) && WarmedCached(warmed, s.files)
    ensures WarmedCached(warmed, CC.Clear(s, f, w).0.files) <==>
            forall i: nat :: Falls(f, w, i) ==> w.order[i].cid !in warmed
  {
    var t := CC.Clear(s, f, w).0;
    ClearLeaves(s, f, w);
    hide Contents, Falls, CC.Clear;
    forall c
      ensures c in warmed ==> (c in Contents(t.files) <==> forall i: nat :: Falls(f, w, i) ==> w.order[i].cid != c)
    {
      InContents(s.files, c);
      InContents(t.files, c);
    }
  }

  /** Any cache operation, with its reports to the prewarmer and whatever goes wrong in
      it, keeps every warmed root in the cache if and only if it does not take one away
      unreported. */
  lemma OperationKeepsWarmedIff(s: CC.State, l: CC.Limits, op: BM.Op, warmed: set<Cid>)
    requires Good(s, l) && WalksSoundly(s, op) && WarmedCached(warmed, s.files)
    ensures var t := BM.Next(s, l, op).0;
            WarmedCached(warmed - SetOf(BM.NewReports(s, t)), t.files) <==> !Unreported(s, op, warmed)
  {
    var t := BM.Next(s, l, op).0;
    assert warmed - SetOf([]) == warmed;
    match op {
      case Put(c, block, f, w) => PutReportsLosses(s, l, f, w, c, block);
      case Get(c, f) => GetLaw(s, l, f, c);
      case Evict(n, f, w) => EvictLaw(s, l, f, w, n);
      case Delete(c, f) =>
        DeleteLaw(s, l, f, c);
        assert BM.NewReports(s, t) == [];
      case Clear(f, w) =>
        ClearLeaves(s, f, w);
        ClearKeepsWarmedIff(s, f, w, warmed);
        assert BM.NewReports(s, t) == [];
    }
  }

  /** Deleting a warmed root leaves it warmed. */
  lemma DeletedRootStaysWarmed()
    ensures var s := CC.State(map[Hashed("a") := [1]], ["a"], 1, []);
            var t := CC.Delete(s, CALM, "a").0;
            && Good(s, BM.SMALL) && WarmedCached({"a"}, s.files)
            && t.reports == s.reports && !WarmedCached({"a"}, t.files)
  {
    BM.OneFile(Hashed("a"), [1]);
    var s := CC.State(map[Hashed("a") := [1]], ["a"], 1, []);
    InContents(s.files, "a");
    DeleteLaw(s, BM.SMALL, CALM, "a");
    InContents(CC.Delete(s, CALM, "a").0.files, "a");
  }

  /** A Clear that fails at its second file has removed the first, a warmed root, which
      stays warmed; nothing is reported. */
  lemma HalfClearLeavesRootWarmed()
    ensures var t := CC.Clear(BM.TWO_BLOCKS, BM.STUCK_B, BM.BOTH_FILES).0;
            && Good(BM.TWO_BLOCKS, BM.SMALL) && WarmedCached({"a"}, BM.TWO_FILES)
            && !ClearsAll(BM.STUCK_B, BM.BOTH_FILES)
            && t.reports == [] && !WarmedCached({"a"}, t.files)
  {
    BM.TwoBlocksAreGood();
    InContents(BM.TWO_FILES, "a");
    assert BM.BOTH_FILES.order[1] in BM.BOTH_FILES.order;
    assert Falls(BM.STUCK_B, BM.BOTH_FILES, 0) && BM.BOTH_FILES.order[0].cid == "a";
    hide Good, Contents, Falls, CC.Walks;
    ClearLeaves(BM.TWO_BLOCKS, BM.STUCK_B, BM.BOTH_FILES);
    ClearKeepsWarmedIff(BM.TWO_BLOCKS, BM.STUCK_B, BM.BOTH_FILES, {"a"});
  }

  /** The callback calls made by one operation. */
  function Forgets(p: State, reported: seq<Cid>): State {
    if reported == [] then p
    else Next(Forgets(p, reported[..|reported| - 1]), ClearWarmed(reported[|reported| - 1]))
  }

  lemma {:induction false} ForgetsAll(p: State, reported: seq<Cid>)
    ensures Forgets(p, reported) == p.(warmed := p.warmed - SetOf(reported))
  {
    if reported != [] {
      var init, last := reported[..|reported| - 1], reported[|reported| - 1];
      ForgetsAll(p, init);
      assert reported == init + [last];
      assert SetOf(reported) == SetOf(init) + {last};
    } else {
      assert p.warmed - SetOf([]) == p.warmed;
    }
  }

  /** The cache with the prewarmer behind its eviction callback. */
  datatype Both = Both(cache: CC.State, pool: State)

  datatype Move = Cache(op: BM.Op) | Pool(st: Step)

  ghost function Moved(b: Both, l: CC.Limits, m: Move): Both {
    match m
    case Cache(op) =>
      var t := BM.Next(b.cache, l, op).0;
      Both(t, Forgets(b.pool, BM.NewReports(b.cache, t)))
    case Pool(st) => b.(pool := Next(b.pool, st))
  }

  /** Cache operations as the block map allows them, and enabled steps of the pool. */
  ghost predicate Possible(b: Both, l: CC.Limits, m: Move) {
    match m
    case Cache(op) => BM.Allowed(b.cache, l, op)
    case Pool(st) => Enabled(b.pool, st)
  }

  /** A root comes to count as warmed without its block: its block leaves the cache
      unreported, or a walk warms it whose own block has not arrived, or is gone again. */
  ghost predicate Strays(b: Both, m: Move) {
    match m
    case Cache(op) => Unreported(b.cache, op, b.pool.warmed)
    case Pool(st) => st.Finish? && Warms(st.o) && st.c !in Contents(b.cache.files)
  }

  ghost function Runs(b: Both, l: CC.Limits, ms: seq<Move>): Both {
    if ms == [] then b else Moved(Runs(b, l, ms[..|ms| - 1]), l, ms[|ms| - 1])
  }

  ghost predicate AllPossible(b: Both, l: CC.Limits, ms: seq<Move>) {
    ms == [] || (AllPossible(b, l, ms[..|ms| - 1]) && Possible(Runs(b, l, ms[..|ms| - 1]), l, ms[|ms| - 1]))
  }

  ghost predicate BothOk(b: Both, l: CC.Limits) { Good(b.cache, l) && Accounted(b.pool) }

  ghost predicate InOrder(b: Both, l: CC.Limits) {
    BothOk(b, l) && WarmedCached(b.pool.warmed, b.cache.files)
  }

  lemma BothStep(b: Both, l: CC.Limits, m: Move)
    requires BothOk(b, l) && Possible(b, l, m)
    ensures BothOk(Moved(b, l, m), l)
  {
    match m {
      case Cache(op) =>
        BM.StepLaw(b.cache, l, op);
        ForgetsAll(b.pool, BM.NewReports(b.cache, BM.Next(b.cache, l, op).0));
        assert forall c :: WalksOf(b.pool, c) == WalksOf(Moved(b, l, m).pool, c);
      case Pool(st) => AccountedStep(b.pool, st);
    }
  }

  /** A move keeps every warmed root in the cache if and only if no root strays. */
  lemma MoveKeepsInOrderIff(b: Both, l: CC.Limits, m: Move)
    requires InOrder(b, l) && Possible(b, l, m)
    ensures InOrder(Moved(b, l, m), l) <==> !Strays(b, m)
  {
    BothStep(b, l, m);
    hide Good, Accounted, Contents;
    match m {
      case Cache(op) =>
        OperationKeepsWarmedIff(b.cache, l, op, b.pool.warmed);
        ForgetsAll(b.pool, BM.NewReports(b.cache, BM.Next(b.cache, l, op).0));
      case Pool(st) =>
    }
  }

  /** In an orderly cache whose file statuses can be read, a batch walk leaves out exactly
      the warmed nodes whose blocks are in the cache: what was warmed and is gone is fetched
      again. */
  lemma WalkLeavesOutIff(n: Node, l: CC.Limits)
    requires Good(n.now.cache, l) && n.now.f.noStat == {} && n.cid.Some?
    ensures Wanted(n) <==> !(n.cid.value in n.now.warmed && n.cid.value in Contents(n.now.cache.files))
  {
    InContents(n.now.cache.files, n.cid.value);
    hide Contents;
  }

  /** However puts, lookups, evictions and walks are interleaved: as long as no root
      strays, a root that counts as warmed has its block in the cache. */
  lemma {:induction false} WarmedRootsStayCached(b: Both, l: CC.Limits, ms: seq<Move>)
    requires InOrder(b, l) && AllPossible(b, l, ms)
    requires forall k :: 0 <= k < |ms| ==> !Strays(Runs(b, l, ms[..k]), ms[k])
    ensures InOrder(Runs(b, l, ms), l)
  {
    if ms != [] {
      var init := ms[..|ms| - 1];
      assert forall k :: 0 <= k < |init| ==> init[..k] == ms[..k] && init[k] == ms[k];
      WarmedRootsStayCached(b, l, init);
      MoveKeepsInOrderIff(Runs(b, l, init), l, ms[|ms| - 1]);
    }
  }

  // --------------------------------------------------- a walk without root

  const NOW := Moment({}, CC.State(map[], [], 0, []), CALM)

  /** A root whose block does not arrive, and a leaf whose block does. */
  const ROOTLESS: seq<Node> := [Node(Some("r"), NOW, false), Node(Some("l"), NOW, true)]

  /** The cache once the leaf is there, and the pool with the root's walk at its end. */
  const WALKED := Both(CC.State(map[Hashed("l") := [1]], ["l"], 1, []),
                       State({"r"}, {}, false, multiset{}, [], multiset{"r"}, multiset{}))

  /** What a batch walk makes of these nodes. */
  lemma RootlessOutcome(o: Outcome)
    requires o.visited == |AllFetched(ROOTLESS)| && o.visited + o.skipped == |ROOTLESS|
    requires o.failed <==> AllWanted(ROOTLESS) != {} && AllFetched(ROOTLESS) == {}
    ensures AllWanted(ROOTLESS) == {0, 1} && AllFetched(ROOTLESS) == {1}
    ensures o == Outcome(1, 1, false) && Warms(o)
  {
    assert AllWanted(ROOTLESS) == {0, 1} && AllFetched(ROOTLESS) == {1};
  }

  lemma WalkedIsInOrder()
    ensures InOrder(WALKED, BM.SMALL) && "r" !in Contents(WALKED.cache.files)
  {
    BM.OneFile(Hashed("l"), [1]);
    InContents(WALKED.cache.files, "r");
    assert forall c :: WalksOf(WALKED.pool, c) == if c == "r" then 1 else 0;
  }

  /** Such a walk succeeds with one block of two, and its root counts as warmed although
      its own block never arrived; from then on a request for the site starts no walk. */
  lemma RootlessWalkWarms()
    ensures var end := Pool(Finish("r", Outcome(1, 1, false)));
            var b := Moved(WALKED, BM.SMALL, end);
            && InOrder(WALKED, BM.SMALL) && Possible(WALKED, BM.SMALL, end) && Strays(WALKED, end)
            && "r" in b.pool.warmed && "r" !in Contents(b.cache.files)
            && var left := Next(b.pool, Leave("r")); Next(left, SubmitPath("r")) == left
  {
    WalkedIsInOrder();
    hide InOrder, Contents;
  }
}

/** The name system over whole runs: requests, answers, revalidations, watch loops,
    evictions, restarts and changes of the names themselves, in any order. The inner
    name system answers a path with what its name stands for at that moment; the
    answer is cached later, with anything in between. */
module NameRuns {
  import opened Options
  import opened Recency
  import opened IpfsPath
  import opened NameCache

  /** What an answer is for. */
  datatype Via = Request | Revalidation | Watch(id: nat)

  /** An answer on its way: what the name of `p` stood for at time `at`. */
  datatype Flight = Flight(p: Path, root: Result, at: int, via: Via)

  /** How long an answer can be on its way: requests and revalidations end at the
      store's timeout; for a watch result the source sets no bound, so it is a
      parameter. */
  datatype Delay = Delay(timeout: nat, lag: nat) {
    function Bound(via: Via): nat { if via.Watch? then lag else timeout }
    function Slack(): nat { if timeout < lag then lag else timeout }
  }

  /** `roots` is what each name stands for now, `changed` when it last changed. */
  datatype Sys = Sys(n: Names, now: int, roots: map<string, Result>, changed: map<string, int>,
                     flights: seq<Flight>, delay: Delay)

  datatype Step =
    | Elapse(dt: nat)
    | Published(name: Path, root: Result)   // a name comes to stand for something else
    | Asked(p: Path)                        // a request looks its name up
    | Sent(p: Path, via: Via)               // the inner name system answers
    | Arrives(k: nat)                       // an answer on its way is taken
    | Lost(k: nat)                          // or comes too late, or not at all
    | Refused(p: Path)                      // a revalidation ends without an answer
    | Exits(id: nat)                        // a watch loop ends
    | Deleted(key: string)
    | Warmed                                // watchers are started for all names
    | Restart(order: seq<string>)           // the list is reloaded from the store

  /** A name stands for a path of two segments. */
  ghost predicate TwoSegments(r: Result) { Valid(r.path.segments) && |r.path.segments| == 2 }

  /** The watch loop that an answer is for is running and watches that name. */
  predicate Listens(n: Names, p: Path, via: Via) {
    via.Watch? ==> via.id in n.loops && n.loops[via.id] == Key(p)
  }

  /** The step finds what it acts on. */
  ghost predicate Possible(s: Sys, st: Step) {
    match st
    case Published(name, root) => Valid(name.segments) && TwoSegments(root)
    case Asked(p) => Valid(p.segments)
    case Sent(p, via) =>
      && Valid(p.segments) && Key(p) in s.roots && Listens(s.n, p, via)
      && (via.Revalidation? ==> Key(p) in s.n.pending)
    case Arrives(k) => k < |s.flights| && Listens(s.n, s.flights[k].p, s.flights[k].via)
    case Lost(k) => k < |s.flights|
    case Refused(p) => Valid(p.segments) && Key(p) in s.n.pending
    case Exits(id) => id in s.n.loops
    case _ => true
  }

  /** And an answer is not taken later than it can be. */
  ghost predicate Enabled(s: Sys, st: Step) {
    && Possible(s, st)
    && (st.Arrives? ==> s.now - s.flights[st.k].at <= s.delay.Bound(s.flights[st.k].via))
  }

  /** The inner answer for `p`, or none where the name is not known. */
  function Inner(s: Sys, p: Path): Option<Result> {
    if |p.segments| >= 2 && Key(p) in s.roots then Some(Uncached(s.roots[Key(p)], p)) else None
  }

  function Drop(fs: seq<Flight>, k: nat): seq<Flight> {
    if k < |fs| then fs[..k] + fs[k + 1..] else fs
  }

  /** An answer is taken by whoever waits for it. */
  function Take(n: Names, c: Config, now: int, f: Flight): Names {
    if |f.p.segments| < 2 then n
    else match f.via
         case Request => Learn(n, c, now, f.p, Uncached(f.root, f.p))
         case Revalidation => FinishRevalidation(n, c, now, f.p, Some(Uncached(f.root, f.p)))
         case Watch(id) => WatchResult(n, c, now, id, f.root)
  }

  function Next(s: Sys, c: Config, st: Step): Sys {
    match st
    case Elapse(dt) => s.(now := s.now + dt)
    case Published(name, root) =>
      s.(roots := s.roots[Key(name) := root], changed := s.changed[Key(name) := s.now])
    case Asked(p) => s.(n := LookUp(s.n, c, s.now, p).0)
    case Sent(p, via) =>
      if Key(p) in s.roots then s.(flights := s.flights + [Flight(p, s.roots[Key(p)], s.now, via)]) else s
    case Arrives(k) =>
      if k < |s.flights| then s.(n := Take(s.n, c, s.now, s.flights[k]), flights := Drop(s.flights, k)) else s
    case Lost(k) => s.(flights := Drop(s.flights, k))
    case Refused(p) => s.(n := FinishRevalidation(s.n, c, s.now, p, None))
    case Exits(id) => s.(n := WatchExit(s.n, id))
    case Deleted(key) => s.(n := DeleteStale(s.n, c, key))
    case Warmed => if c.watch then s.(n := Warm(s.n, c, s.n.stale.keys)) else s
    case Restart(order) => s.(n := Open(s.n.redis, c, s.n.stale.cap, order), flights := [])
  }

  function Exec(s: Sys, c: Config, trace: seq<Step>): Sys {
    if trace == [] then s else Next(Exec(s, c, trace[..|trace| - 1]), c, trace[|trace| - 1])
  }

  ghost predicate Legal(s: Sys, c: Config, trace: seq<Step>) {
    trace == [] ||
    (Legal(s, c, trace[..|trace| - 1]) && Enabled(Exec(s, c, trace[..|trace| - 1]), trace[|trace| - 1]))
  }

  // ------------------------------------------------- what an entry says

  /** An entry holds what its name stands for, unless the name has changed since the
      entry was cached, or within the longest time its answer was on its way before. */
  ghost predicate EntryOk(s: Sys, key: string, e: Stale) {
    && key in s.roots && TwoSegments(e.result) && e.cachedAt <= s.now
    && (e.result == s.roots[key] || (key in s.changed && e.cachedAt <= s.changed[key] + s.delay.Slack()))
  }

  /** An answer on its way is what its name stands for, unless the name has changed
      since. */
  ghost predicate FlightOk(s: Sys, f: Flight) {
    && Valid(f.p.segments) && Key(f.p) in s.roots && TwoSegments(f.root) && f.at <= s.now
    && (f.root == s.roots[Key(f.p)] || (Key(f.p) in s.changed && f.at <= s.changed[Key(f.p)]))
  }

  ghost predicate FlightsOk(s: Sys) {
    forall f :: f in s.flights ==> FlightOk(s, f)
  }

  ghost predicate EntriesOk(s: Sys) {
    forall key :: key in s.n.stale.vals ==> EntryOk(s, key, s.n.stale.vals[key])
  }

  ghost predicate RecordsOk(s: Sys) {
    forall key :: key in s.n.redis && FromRecord(s.n.redis[key]).Some? ==>
      EntryOk(s, key, FromRecord(s.n.redis[key]).value)
  }

  /** Every listed name is in the persistent store with the same path, TTL and times. */
  ghost predicate Mirrored(n: Names) {
    forall key :: key in n.stale.vals ==> key in n.redis && n.redis[key] == ToRecord(n.stale.vals[key])
  }

  ghost predicate WorldOk(s: Sys) {
    && (forall key :: key in s.roots ==> TwoSegments(s.roots[key]))
    && (forall key :: key in s.changed ==> key in s.roots && s.changed[key] <= s.now)
  }

  ghost predicate CacheOk(s: Sys, c: Config) {
    && WorldOk(s) && s.n.stale.Valid() && EntriesOk(s) && FlightsOk(s)
    && (c.hasRedis ==> RecordsOk(s) && Mirrored(s.n))
  }

  lemma RecordRoundTrip(e: Stale, r: Record)
    ensures Valid(e.result.path.segments) ==> FromRecord(ToRecord(e)) == Some(e)
    ensures FromRecord(r).Some? ==> ToRecord(FromRecord(r).value) == r
  {
    if Valid(e.result.path.segments) {
      ParsesBack(e.result.path.segments);
    }
    if FromRecord(r).Some? {
      TextSplit(r.path);
    }
  }

  /** What storing an entry does to the others: they stay, or fall out of both. */
  lemma PutEffect(n: Names, c: Config, key: string, e: Stale, x: string)
    requires n.stale.Valid()
    ensures var n' := PutStale(n, c, key, e);
            && n'.stale.Valid() && key in n'.stale.vals && n'.stale.vals[key] == e
            && (x != key && x in n'.stale.vals ==>
                  && x in n.stale.vals && n'.stale.vals[x] == n.stale.vals[x]
                  && (x in n.redis ==> x in n'.redis))
            && (x != key && x in n'.redis ==> x in n.redis && n'.redis[x] == n.redis[x])
            && (c.hasRedis ==> key in n'.redis && n'.redis[key] == ToRecord(e))
  {
    n.stale.AddStays(key, e);
  }

  lemma PutKeeps(s: Sys, c: Config, key: string, e: Stale)
    requires CacheOk(s, c) && EntryOk(s, key, e)
    ensures CacheOk(s.(n := PutStale(s.n, c, key, e)), c)
  {
    var s' := s.(n := PutStale(s.n, c, key, e));
    PutEffect(s.n, c, key, e, key);
    RecordRoundTrip(e, ToRecord(e));
    forall x | x in s'.n.stale.vals
      ensures EntryOk(s', x, s'.n.stale.vals[x])
      ensures c.hasRedis ==> x in s'.n.redis && s'.n.redis[x] == ToRecord(s'.n.stale.vals[x])
    {
      PutEffect(s.n, c, key, e, x);
    }
    if c.hasRedis {
      forall x | x in s'.n.redis && FromRecord(s'.n.redis[x]).Some?
        ensures EntryOk(s', x, FromRecord(s'.n.redis[x]).value)
      {
        PutEffect(s.n, c, key, e, x);
      }
    }
  }

  lemma TimePasses(s: Sys, c: Config, dt: nat)
    requires CacheOk(s, c)
    ensures CacheOk(s.(now := s.now + dt), c)
  {
    var s' := s.(now := s.now + dt);
    assert forall key: string, e: Stale :: EntryOk(s, key, e) ==> EntryOk(s', key, e);
    assert forall f: Flight :: FlightOk(s, f) ==> FlightOk(s', f);
  }

  /** An entry cached before its name changes stays true to the name as it was. */
  lemma ChangeKeeps(s: Sys, c: Config, key: string, root: Result)
    requires CacheOk(s, c) && TwoSegments(root)
    ensures CacheOk(s.(roots := s.roots[key := root], changed := s.changed[key := s.now]), c)
  {
    var s' := s.(roots := s.roots[key := root], changed := s.changed[key := s.now]);
    assert forall x: string, e: Stale :: EntryOk(s, x, e) ==> EntryOk(s', x, e);
    assert forall f: Flight :: FlightOk(s, f) ==> FlightOk(s', f);
  }

  /** Starting watchers, prewarming, and the pending set do not touch the cache. */
  lemma SameCache(s: Sys, c: Config, n: Names)
    requires CacheOk(s, c) && n.stale == s.n.stale && n.redis == s.n.redis
    ensures CacheOk(s.(n := n), c)
  {
  }

  lemma PromoteKeeps(s: Sys, c: Config, key: string)
    requires CacheOk(s, c) && key in s.n.stale.vals
    ensures CacheOk(s.(n := s.n.(stale := s.n.stale.Promote(key))), c)
  {
    s.n.stale.PromoteStays(key);
    var t := s.(n := s.n.(stale := s.n.stale.Promote(key)));
    assert t.n.stale.vals == s.n.stale.vals && t.n.redis == s.n.redis;
    assert forall x: string, e: Stale :: EntryOk(s, x, e) == EntryOk(t, x, e);
    assert forall f: Flight :: FlightOk(s, f) == FlightOk(t, f);
  }

  /** Taking the answer stores it: a watch result that brings no other path is dropped. */
  predicate Stores(n: Names, f: Flight) {
    f.via.Watch? && Key(f.p) in n.stale.vals ==>
      Show(n.stale.vals[Key(f.p)].result.path) != Show(Strip(f.root).path)
  }

  /** The entry that taking the answer makes, if it makes one, is sound. */
  ghost predicate Sound(s: Sys, f: Flight) {
    Stores(s.n, f) ==> EntryOk(s, Key(f.p), Stale(f.root, s.now))
  }

  /** An answer that arrives in time makes a sound entry. */
  lemma ArrivalIsOk(s: Sys, c: Config, f: Flight)
    requires CacheOk(s, c) && f in s.flights && s.now - f.at <= s.delay.Bound(f.via)
    ensures Sound(s, f)
  {
    assert FlightOk(s, f);
  }

  lemma LearnKeeps(s: Sys, c: Config, f: Flight)
    requires CacheOk(s, c) && FlightOk(s, f) && Sound(s, f) && !f.via.Watch?
    ensures CacheOk(s.(n := Learn(s.n, c, s.now, f.p, Uncached(f.root, f.p))), c)
  {
    ServesSubPath(f.root, f.p, f.p);
    PutKeeps(s, c, Key(f.p), Stale(f.root, s.now));
    var t := s.(n := PutStale(s.n, c, Key(f.p), Stale(f.root, s.now)));
    SameCache(t, c, Learn(s.n, c, s.now, f.p, Uncached(f.root, f.p)));
  }

  lemma PutLeavesRest(n: Names, c: Config, key: string, e: Stale)
    ensures PutStale(n, c, key, e).prewarmed == n.prewarmed
  {
  }

  /** What a watch result leaves, in terms of a lookup and, if it is stored, a store. */
  lemma WatchResultIs(n: Names, c: Config, now: int, id: nat, f: Flight)
    requires id in n.loops && n.loops[id] == Key(f.p) && TwoSegments(f.root) && f.via == Watch(id)
    ensures var key := Key(f.p);
            var n0 := n.(stale := n.stale.Promote(key));
            WatchResult(n, c, now, id, f.root)
            == if Stores(n, f)
               then PutStale(n0, c, key, Stale(f.root, now)).(prewarmed := n.prewarmed + [(key, f.root.path)])
               else n0
  {
    hide Key, Valid, Show, PutStale;
    var key := Key(f.p);
    assert key !in n.stale.vals ==> n == n.(stale := n.stale.Promote(key));
    assert PutStale(n.(stale := n.stale.Promote(key)), c, key, Stale(f.root, now)).prewarmed == n.prewarmed by {
      PutLeavesRest(n.(stale := n.stale.Promote(key)), c, key, Stale(f.root, now));
    }
  }

  lemma WatchKeeps(s: Sys, c: Config, id: nat, f: Flight)
    requires CacheOk(s, c) && id in s.n.loops && s.n.loops[id] == Key(f.p)
    requires FlightOk(s, f) && f.via == Watch(id) && Sound(s, f)
    ensures CacheOk(s.(n := WatchResult(s.n, c, s.now, id, f.root)), c)
  {
    var key := Key(f.p);
    var n0 := s.n.(stale := s.n.stale.Promote(key));
    var t := s.(n := n0);
    WatchResultIs(s.n, c, s.now, id, f);
    assert EntryOk(s, key, Stale(f.root, s.now)) == EntryOk(t, key, Stale(f.root, s.now));
    hide WatchResult, PutStale, Key, FlightOk, EntryOk;
    if key in s.n.stale.vals {
      PromoteKeeps(s, c, key);
    } else {
      assert t == s;
    }
    if Stores(s.n, f) {
      PutKeeps(t, c, key, Stale(f.root, s.now));
      hide CacheOk, Stores;
      var n' := PutStale(n0, c, key, Stale(f.root, s.now));
      SameCache(s.(n := n'), c, n'.(prewarmed := s.n.prewarmed + [(key, f.root.path)]));
    }
  }

  lemma TakeKeeps(s: Sys, c: Config, f: Flight)
    requires CacheOk(s, c) && f in s.flights && Listens(s.n, f.p, f.via) && Sound(s, f)
    ensures CacheOk(s.(n := Take(s.n, c, s.now, f)), c)
  {
    assert FlightOk(s, f);
    hide CacheOk, FlightsOk, PutStale, WatchResult, FlightOk, EntryOk, Sound;
    match f.via {
      case Watch(id) => WatchKeeps(s, c, id, f);
      case _ =>
        LearnKeeps(s, c, f);
        var n := Learn(s.n, c, s.now, f.p, Uncached(f.root, f.p));
        SameCache(s.(n := n), c, n.(pending := n.pending - {Key(f.p)}));
    }
  }

  /** An answer leaves the air. */
  lemma FewerFlights(s: Sys, c: Config, fs: seq<Flight>)
    requires CacheOk(s, c) && forall f :: f in fs ==> f in s.flights
    ensures CacheOk(s.(flights := fs), c)
  {
  }

  lemma SentKeeps(s: Sys, c: Config, p: Path, via: Via)
    requires CacheOk(s, c) && Valid(p.segments) && Key(p) in s.roots
    ensures CacheOk(s.(flights := s.flights + [Flight(p, s.roots[Key(p)], s.now, via)]), c)
  {
  }

  lemma DeleteKeeps(s: Sys, c: Config, key: string)
    requires CacheOk(s, c)
    ensures CacheOk(s.(n := DeleteStale(s.n, c, key)), c)
  {
    if key in s.n.stale.vals {
      s.n.stale.RemoveStays(key);
    }
  }

  lemma {:induction false} WarmKeeps(n: Names, c: Config, keys: seq<string>)
    ensures Warm(n, c, keys).stale == n.stale && Warm(n, c, keys).redis == n.redis
  {
    if keys != [] {
      WarmKeeps(n, c, keys[..|keys| - 1]);
    }
  }

  /** The entry is the stored one. */
  predicate Stored(r: Redis, order: seq<string>, key: string, e: Stale) {
    key in order && key in r && FromRecord(r[key]) == Some(e)
  }

  ghost predicate AllStored(m: Lru<Stale>, r: Redis, order: seq<string>) {
    m.Valid() && forall key :: key in m.vals ==> Stored(r, order, key, m.vals[key])
  }

  lemma AddStored(m: Lru<Stale>, r: Redis, order: seq<string>, key: string, e: Stale)
    requires AllStored(m, r, order) && Stored(r, order, key, e)
    ensures AllStored(m.Add(key, e), r, order) && m.Add(key, e).cap == m.cap
  {
    m.AddStays(key, e);
  }

  lemma {:induction false} LoadKeeps(m: Lru<Stale>, r: Redis, order: seq<string>)
    requires m.Valid() && m.vals == map[]
    ensures AllStored(Load(m, r, order), r, order) && Load(m, r, order).cap == m.cap
  {
    if order != [] {
      var init, key := order[..|order| - 1], order[|order| - 1];
      LoadKeeps(m, r, init);
      assert order == init + [key];
      var l := Load(m, r, init);
      assert forall x: string, e: Stale :: Stored(r, init, x, e) ==> Stored(r, order, x, e);
      if key in r && FromRecord(r[key]).Some? {
        AddStored(l, r, order, key, FromRecord(r[key]).value);
      }
    }
  }

  lemma RestartKeeps(s: Sys, c: Config, order: seq<string>)
    requires CacheOk(s, c)
    ensures CacheOk(s.(n := Open(s.n.redis, c, s.n.stale.cap, order), flights := []), c)
  {
    var empty: Lru<Stale> := Lru([], map[], s.n.stale.cap);
    LoadKeeps(empty, s.n.redis, order);
    var n := Open(s.n.redis, c, s.n.stale.cap, order);
    if c.hasRedis {
      forall key | key in n.stale.vals
        ensures n.redis[key] == ToRecord(n.stale.vals[key])
      {
        RecordRoundTrip(n.stale.vals[key], n.redis[key]);
      }
    }
  }

  lemma CacheStep(s: Sys, c: Config, st: Step)
    requires CacheOk(s, c) && Possible(s, st) && (st.Arrives? ==> Sound(s, s.flights[st.k]))
    ensures CacheOk(Next(s, c, st), c)
  {
    hide PutStale, OnEvict, EntriesOk, RecordsOk, Mirrored, StartWatcher, Uncached, Take, FlightsOk, Sound;
    match st {
      case Elapse(dt) => TimePasses(s, c, dt);
      case Published(name, root) => ChangeKeeps(s, c, Key(name), root);
      case Asked(p) =>
        if Key(p) in s.n.stale.vals {
          PromoteKeeps(s, c, Key(p));
          SameCache(s.(n := s.n.(stale := s.n.stale.Promote(Key(p)))), c, Next(s, c, st).n);
        }
      case Sent(p, via) => SentKeeps(s, c, p, via);
      case Arrives(k) =>
        assert s.flights[k] in s.flights;
        TakeKeeps(s, c, s.flights[k]);
        FewerFlights(s.(n := Take(s.n, c, s.now, s.flights[k])), c, Drop(s.flights, k));
      case Lost(k) => FewerFlights(s, c, Drop(s.flights, k));
      case Refused(p) => SameCache(s, c, Next(s, c, st).n);
      case Exits(id) => SameCache(s, c, Next(s, c, st).n);
      case Deleted(key) => DeleteKeeps(s, c, key);
      case Warmed =>
        WarmKeeps(s.n, c, s.n.stale.keys);
        SameCache(s, c, Next(s, c, st).n);
      case Restart(order) => RestartKeeps(s, c, order);
    }
  }

  // -------------------------------------------------------- main results

  lemma {:induction false} CacheAlways(s: Sys, c: Config, trace: seq<Step>)
    requires CacheOk(s, c) && Legal(s, c, trace)
    ensures CacheOk(Exec(s, c, trace), c)
  {
    if trace != [] {
      CacheAlways(s, c, trace[..|trace| - 1]);
      var t, st := Exec(s, c, trace[..|trace| - 1]), trace[|trace| - 1];
      if st.Arrives? {
        assert t.flights[st.k] in t.flights;
        ArrivalIsOk(t, c, t.flights[st.k]);
      }
      CacheStep(t, c, st);
    }
  }

  /** Cached resolution refines uncached resolution, for every request after every
      run, with any capacity and whatever has been evicted. What is served from the
      cache is the inner answer for the request's own sub-path, unless the name has
      changed since; then either it changed no longer ago than the fresh window and the
      time an answer can be on its way, or the entry is being revalidated. A name that
      has not changed is always served exactly. */
  lemma ResolveRefinesInner(s: Sys, c: Config, trace: seq<Step>, p: Path)
    requires CacheOk(s, c) && Legal(s, c, trace) && Valid(p.segments)
    ensures var t := Exec(s, c, trace);
            var (n, l) := LookUp(t.n, c, t.now, p);
            && (l.Miss? <==> Key(p) !in t.n.stale.vals)
            && (l.Fresh? <==> Key(p) in t.n.stale.vals && t.now - t.n.stale.vals[Key(p)].cachedAt < c.freshTTL)
            && n.pending == (if l.Old? then t.n.pending + {Key(p)} else t.n.pending)
            && (!l.Miss? ==>
                  || Some(l.result) == Inner(t, p)
                  || (Key(p) in t.changed && (l.Fresh? ==> t.now - t.changed[Key(p)] < c.freshTTL + t.delay.Slack())))
  {
    CacheAlways(s, c, trace);
    var t := Exec(s, c, trace);
    if Key(p) in t.n.stale.vals {
      ServesSubPath(t.n.stale.vals[Key(p)].result, p, p);
    }
  }

  lemma LearnedEntry(n: Names, c: Config, now: int, p: Path, r: Result)
    ensures var n' := Learn(n, c, now, p, r);
            Key(p) in n'.stale.vals && n'.stale.vals[Key(p)] == Stale(Strip(r), now)
  {
    hide Key, Strip, NewPath;
  }

  /** An answer that a request or a revalidation takes is served from then on to every
      request for the name, with the request's own sub-path: as fresh for the fresh window,
      and while it is revalidated after that. */
  lemma TakenIsServed(s: Sys, c: Config, k: nat, q: Path, later: int)
    requires CacheOk(s, c) && Possible(s, Arrives(k)) && !s.flights[k].via.Watch?
    requires Valid(q.segments) && Key(q) == Key(s.flights[k].p)
    ensures var n := Next(s, c, Arrives(k)).n;
            LookUp(n, c, later, q).1
            == if later - s.now < c.freshTTL then Fresh(Uncached(s.flights[k].root, q))
               else Old(Uncached(s.flights[k].root, q))
    ensures s.flights[k].via.Revalidation? ==> Key(q) !in Next(s, c, Arrives(k)).n.pending
  {
    var f := s.flights[k];
    assert f in s.flights && FlightOk(s, f);
    ServesSubPath(f.root, f.p, q);
    LearnedEntry(s.n, c, s.now, f.p, Uncached(f.root, f.p));
    hide CacheOk, FlightOk, Learn, Key, Strip, WithSub, Uncached;
  }

  /** A revalidation without an answer ends and changes nothing else. */
  lemma RefusalEnds(s: Sys, c: Config, p: Path)
    ensures var n := Next(s, c, Refused(p)).n;
            Key(p) !in n.pending && n == s.n.(pending := s.n.pending - {Key(p)})
  {
  }

  /** A deleted name is gone from the list, from the persistent store and from the registry,
      and its watcher has been told to stop; the others stay. */
  lemma DeletedIsGone(s: Sys, c: Config, key: string)
    requires s.n.stale.Valid() && key in s.n.stale.vals
    ensures var n := Next(s, c, Deleted(key)).n;
            && n.stale.vals == s.n.stale.vals - {key}
            && n.redis == (if c.hasRedis then s.n.redis - {key} else s.n.redis)
            && n.watchers == s.n.watchers - {key}
            && (key in s.n.watchers ==> s.n.watchers[key] in n.stopped)
            && s.n.stopped <= n.stopped && n.loops == s.n.loops
  {
    s.n.stale.RemoveLaw(key);
    hide Without;
  }

  // ------------------------------------------------ the fresh window itself

  /** The same state, with no allowance for the time answers take. */
  function Prompt(s: Sys): Sys { s.(delay := Delay(0, 0)) }

  /** No entry was cached after its name came to stand for something else. */
  ghost predicate WindowKept(s: Sys, c: Config) { CacheOk(Prompt(s), c) }

  /** The step takes and stores an answer whose name has come to stand for something
      else before. */
  ghost predicate Outdated(s: Sys, st: Step) {
    && st.Arrives? && st.k < |s.flights|
    && var f := s.flights[st.k];
       && Stores(s.n, f)
       && Key(f.p) in s.roots && f.root != s.roots[Key(f.p)]
       && Key(f.p) in s.changed && s.changed[Key(f.p)] < s.now
  }

  lemma PromptStep(s: Sys, c: Config, st: Step)
    requires Possible(s, st)
    ensures Possible(Prompt(s), st) && Next(Prompt(s), c, st) == Prompt(Next(s, c, st))
  {
  }

  lemma OutdatedIff(s: Sys, c: Config, k: nat)
    requires WindowKept(s, c) && Possible(s, Arrives(k))
    ensures Sound(Prompt(s), s.flights[k]) <==> !Outdated(s, Arrives(k))
  {
    assert FlightOk(Prompt(s), s.flights[k]);
  }

  /** What an outdated answer leaves. */
  lemma OutdatedIsStored(s: Sys, c: Config, k: nat)
    requires WindowKept(s, c) && Possible(s, Arrives(k)) && Outdated(s, Arrives(k))
    ensures var t := Next(s, c, Arrives(k));
            var f := s.flights[k];
            Key(f.p) in t.n.stale.vals && t.n.stale.vals[Key(f.p)] == Stale(f.root, s.now)
  {
    var f := s.flights[k];
    assert FlightOk(Prompt(s), f);
    if f.via.Watch? {
      s.n.stale.PromoteStays(Key(f.p));
      WatchResultIs(s.n, c, s.now, f.via.id, f);
      PutEffect(s.n.(stale := s.n.stale.Promote(Key(f.p))), c, Key(f.p), Stale(f.root, s.now), Key(f.p));
    } else {
      ServesSubPath(f.root, f.p, f.p);
      LearnedEntry(s.n, c, s.now, f.p, Uncached(f.root, f.p));
    }
    hide CacheOk, FlightOk, Key, Strip, Uncached, Learn, WatchResult, PutStale;
  }

  /** A step leaves an entry cached after its name came to stand for something else, so
      that it is served as fresh for longer after the change than the fresh window, if
      and only if it stores an outdated answer. */
  lemma StepKeepsWindowIff(s: Sys, c: Config, st: Step)
    requires WindowKept(s, c) && Possible(s, st)
    ensures WindowKept(Next(s, c, st), c) <==> !Outdated(s, st)
  {
    PromptStep(s, c, st);
    if st.Arrives? {
      OutdatedIff(s, c, st.k);
    }
    if Outdated(s, st) {
      OutdatedIsStored(s, c, st.k);
      var t, key := Prompt(Next(s, c, st)), Key(s.flights[st.k].p);
      assert !EntryOk(t, key, t.n.stale.vals[key]);
    } else {
      CacheStep(Prompt(s), c, st);
    }
  }

  lemma {:induction false} WindowAlways(s: Sys, c: Config, trace: seq<Step>)
    requires WindowKept(s, c) && Legal(s, c, trace)
    requires forall k :: 0 <= k < |trace| ==> !Outdated(Exec(s, c, trace[..k]), trace[k])
    ensures WindowKept(Exec(s, c, trace), c)
  {
    if trace != [] {
      var init := trace[..|trace| - 1];
      assert forall k :: 0 <= k < |init| ==> init[..k] == trace[..k] && init[k] == trace[k];
      WindowAlways(s, c, init);
      StepKeepsWindowIff(Exec(s, c, init), c, trace[|trace| - 1]);
    }
  }

  /** The fresh window is kept along every run that stores no outdated answer: whatever
      is served as fresh from the cache is the inner answer for the request's own
      sub-path, or was so within the fresh window. */
  lemma {:induction false} FreshWithinWindow(s: Sys, c: Config, trace: seq<Step>, p: Path)
    requires WindowKept(s, c) && Legal(s, c, trace) && Valid(p.segments)
    requires forall k :: 0 <= k < |trace| ==> !Outdated(Exec(s, c, trace[..k]), trace[k])
    ensures var t := Exec(s, c, trace);
            var l := LookUp(t.n, c, t.now, p).1;
            && WindowKept(t, c)
            && (l.Fresh? ==>
                  || Some(l.result) == Inner(t, p)
                  || (Key(p) in t.changed && t.now - t.changed[Key(p)] < c.freshTTL))
  {
    WindowAlways(s, c, trace);
    var t := Exec(s, c, trace);
    if Key(p) in t.n.stale.vals {
      assert EntryOk(Prompt(t), Key(p), t.n.stale.vals[Key(p)]);
      ServesSubPath(t.n.stale.vals[Key(p)].result, p, p);
    }
  }

  /** A name that never changes along a run keeps its root. */
  lemma {:induction false} UnchangedName(s: Sys, c: Config, trace: seq<Step>, key: string)
    requires forall k :: 0 <= k < |trace| && trace[k].Published? ==> Key(trace[k].name) != key
    ensures var t := Exec(s, c, trace);
            && (key in t.roots <==> key in s.roots) && (key in s.roots ==> t.roots[key] == s.roots[key])
            && (key in t.changed <==> key in s.changed)
  {
    if trace != [] {
      UnchangedName(s, c, trace[..|trace| - 1], key);
    }
  }

  /** Hence, while a name does not change, every answer from the cache for any of
      its sub-paths is the uncached one. */
  lemma {:induction false} UnchangedNameIsExact(s: Sys, c: Config, trace: seq<Step>, p: Path)
    requires CacheOk(s, c) && Legal(s, c, trace) && Valid(p.segments) && Key(p) !in s.changed
    requires forall k :: 0 <= k < |trace| && trace[k].Published? ==> Key(trace[k].name) != Key(p)
    ensures var t := Exec(s, c, trace);
            var l := LookUp(t.n, c, t.now, p).1;
            !l.Miss? ==> Key(p) in s.roots && l.result == Uncached(s.roots[Key(p)], p)
  {
    UnchangedName(s, c, trace, Key(p));
    ResolveRefinesInner(s, c, trace, p);
  }

  // --------------------------------------------------- the Redis mirror

  /** The list and the store hold the same names. */
  ghost predicate SameNames(n: Names) {
    n.stale.vals.Keys == n.redis.Keys
  }

  /** A load in this order finds every name of the store, all of them parse, and they
      fit. */
  ghost predicate Fits(n: Names, order: seq<string>) {
    && Distinct(order) && (forall key :: key in order <==> key in n.redis)
    && |n.redis| <= n.stale.cap
    && (forall key :: key in n.redis ==> FromRecord(n.redis[key]).Some?)
  }

  ghost predicate LoadsFit(s: Sys, c: Config, trace: seq<Step>) {
    forall k :: 0 <= k < |trace| && trace[k].Restart? ==> Fits(Exec(s, c, trace[..k]).n, trace[k].order)
  }

  lemma {:induction false} KeysCount(q: seq<string>)
    ensures |set key | key in q| <= |q|
    ensures Distinct(q) ==> |set key | key in q| == |q|
  {
    if q != [] {
      var init, last := q[..|q| - 1], q[|q| - 1];
      KeysCount(init);
      assert q == init + [last];
      assert (set key | key in q) == (set key | key in init) + {last};
    }
  }

  ghost predicate HoldsExactly(l: Lru<Stale>, order: seq<string>) {
    l.Valid() && |l.keys| == |order| && forall key :: key in order <==> key in l.vals
  }

  lemma AddFits(l: Lru<Stale>, init: seq<string>, key: string, e: Stale)
    requires HoldsExactly(l, init) && key !in init && |init| < l.cap
    ensures HoldsExactly(l.Add(key, e), init + [key])
  {
    l.AddStays(key, e);
    WithoutFacts(l.keys, key);
  }

  lemma {:induction false} LoadFits(m: Lru<Stale>, r: Redis, order: seq<string>)
    requires m.Valid() && m == Lru([], map[], m.cap) && Distinct(order) && |order| <= m.cap
    requires forall key :: key in order ==> key in r && FromRecord(r[key]).Some?
    ensures HoldsExactly(Load(m, r, order), order)
  {
    if order != [] {
      var init, key := order[..|order| - 1], order[|order| - 1];
      assert order == init + [key] && key in order;
      LoadFits(m, r, init);
      LoadKeeps(m, r, init);
      AddFits(Load(m, r, init), init, key, FromRecord(r[key]).value);
    }
  }

  /** After a load the list holds all the names of the store if and only if every
      record parses and they fit in its capacity: a name that falls out during the
      load stays in the store. */
  lemma {:induction false} LoadHoldsAllIff(r: Redis, size: int, order: seq<string>)
    requires Distinct(order) && forall key :: key in order <==> key in r
    ensures var l := Load(Lru([], map[], Capacity(size)), r, order);
            l.vals.Keys == r.Keys <==>
            |r| <= (if size <= 0 then 128 else size) && forall key :: key in r ==> FromRecord(r[key]).Some?
  {
    var empty: Lru<Stale> := Lru([], map[], Capacity(size));
    hide Load, FromRecord;
    var l := Load(empty, r, order);
    LoadKeeps(empty, r, order);
    KeysCount(order);
    KeysCount(l.keys);
    assert r.Keys == set key | key in order;
    assert l.vals.Keys == set key | key in l.keys;
    assert forall key :: key in l.vals.Keys ==> Stored(r, order, key, l.vals[key]);
    if |r| <= Capacity(size) && forall key :: key in r ==> FromRecord(r[key]).Some? {
      LoadFits(empty, r, order);
    }
  }

  lemma FitsSameNames(s: Sys, c: Config, order: seq<string>)
    requires s.n.stale.Valid() && c.hasRedis && Fits(s.n, order)
    ensures SameNames(Next(s, c, Restart(order)).n)
  {
    hide Load, FromRecord;
    assert Capacity(s.n.stale.cap) == s.n.stale.cap;
    LoadHoldsAllIff(s.n.redis, s.n.stale.cap, order);
    assert Next(s, c, Restart(order)).n == Open(s.n.redis, c, s.n.stale.cap, order);
    hide Next, Distinct;
  }

  lemma PutSameNames(n: Names, c: Config, key: string, e: Stale)
    requires n.stale.Valid() && SameNames(n) && c.hasRedis
    ensures SameNames(PutStale(n, c, key, e))
  {
    n.stale.AddStays(key, e);
  }

  lemma LearnSameNames(n: Names, c: Config, now: int, p: Path, r: Result)
    requires n.stale.Valid() && SameNames(n) && c.hasRedis
    ensures SameNames(Learn(n, c, now, p, r))
  {
    PutSameNames(n, c, Key(p), Stale(Strip(r), now));
  }

  lemma WatchSameNames(n: Names, c: Config, now: int, id: nat, r: Result)
    requires n.stale.Valid() && SameNames(n) && c.hasRedis && id in n.loops
    ensures SameNames(WatchResult(n, c, now, id, r))
  {
    var key := n.loops[id];
    n.stale.PromoteStays(key);
    var n0 := if key in n.stale.vals then n.(stale := n.stale.Promote(key)) else n;
    PutSameNames(n0, c, key, Stale(Strip(r), now));
  }

  lemma TakeSameNames(n: Names, c: Config, now: int, f: Flight)
    requires n.stale.Valid() && SameNames(n) && c.hasRedis
    ensures SameNames(Take(n, c, now, f))
  {
    if |f.p.segments| >= 2 {
      match f.via {
        case Watch(id) =>
          if id in n.loops {
            WatchSameNames(n, c, now, id, f.root);
          }
        case _ => LearnSameNames(n, c, now, f.p, Uncached(f.root, f.p));
      }
      hide Learn, WatchResult;
    }
  }

  lemma SameNamesStep(s: Sys, c: Config, st: Step)
    requires CacheOk(s, c) && SameNames(s.n) && c.hasRedis && (st.Restart? ==> Fits(s.n, st.order))
    ensures SameNames(Next(s, c, st).n)
  {
    if st.Arrives? {
      if st.k < |s.flights| {
        TakeSameNames(s.n, c, s.now, s.flights[st.k]);
      }
      hide Take;
    } else if st.Warmed? {
      WarmKeeps(s.n, c, s.n.stale.keys);
    } else if st.Restart? {
      FitsSameNames(s, c, st.order);
    }
  }

  /** The mirror over whole runs, restarts included: every listed name is in the
      persistent store with the same path, TTL and times; and if the two hold the same
      names once, they do so for ever, as long as every load fits. */
  lemma {:induction false} MirrorKeepsNames(s: Sys, c: Config, trace: seq<Step>)
    requires CacheOk(s, c) && Legal(s, c, trace) && c.hasRedis
    ensures Mirrored(Exec(s, c, trace).n)
    ensures SameNames(s.n) && LoadsFit(s, c, trace) ==> SameNames(Exec(s, c, trace).n)
  {
    CacheAlways(s, c, trace);
    hide Next, SameNames, Fits, EntriesOk, FlightsOk, RecordsOk, WorldOk;
    if trace != [] {
      var init := trace[..|trace| - 1];
      MirrorKeepsNames(s, c, init);
      CacheAlways(s, c, init);
      if SameNames(s.n) && LoadsFit(s, c, trace) {
        assert forall k :: 0 <= k < |init| ==> init[..k] == trace[..k] && init[k] == trace[k];
        SameNamesStep(Exec(s, c, init), c, trace[|trace| - 1]);
      }
    }
  }

  /** After a load that fits, the two hold the same names from then on. */
  lemma {:induction false} FittingLoadMirrors(s: Sys, c: Config, order: seq<string>, trace: seq<Step>)
    requires CacheOk(s, c) && c.hasRedis && Fits(s.n, order)
    requires var t := Next(s, c, Restart(order)); Legal(t, c, trace) && LoadsFit(t, c, trace)
    ensures SameNames(Exec(Next(s, c, Restart(order)), c, trace).n)
  {
    CacheStep(s, c, Restart(order));
    FitsSameNames(s, c, order);
    MirrorKeepsNames(Next(s, c, Restart(order)), c, trace);
  }
}

/** Disconnect recovery as a whole: the event stream's connection, the
    reconciler's sessions and runs, the journal, the cached statuses and the
    watch set, in every interleaving. A mutex-protected section is one step; so
    is one tick's test and clear, one delivered connection report, and the settling
    of one polled outcome. A status is fetched in two steps: the portal answers, and
    later the answer is stored; anything may happen in between. */
module Recovery {
  import opened Options
  import opened Journal
  import opened Replay
  import opened Reconciler
  import BW = BrokenWatcher

  /** A status on its way to the cache: the journal head it was answered at, and when. */
  datatype Fetch = Fetch(d: string, head: int, asked: nat)

  /** `wire` is the stream client's own state and `feed` the reports of it that
      have not reached OnConnect yet. `runs` holds every goroutine executing a
      run, and `fetches` every status that is on its way. The rest is history: the
      journal head when the stream last came up (`wireHead`) and when that was last
      delivered as a new session (`openedHead`, at time `openedAt`); the run of each
      session that has ended; and when each change was journaled. */
  datatype Sys = Sys(
    f: Flags, runs: seq<Run>, w: World, wire: bool, feed: seq<bool>, watch: BW.Watch, fetches: seq<Fetch>,
    wireHead: int, openedHead: int, openedAt: nat, ended: map<nat, Run>, born: map<int, nat>, clock: nat)

  datatype Step =
    | Wire(up: bool)                       // the stream client reports its state
    | Deliver                              // the oldest report reaches OnConnect
    | Journaled(e: Event)                  // the portal records a change
    | RunStep(k: nat, input: Input)        // a live run takes a step
    | RunEnds(k: nat)                      // a run that is over updates the flags
    | Answered(d: string)                  // the portal answers a status request
    | Reread(d: string)                    // a cached status is read to be stored again
    | Stored(k: nat)                       // a status on its way is cached
    | Lost(k: nat)                         // a status on its way is dropped
    | Invalidated(d: string)               // a realtime event drops a status
    | MarkBroken(d: string)
    | Polled(d: string, o: BW.Outcome)
    | Tick                                 // the watcher tests and clears
    | Crash(kept: set<string>, cursorKept: bool)  // restart: what Redis kept survives

  datatype Config = Config(maxPages: nat, confirm: nat)

  ghost predicate Enabled(s: Sys, st: Step, c: Config, contract: Contract) {
    match st
    case Deliver => s.feed != []
    case Journaled(e) => e.id > s.w.head
    case RunStep(k, input) => k < |s.runs| && Replay.Enabled(s.runs[k], s.w, c.maxPages, input, contract)
    case RunEnds(k) => k < |s.runs| && s.runs[k].pc.Ended?
    case Reread(d) => d in s.w.cache
    case Stored(k) => k < |s.fetches|
    case Lost(k) => k < |s.fetches|
    case Polled(d, o) => d in s.watch.broken
    case _ => true
  }

  /** Whether a tick in this state clears the watch set. */
  predicate Clears(s: Sys) { s.wire && s.f.ready }

  function Launch(runs: seq<Run>, gen: Option<nat>): seq<Run> {
    if gen.Some? then runs + [NewRun(gen.value)] else runs
  }

  /** The step finds what it acts on. */
  predicate Fits(s: Sys, st: Step) {
    && (st.RunStep? || st.RunEnds? ==> st.k < |s.runs|)
    && (st.RunEnds? ==> s.runs[st.k].pc.Ended?)
    && (st.Deliver? ==> s.feed != [])
    && (st.Stored? || st.Lost? ==> st.k < |s.fetches|)
    && (st.Reread? ==> st.d in s.w.cache)
  }

  function Without(fs: seq<Fetch>, k: nat): seq<Fetch>
    requires k < |fs|
  {
    fs[..k] + fs[k + 1..]
  }

  function Advance(s: Sys, st: Step, c: Config): Sys
    requires Fits(s, st)
  {
    match st
    case Wire(up) =>
      s.(wire := up, feed := s.feed + [up], wireHead := if up && !s.wire then s.w.head else s.wireHead)
    case Deliver =>
      var (f, gen) := Connect(s.f, s.feed[0]);
      var opens := s.feed[0] && !s.f.connected;
      s.(f := f, feed := s.feed[1..], runs := Launch(s.runs, gen),
         openedHead := if opens then s.w.head else s.openedHead,
         openedAt := if opens then s.clock else s.openedAt)
    case Journaled(e) =>
      s.(w := s.w.(journal := s.w.journal + [e], head := e.id), born := s.born[e.id := s.clock])
    case RunStep(k, input) =>
      var (r, w) := Replay.Next(s.runs[k], s.w, s.clock, input);
      s.(runs := s.runs[k := r], w := w)
    case RunEnds(k) =>
      var r := s.runs[k];
      var (f, gen) := Finish(s.f, r.gen, r.pc.ok);
      s.(f := f, runs := Launch(s.runs[..k] + s.runs[k + 1..], gen), ended := s.ended[r.gen := r])
    case Answered(d) => s.(fetches := s.fetches + [Fetch(d, s.w.head, s.clock)])
    case Reread(d) => s.(fetches := s.fetches + [Fetch(d, s.w.cache[d].head, s.w.cache[d].asked)])
    case Stored(k) =>
      var f := s.fetches[k];
      s.(fetches := Without(s.fetches, k), w := s.w.(cache := s.w.cache[f.d := Status(f.head, f.asked, s.clock)]))
    case Lost(k) => s.(fetches := Without(s.fetches, k))
    case Invalidated(d) => s.(w := s.w.(cache := s.w.cache - {d}))
    case MarkBroken(d) => s.(watch := s.watch.Mark(d))
    case Polled(d, o) =>
      s.(watch := s.watch.Poll(d, o, c.confirm),
         w := if o.Recovers() then s.w.(cache := s.w.cache - {d}) else s.w)
    case Tick => if Clears(s) then s.(watch := BW.Watch({}, map[])) else s
    case Crash(kept, cursorKept) =>
      s.(f := Flags(false, false, false, false, 0), runs := [], wire := false, feed := [],
         watch := BW.Watch({}, map[]), fetches := [], ended := map[],
         w := s.w.(cache := map d | d in s.w.cache && d in kept :: s.w.cache[d],
                   cursor := if cursorKept then s.w.cursor else 0))
  }

  /** Time passes with every step. */
  function Next(s: Sys, st: Step, c: Config): Sys {
    (if Fits(s, st) then Advance(s, st, c) else s).(clock := s.clock + 1)
  }

  /** A first start against the journal `j`. */
  function Start(j: seq<Event>, head: int): Sys {
    Sys(Flags(false, false, false, false, 0), [], World(j, head, 0, map[], [], map[]), false, [],
        BW.Watch({}, map[]), [], 0, 0, 0, map[], map[], 0)
  }

  function Exec(s0: Sys, trace: seq<Step>, c: Config): Sys {
    if trace == [] then s0 else Next(Exec(s0, trace[..|trace| - 1], c), trace[|trace| - 1], c)
  }

  /** Every step of the trace is enabled in its turn, and every page keeps the contract. */
  ghost predicate Legal(s0: Sys, trace: seq<Step>, c: Config, contract: Contract) {
    trace == [] ||
    (Legal(s0, trace[..|trace| - 1], c, contract)
     && Enabled(Exec(s0, trace[..|trace| - 1], c), trace[|trace| - 1], c, contract))
  }

  /** A run that is live, or ended as the run of its session. */
  predicate Known(s: Sys, r: Run) {
    r in s.runs || (r.gen in s.ended && s.ended[r.gen] == r)
  }

  // ------------------------------------------------------------- sessions

  ghost predicate SessionsOk(s: Sys) {
    && |s.runs| <= 1
    && (s.f.running <==> |s.runs| == 1)
    && (s.f.pending ==> s.f.running)
    && (s.f.running ==>
          && s.runs[0].gen <= s.f.generation
          && (s.f.pending <==> s.runs[0].gen < s.f.generation)
          && (forall g :: g in s.ended ==> g < s.runs[0].gen))
    && (forall g :: g in s.ended ==> g <= s.f.generation && s.ended[g].gen == g && s.ended[g].pc.Ended?)
    && (s.f.generation > 0 && !s.f.running ==> s.f.generation in s.ended)
    && (s.f.connected ==> s.f.generation > 0)
    && (s.f.ready <==> s.f.connected && s.f.generation in s.ended && s.ended[s.f.generation].pc.ok)
  }

  lemma SessionOpensOrCloses(s: Sys, st: Step, c: Config)
    requires SessionsOk(s) && st.Deliver? && Fits(s, st)
    ensures SessionsOk(Next(s, st, c))
  {
  }

  /** When a session opens, and what a report does: exactly a report of a connection that
      follows a delivered disconnection, or none at all, opens one; the delivered state is
      what the last report says; and one that repeats it changes nothing. */
  lemma SessionOpensIff(s: Sys, st: Step, c: Config)
    requires Fits(s, st)
    ensures var f := Next(s, st, c).f;
            && (f.generation == s.f.generation + 1 <==> st.Deliver? && s.feed[0] && !s.f.connected)
            && (!st.Crash? && f.generation != s.f.generation ==> f.generation == s.f.generation + 1 && !f.ready)
            && (st.Deliver? ==> f.connected == s.feed[0])
            && (st.Deliver? && s.feed[0] && s.f.connected ==> f == s.f && Next(s, st, c).runs == s.runs)
            && (!st.Deliver? && !st.Crash? ==> f.connected == s.f.connected)
  {
  }

  lemma SessionMovesOn(s: Sys, st: Step, c: Config)
    requires SessionsOk(s) && st.RunEnds? && Fits(s, st)
    ensures SessionsOk(Next(s, st, c))
  {
    assert s.runs[..0] + s.runs[1..] == [];
  }

  lemma SessionsStep(s: Sys, st: Step, c: Config)
    requires SessionsOk(s) && Enabled(s, st, c, Anything)
    ensures SessionsOk(Next(s, st, c))
  {
    if st.Deliver? {
      SessionOpensOrCloses(s, st, c);
    } else if st.RunEnds? {
      SessionMovesOn(s, st, c);
    }
  }

  /** A run known after a step was known before, is new, or has just taken the step. */
  lemma KnownComes(s: Sys, st: Step, c: Config, r: Run)
    requires SessionsOk(s) && Fits(s, st) && Known(Next(s, st, c), r)
    ensures || r == NewRun(r.gen)
            || Known(s, r)
            || (st.RunStep? && r in Next(s, st, c).runs && r == Replay.Next(s.runs[st.k], s.w, s.clock, st.input).0)
  {
    if st.RunEnds? {
      assert s.runs[..0] + s.runs[1..] == [];
      assert s.runs[0] in s.runs;
    }
  }

  // --------------------------------------------------------------- timing

  /** A run that has read its cursor did so in the past, and after the latest
      session opened if it is that session's run. */
  ghost predicate RunTimed(r: Run, gen: nat, openedAt: nat, openedHead: int, clock: nat, head: int) {
    !r.pc.Loading? ==>
      && r.loadedAt < clock && r.loadedHead <= head
      && (r.gen == gen ==> openedAt < r.loadedAt && openedHead <= r.loadedHead)
  }

  ghost predicate RunsTimed(s: Sys) {
    forall r :: Known(s, r) ==> RunTimed(r, s.f.generation, s.openedAt, s.openedHead, s.clock, s.w.head)
  }

  ghost predicate TimingOk(s: Sys) {
    && s.openedAt <= s.clock && 0 <= s.openedHead <= s.w.head
    && (if s.clock == 0 then s.runs == [] && s.ended == map[] && !s.f.connected else s.openedAt < s.clock)
    && RunsTimed(s)
  }

  lemma RunStepTimed(s: Sys, k: nat, input: Input, c: Config)
    requires SessionsOk(s) && TimingOk(s) && Enabled(s, RunStep(k, input), c, Anything)
    ensures var r := Replay.Next(s.runs[k], s.w, s.clock, input).0;
            RunTimed(r, s.f.generation, s.openedAt, s.openedHead, s.clock + 1, s.w.head)
  {
    assert Known(s, s.runs[k]);
  }

  lemma TimingStep(s: Sys, st: Step, c: Config)
    requires SessionsOk(s) && TimingOk(s) && Enabled(s, st, c, Anything)
    ensures TimingOk(Next(s, st, c))
  {
    var s' := Next(s, st, c);
    if st.RunStep? {
      RunStepTimed(s, st.k, st.input, c);
    }
    assert s'.w.head >= s.w.head;
    forall r | Known(s', r)
      ensures RunTimed(r, s'.f.generation, s'.openedAt, s'.openedHead, s'.clock, s'.w.head)
    {
      KnownComes(s, st, c, r);
      if Known(s, r) {
        assert RunTimed(r, s.f.generation, s.openedAt, s.openedHead, s.clock, s.w.head);
      }
    }
  }

  // ---------------------------------------- paging and cursor, any portal

  ghost predicate PagingOk(s: Sys, c: Config) {
    && (forall r :: Known(s, r) ==> Bounded(r, c.maxPages))
    && (forall r :: r in s.runs ==> CursorBehind(r, s.w))
  }

  /** What is live and not new was live before. */
  lemma StaysLive(s: Sys, st: Step, c: Config, r: Run)
    requires SessionsOk(s) && Fits(s, st) && r in Next(s, st, c).runs && !st.RunStep?
    ensures r == NewRun(r.gen) || (r in s.runs && (st.Crash? || Next(s, st, c).w.cursor == s.w.cursor))
  {
    if st.RunEnds? {
      assert s.runs[..0] + s.runs[1..] == [];
    }
  }

  lemma PagingStep(s: Sys, st: Step, c: Config)
    requires SessionsOk(s) && PagingOk(s, c) && Enabled(s, st, c, Anything)
    ensures PagingOk(Next(s, st, c), c)
  {
    var s' := Next(s, st, c);
    if st.RunStep? {
      assert s.runs[st.k] in s.runs && Known(s, s.runs[st.k]);
      BoundedStep(s.runs[st.k], s.w, s.clock, c.maxPages, st.input);
      CursorStep(s.runs[st.k], s.w, s.clock, st.input);
      assert s'.runs == [Replay.Next(s.runs[st.k], s.w, s.clock, st.input).0];
    }
    forall r | Known(s', r)
      ensures Bounded(r, c.maxPages) && (r in s'.runs ==> CursorBehind(r, s'.w))
    {
      KnownComes(s, st, c, r);
      if r in s'.runs && !st.RunStep? {
        StaysLive(s, st, c, r);
      }
    }
  }

  // ------------------------------------------- what runs keep, honest pages

  ghost predicate RunOk(r: Run, w: World) { RunSafe(r, w) && RunExact(r, w) }

  ghost predicate ReplayOk(s: Sys) {
    WorldSafe(s.w) && forall r :: Known(s, r) ==> RunOk(r, s.w)
  }

  /** Only runs and the portal change more of the world than statuses and the cursor. */
  lemma WorldElsewhere(s: Sys, st: Step, c: Config)
    requires !st.RunStep? && !st.Journaled?
    ensures var s' := Next(s, st, c);
            && s'.w == s.w.(cache := s'.w.cache, cursor := s'.w.cursor) && s'.w.cursor in {s.w.cursor, 0}
            && s'.born == s.born && s'.clock == s.clock + 1
  {
  }

  lemma RunMakesWorld(r: Run, w: World, now: nat, maxPages: nat, i: Input)
    requires WorldSafe(w) && RunOk(r, w) && Replay.Enabled(r, w, maxPages, i, HonestPages)
    ensures WorldSafe(Replay.Next(r, w, now, i).1) && Later(w, Replay.Next(r, w, now, i).1)
  {
    SafeStep(r, w, now, maxPages, i);
  }

  /** Changes of the cached statuses, or losing the cursor, leave the world safe. */
  lemma CacheChanges(w: World, w': World)
    requires WorldSafe(w)
    requires w' == w.(cache := w'.cache, cursor := w'.cursor) && w'.cursor in {w.cursor, 0}
    ensures WorldSafe(w') && Later(w, w')
  {
  }

  /** The world after a step. */
  lemma WorldStep(s: Sys, st: Step, c: Config)
    requires SessionsOk(s) && ReplayOk(s) && Enabled(s, st, c, HonestPages)
    ensures WorldSafe(Next(s, st, c).w) && Later(s.w, Next(s, st, c).w)
  {
    hide WorldSafe, RunOk;
    if st.RunStep? {
      assert s.runs[st.k] in s.runs && Known(s, s.runs[st.k]);
      RunMakesWorld(s.runs[st.k], s.w, s.clock, c.maxPages, st.input);
    } else if st.Journaled? {
      JournalGrows(s.w, st.e);
      assert st.e.id > s.w.head && Next(s, st, c).w.journal == s.w.journal + [st.e];
    } else {
      WorldElsewhere(s, st, c);
      hide Enabled, Next;
      CacheChanges(s.w, Next(s, st, c).w);
    }
  }

  lemma OkGoesOn(r: Run, w: World, w': World)
    requires RunOk(r, w) && WorldSafe(w) && Later(w, w')
    ensures RunOk(r, w')
  {
    RunGoesOn(r, w, w');
  }

  lemma OkStep(r: Run, w: World, now: nat, maxPages: nat, i: Input)
    requires WorldSafe(w) && RunOk(r, w) && Replay.Enabled(r, w, maxPages, i, HonestPages)
    ensures RunOk(Replay.Next(r, w, now, i).0, Replay.Next(r, w, now, i).1)
  {
    SafeStep(r, w, now, maxPages, i);
    ExactStep(r, w, now, maxPages, i);
  }

  lemma NewIsOk(gen: nat, w: World)
    ensures RunOk(NewRun(gen), w)
  {
  }

  lemma ReplayStep(s: Sys, st: Step, c: Config)
    requires SessionsOk(s) && ReplayOk(s) && Enabled(s, st, c, HonestPages)
    ensures ReplayOk(Next(s, st, c))
  {
    hide RunOk, WorldSafe, Later;
    var s' := Next(s, st, c);
    WorldStep(s, st, c);
    forall r | Known(s', r)
      ensures RunOk(r, s'.w)
    {
      KnownComes(s, st, c, r);
      if Known(s, r) {
        OkGoesOn(r, s.w, s'.w);
      } else if st.RunStep? {
        assert s.runs[st.k] in s.runs && Known(s, s.runs[st.k]);
        OkStep(s.runs[st.k], s.w, s.clock, c.maxPages, st.input);
      } else {
        NewIsOk(r.gen, s'.w);
      }
    }
  }

  // ------------------------------------------------- reports on their way

  /** Connected, and no disconnection is still on its way to OnConnect. */
  ghost predicate Caught(s: Sys) {
    s.f.connected && false !in s.feed
  }

  /** The reports still on their way lead from the delivered state to the
      stream's own; once the last opening has been delivered, its session opened
      no earlier than the stream came up. */
  ghost predicate FeedOk(s: Sys) {
    && s.wireHead <= s.w.head
    && s.wire == (if s.feed == [] then s.f.connected else s.feed[|s.feed| - 1])
    && (Caught(s) ==> s.wire && s.wireHead <= s.openedHead)
  }

  /** A report joins the feed. */
  lemma FeedGrows(s: Sys, up: bool, c: Config)
    requires FeedOk(s)
    ensures FeedOk(Next(s, Wire(up), c))
  {
    var s' := Next(s, Wire(up), c);
    assert s'.feed == s.feed + [up];
    if s.feed != [] {
      assert s.feed[|s.feed| - 1] in s.feed;
    }
    if Caught(s') {
      assert forall b :: b in s.feed ==> b in s'.feed;
      assert Caught(s) && up in s'.feed;
    }
  }

  /** The oldest report leaves it. */
  lemma FeedDelivers(s: Sys, c: Config)
    requires FeedOk(s) && s.feed != []
    ensures FeedOk(Next(s, Deliver, c))
  {
    var s' := Next(s, Deliver, c);
    assert s.feed == [s.feed[0]] + s'.feed;
    if s'.feed != [] {
      assert s'.feed[|s'.feed| - 1] == s.feed[|s.feed| - 1];
      assert s'.feed[|s'.feed| - 1] in s'.feed;
    }
    if Caught(s') {
      assert s.feed[0] || s.f.connected;
    }
  }

  /** Nothing else touches the feed, the delivered state or the stream's own. */
  lemma FeedStep(s: Sys, st: Step, c: Config)
    requires FeedOk(s) && Enabled(s, st, c, Anything)
    ensures FeedOk(Next(s, st, c))
  {
    match st {
      case Wire(up) => FeedGrows(s, up, c);
      case Deliver => FeedDelivers(s, c);
      case RunStep(k, input) =>
        var w' := Replay.Next(s.runs[k], s.w, s.clock, input).1;
        assert w'.head == s.w.head;
      case _ =>
    }
  }

  // ------------------------------------------------------ cached statuses

  /** When a change was journaled; those of the start are as old as the run. */
  function Born(s: Sys, id: int): nat { if id in s.born then s.born[id] else 0 }

  /** An answer of the past misses exactly the changes journaled after it. */
  ghost predicate Seen(s: Sys, head: int, asked: nat) {
    && head <= s.w.head && asked < s.clock
    && forall e :: e in s.w.journal ==> (head < e.id <==> asked < Born(s, e.id))
  }

  /** The cached statuses are answers of the past, each stored after every dispatch of a
      change of its site so far. */
  ghost predicate StatusOk(s: Sys, d: string, v: Status) {
    && Seen(s, v.head, v.asked)
    && forall e :: e in s.w.applied && (e.kind.Published? || e.kind.Removed?) && e.domain == d && d != "" ==>
         s.w.applied[e] < v.stored
  }

  ghost predicate DatesOk(s: Sys) {
    && (forall id :: id in s.born ==> id <= s.w.head && s.born[id] < s.clock)
    && (forall e :: e in s.w.applied ==> Born(s, e.id) <= s.w.applied[e] < s.clock)
  }

  ghost predicate StatusesOk(s: Sys) {
    && DatesOk(s)
    && (forall k :: 0 <= k < |s.fetches| ==> Seen(s, s.fetches[k].head, s.fetches[k].asked))
    && (forall d :: d in s.w.cache ==> StatusOk(s, d, s.w.cache[d]))
  }

  lemma DatesOfDispatch(s: Sys, k: nat, input: Input, c: Config)
    requires DatesOk(s) && k < |s.runs|
    ensures DatesOk(Next(s, RunStep(k, input), c))
  {
    DispatchesOnly(s.runs[k], s.w, s.clock, input);
    hide Replay.Next, Dispatches;
  }

  lemma DatesOfChange(s: Sys, e: Event, c: Config)
    requires DatesOk(s) && WorldSafe(s.w) && e.id > s.w.head
    ensures DatesOk(Next(s, Journaled(e), c))
  {
    assert forall x :: x in s.w.applied ==> x.id <= s.w.head;
  }

  lemma DatesStep(s: Sys, st: Step, c: Config)
    requires DatesOk(s) && WorldSafe(s.w) && Enabled(s, st, c, HonestPages)
    ensures DatesOk(Next(s, st, c))
  {
    if st.RunStep? {
      DatesOfDispatch(s, st.k, st.input, c);
    } else if st.Journaled? {
      DatesOfChange(s, st.e, c);
    } else {
      WorldElsewhere(s, st, c);
      hide Next, Enabled, WorldSafe;
    }
  }

  /** What has been seen stays so. */
  lemma SeenStep(s: Sys, st: Step, c: Config, head: int, asked: nat)
    requires DatesOk(s) && WorldSafe(s.w) && Enabled(s, st, c, HonestPages) && Seen(s, head, asked)
    ensures Seen(Next(s, st, c), head, asked)
  {
    if st.RunStep? {
      DispatchesOnly(s.runs[st.k], s.w, s.clock, st.input);
      hide Replay.Next, Replay.Enabled, Dispatches;
    }
  }

  /** An answer given now has seen every change so far. */
  lemma SeenNow(s: Sys)
    requires DatesOk(s) && WorldSafe(s.w)
    ensures forall e :: e in s.w.journal ==> (s.w.head < e.id <==> s.clock < Born(s, e.id))
  {
    assert forall e :: e in s.w.journal ==> e.id <= s.w.head;
  }

  lemma FetchStep(s: Sys, st: Step, c: Config, k: nat)
    requires StatusesOk(s) && WorldSafe(s.w) && Enabled(s, st, c, HonestPages)
    requires k < |Next(s, st, c).fetches|
    ensures var s' := Next(s, st, c); Seen(s', s'.fetches[k].head, s'.fetches[k].asked)
  {
    var f := Next(s, st, c).fetches[k];
    SeenNow(s);
    if (st.Stored? || st.Lost?) && st.k <= k {
      assert f == s.fetches[k + 1];
      SeenStep(s, st, c, f.head, f.asked);
    } else if k < |s.fetches| {
      assert f == s.fetches[k];
      SeenStep(s, st, c, f.head, f.asked);
    } else if st.Reread? {
      SeenStep(s, st, c, f.head, f.asked);
    }
  }

  /** A status that is not stored by the step was cached before, and not by a dispatch
      of a change of its site. */
  lemma CachedBefore(s: Sys, st: Step, c: Config, d: string)
    requires Fits(s, st) && d in Next(s, st, c).w.cache && !(st.Stored? && s.fetches[st.k].d == d)
    ensures d in s.w.cache && Next(s, st, c).w.cache[d] == s.w.cache[d]
    ensures var s' := Next(s, st, c);
            forall e :: e in s'.w.applied && (e.kind.Published? || e.kind.Removed?) && e.domain == d && d != "" ==>
              e in s.w.applied && s'.w.applied[e] == s.w.applied[e]
  {
    if st.RunStep? {
      DispatchesOnly(s.runs[st.k], s.w, s.clock, st.input);
      hide Replay.Next, Dispatches;
    }
  }

  lemma StatusStep(s: Sys, st: Step, c: Config, d: string)
    requires StatusesOk(s) && WorldSafe(s.w) && Enabled(s, st, c, HonestPages)
    requires d in Next(s, st, c).w.cache
    ensures StatusOk(Next(s, st, c), d, Next(s, st, c).w.cache[d])
  {
    var v := Next(s, st, c).w.cache[d];
    if st.Stored? && s.fetches[st.k].d == d {
      SeenStep(s, st, c, v.head, v.asked);
    } else {
      CachedBefore(s, st, c, d);
      assert StatusOk(s, d, v);
      SeenStep(s, st, c, v.head, v.asked);
      hide Next, Seen, Enabled;
    }
  }

  lemma StatusesStep(s: Sys, st: Step, c: Config)
    requires StatusesOk(s) && WorldSafe(s.w) && Enabled(s, st, c, HonestPages)
    ensures StatusesOk(Next(s, st, c))
  {
    DatesStep(s, st, c);
    forall k | 0 <= k < |Next(s, st, c).fetches|
      ensures var s' := Next(s, st, c); Seen(s', s'.fetches[k].head, s'.fetches[k].asked)
    {
      FetchStep(s, st, c, k);
    }
    forall d | d in Next(s, st, c).w.cache
      ensures StatusOk(Next(s, st, c), d, Next(s, st, c).w.cache[d])
    {
      StatusStep(s, st, c, d);
    }
  }

  // ---------------------------------------------------- over every trace

  /** What holds whatever the portal's pages are. */
  ghost predicate BasicOk(s: Sys, c: Config) {
    SessionsOk(s) && TimingOk(s) && PagingOk(s, c) && FeedOk(s)
  }

  lemma Weaker(s: Sys, st: Step, c: Config, contract: Contract)
    requires Enabled(s, st, c, contract)
    ensures Enabled(s, st, c, Anything)
    ensures !contract.Anything? ==> Enabled(s, st, c, HonestPages)
  {
  }

  lemma {:induction false} BasicAlways(j: seq<Event>, head: int, trace: seq<Step>, c: Config, contract: Contract)
    requires 0 <= head && Legal(Start(j, head), trace, c, contract)
    ensures BasicOk(Exec(Start(j, head), trace, c), c)
  {
    if trace != [] {
      var before, st := trace[..|trace| - 1], trace[|trace| - 1];
      BasicAlways(j, head, before, c, contract);
      var s := Exec(Start(j, head), before, c);
      Weaker(s, st, c, contract);
      hide Enabled, SessionsOk, TimingOk, PagingOk, FeedOk, Next;
      SessionsStep(s, st, c);
      TimingStep(s, st, c);
      PagingStep(s, st, c);
      FeedStep(s, st, c);
    }
  }

  /** What holds besides as long as the pages are honest. */
  ghost predicate SafeOk(s: Sys) {
    ReplayOk(s) && StatusesOk(s)
  }

  lemma {:induction false} SafeAlways(j: seq<Event>, head: int, trace: seq<Step>, c: Config, contract: Contract)
    requires Ordered(j, head) && Legal(Start(j, head), trace, c, contract) && !contract.Anything?
    ensures BasicOk(Exec(Start(j, head), trace, c), c) && SafeOk(Exec(Start(j, head), trace, c))
  {
    BasicAlways(j, head, trace, c, contract);
    if trace != [] {
      var before, st := trace[..|trace| - 1], trace[|trace| - 1];
      SafeAlways(j, head, before, c, contract);
      var s := Exec(Start(j, head), before, c);
      Weaker(s, st, c, contract);
      hide Enabled, SessionsOk, TimingOk, PagingOk, FeedOk, Next, StatusesOk;
      ReplayStep(s, st, c);
      StatusesStep(s, st, c);
    }
  }

  // -------------------------------------------------------- main results

  /** Crash-safe replay. Over every interleaving of sessions, faults and crashes,
      with runs cut off anywhere and whatever the marks do: each journaled event
      up to the persisted cursor has been dispatched, and each dispatched deployment
      submitted. */
  lemma CrashSafeReplay(j: seq<Event>, head: int, trace: seq<Step>, c: Config)
    requires Ordered(j, head) && Legal(Start(j, head), trace, c, HonestPages)
    ensures var w := Exec(Start(j, head), trace, c).w;
            Covered(w, w.cursor) && Submitted(w)
  {
    SafeAlways(j, head, trace, c, HonestPages);
  }

  lemma SessionsTell(s: Sys)
    requires SessionsOk(s)
    ensures forall r :: r in s.runs ==> (s.f.pending <==> r.gen < s.f.generation)
    ensures s.f.connected && !s.f.pending && s.f.generation !in s.ended ==>
              exists r :: r in s.runs && r.gen == s.f.generation
  {
    if |s.runs| == 1 {
      assert s.runs[0] in s.runs;
    }
  }

  /** At most one run is live; while one is, a newer session is pending exactly
      when the live run is not for the current session; and the current session is
      never forgotten: it has a live run, a pending one, or one that has ended. No
      contract is asked of the portal. */
  lemma OneRunNoLostSession(j: seq<Event>, head: int, trace: seq<Step>, c: Config)
    requires 0 <= head && Legal(Start(j, head), trace, c, Anything)
    ensures var s := Exec(Start(j, head), trace, c);
            && |s.runs| <= 1 && (s.f.running <==> |s.runs| == 1)
            && (forall r :: r in s.runs ==> (s.f.pending <==> r.gen < s.f.generation))
            && (s.f.connected ==>
                  (exists r :: r in s.runs && r.gen == s.f.generation) || s.f.pending
                  || s.f.generation in s.ended)
  {
    BasicAlways(j, head, trace, c, Anything);
    SessionsTell(Exec(Start(j, head), trace, c));
  }

  /** Ready exactly while connected with the current session's own run ended
      without error; that run read its cursor after the session opened. No contract
      is asked of the portal. */
  lemma {:induction false} ReadyIsNeverStale(j: seq<Event>, head: int, trace: seq<Step>, c: Config)
    requires 0 <= head && Legal(Start(j, head), trace, c, Anything)
    ensures var s := Exec(Start(j, head), trace, c);
            && (s.f.ready <==> s.f.connected && s.f.generation in s.ended
                               && s.ended[s.f.generation].pc.Ended? && s.ended[s.f.generation].pc.ok)
            && (s.f.ready ==> s.openedAt < s.ended[s.f.generation].loadedAt
                              && s.openedHead <= s.ended[s.f.generation].loadedHead)
  {
    BasicAlways(j, head, trace, c, Anything);
    var s := Exec(Start(j, head), trace, c);
    if s.f.ready {
      assert Known(s, s.ended[s.f.generation]);
    }
  }

  /** The final mark of the current session's run, if it has ended. */
  function Mark(s: Sys): int {
    if s.f.generation in s.ended && s.ended[s.f.generation].pc.Ended? then s.ended[s.f.generation].pc.mark else 0
  }

  /** The end of a run launched for an older session leaves the reconciler not ready. */
  lemma StaleRunCannotMarkReady(j: seq<Event>, head: int, trace: seq<Step>, c: Config, k: nat)
    requires 0 <= head && Legal(Start(j, head), trace + [RunEnds(k)], c, Anything)
    ensures var s := Exec(Start(j, head), trace, c);
            k < |s.runs| && (s.runs[k].gen < s.f.generation ==>
              !Exec(Start(j, head), trace + [RunEnds(k)], c).f.ready)
  {
    assert (trace + [RunEnds(k)])[..|trace|] == trace;
    BasicAlways(j, head, trace, c, Anything);
  }

  /** Bounded paging over every run of the gateway and for any portal: no run asks for
      more pages than the cap, and the cursors it asks after climb. */
  lemma EveryRunIsBounded(j: seq<Event>, head: int, trace: seq<Step>, c: Config, r: Run)
    requires 0 <= head && Legal(Start(j, head), trace, c, Anything)
    requires Known(Exec(Start(j, head), trace, c), r)
    ensures |r.asked| <= c.maxPages && Ascending(r.asked)
  {
    BasicAlways(j, head, trace, c, Anything);
  }

  /** Exact replay, under honest pages. The events of a run that ended without error
      are the journal from its start on, each once and in order, up to its final mark
      or the last cursor it asked after, if that is later. And it has reached the head
      of the journal at its start if and only if its last page was not a stuck one;
      that page alone is asked to reach the end when it says so. */
  lemma {:induction false} CompletedRunIsExact(j: seq<Event>, head: int, trace: seq<Step>, c: Config, r: Run)
    requires Ordered(j, head) && Legal(Start(j, head), trace, c, HonestPages)
    requires Known(Exec(Start(j, head), trace, c), r) && r.pc.Ended? && r.pc.ok
    ensures var s := Exec(Start(j, head), trace, c);
            && r.last.Some? && r.done == Between(s.w.journal, r.start, Max(r.last.value.after, r.pc.mark))
            && Covered(s.w, r.pc.mark)
            && (LastReaches(r) ==> (r.pc.mark >= r.loadedHead <==> !Stuck(r)))
  {
    SafeAlways(j, head, trace, c, HonestPages);
    var s := Exec(Start(j, head), trace, c);
    assert RunOk(r, s.w);
    if LastReaches(r) {
      EndsDrainedIff(r, s.w);
    }
  }

  lemma ReadyRun(j: seq<Event>, head: int, trace: seq<Step>, c: Config)
    requires 0 <= head && Legal(Start(j, head), trace, c, HonestPages) && Exec(Start(j, head), trace, c).f.ready
    ensures var s := Exec(Start(j, head), trace, c);
            && s.f.generation in s.ended && Known(s, s.ended[s.f.generation])
            && s.ended[s.f.generation].pc == Ended(true, Mark(s))
            && s.openedHead <= s.ended[s.f.generation].loadedHead
  {
    BasicAlways(j, head, trace, c, HonestPages);
    var s := Exec(Start(j, head), trace, c);
    assert Known(s, s.ended[s.f.generation]);
  }

  /** What ready is worth: everything journaled before the session opened has been
      dispatched if and only if nothing after the final mark of the session's own run
      is missing, which that run's own last page decides: unless it was stuck, the
      mark lies no earlier. */
  lemma {:induction false} ReadyMeansDrainedIff(j: seq<Event>, head: int, trace: seq<Step>, c: Config)
    requires Ordered(j, head) && Legal(Start(j, head), trace, c, HonestPages)
    requires Exec(Start(j, head), trace, c).f.ready
    ensures var s := Exec(Start(j, head), trace, c);
            s.f.generation in s.ended
            && var r := s.ended[s.f.generation];
            && (Covered(s.w, s.openedHead) <==>
                  forall e :: e in s.w.journal && Mark(s) < e.id <= s.openedHead ==> e in s.w.applied)
            && (LastReaches(r) && !Stuck(r) ==> s.openedHead <= Mark(s))
  {
    ReadyRun(j, head, trace, c);
    var s := Exec(Start(j, head), trace, c);
    CompletedRunIsExact(j, head, trace, c, s.ended[s.f.generation]);
  }

  /** The run of the current session, if it has ended, was not stuck, and its last page
      reached the end if it said so. */
  predicate OwnRunReaches(s: Sys) {
    s.f.generation in s.ended ==>
      var r := s.ended[s.f.generation]; LastReaches(r) && !Stuck(r)
  }

  /** The last page a run was given kept the whole contract. */
  ghost predicate LastDrains(r: Run) {
    r.last.Some? ==> Draining(r.last.value.head, r.last.value.after, r.last.value.page)
  }

  lemma DrainsStep(s: Sys, st: Step, c: Config)
    requires SessionsOk(s) && Enabled(s, st, c, DrainingPages)
    requires forall r :: Known(s, r) ==> LastDrains(r)
    ensures forall r :: Known(Next(s, st, c), r) ==> LastDrains(r)
  {
    forall r | Known(Next(s, st, c), r)
      ensures LastDrains(r)
    {
      KnownComes(s, st, c, r);
      assert st.RunStep? ==> Known(s, s.runs[st.k]);
    }
  }

  lemma {:induction false} LastsDrain(j: seq<Event>, head: int, trace: seq<Step>, c: Config)
    requires 0 <= head && Legal(Start(j, head), trace, c, DrainingPages)
    ensures forall r :: Known(Exec(Start(j, head), trace, c), r) ==> LastDrains(r)
  {
    if trace != [] {
      var before := trace[..|trace| - 1];
      LastsDrain(j, head, before, c);
      BasicAlways(j, head, before, c, DrainingPages);
      DrainsStep(Exec(Start(j, head), before, c), trace[|trace| - 1], c);
    }
  }

  /** A run whose last page kept the contract is not stuck when it ends without error. */
  lemma DrainingRunReaches(r: Run, w: World)
    requires RunExact(r, w) && r.pc.Ended? && r.pc.ok && LastDrains(r)
    ensures LastReaches(r) && !Stuck(r) && r.loadedHead <= r.pc.mark
  {
  }

  lemma {:induction false} AnyLegal(s0: Sys, trace: seq<Step>, c: Config, contract: Contract)
    requires Legal(s0, trace, c, contract)
    ensures Legal(s0, trace, c, Anything)
    ensures !contract.Anything? ==> Legal(s0, trace, c, HonestPages)
  {
    if trace != [] {
      AnyLegal(s0, trace[..|trace| - 1], c, contract);
      Weaker(Exec(s0, trace[..|trace| - 1], c), trace[|trace| - 1], c, contract);
    }
  }

  /** With a portal that keeps its contract ready means drained: everything journaled
      before the session opened has been dispatched. */
  lemma ReadyMeansDrained(j: seq<Event>, head: int, trace: seq<Step>, c: Config)
    requires Ordered(j, head) && Legal(Start(j, head), trace, c, DrainingPages)
    requires Exec(Start(j, head), trace, c).f.ready
    ensures var s := Exec(Start(j, head), trace, c); Covered(s.w, s.openedHead) && OwnRunReaches(s)
  {
    var s := Exec(Start(j, head), trace, c);
    AnyLegal(Start(j, head), trace, c, DrainingPages);
    ReadyRun(j, head, trace, c);
    ReadyMeansDrainedIff(j, head, trace, c);
    SafeAlways(j, head, trace, c, DrainingPages);
    LastsDrain(j, head, trace, c);
    var r := s.ended[s.f.generation];
    assert RunOk(r, s.w);
    DrainingRunReaches(r, s.w);
  }

  // ---------------------------------------------------------- the cursor

  /** The step writes a page's mark. */
  predicate Writes(s: Sys, st: Step) {
    st.RunStep? && st.input == Store(true) && st.k < |s.runs| && s.runs[st.k].pc.Applying?
  }

  lemma CursorMovesIff(s: Sys, st: Step, c: Config)
    requires PagingOk(s, c) && Enabled(s, st, c, Anything)
    ensures Next(s, st, c).w.cursor < s.w.cursor <==>
            || (st.Crash? && !st.cursorKept && s.w.cursor > 0)
            || (Writes(s, st) && s.runs[st.k].pc.got.mark < s.w.cursor
                && (!s.runs[st.k].read || s.runs[st.k].pc.got.mark < s.runs[st.k].pc.after))
    ensures Next(s, st, c).w.cursor > s.w.cursor <==>
            || (st.Crash? && !st.cursorKept && s.w.cursor < 0)
            || (Writes(s, st) && s.runs[st.k].pc.got.mark > s.w.cursor)
  {
    if st.RunStep? {
      assert s.runs[st.k] in s.runs;
      CursorStep(s.runs[st.k], s.w, s.clock, st.input);
    }
    hide Bounded;
  }

  /** A step moves the persisted mark back if and only if it is a restart that loses a
      positive one, or the write of a page's mark that lies before it; and such a page
      belongs to a run whose cursor read failed, or its mark lies before the cursor it
      was asked after. It moves the mark on if and only if it writes a later one, or is a
      restart that loses a negative one. No contract is asked of the portal. */
  lemma {:induction false} CursorRetreatsIff(j: seq<Event>, head: int, trace: seq<Step>, c: Config, st: Step)
    requires 0 <= head && Legal(Start(j, head), trace, c, Anything)
    requires Enabled(Exec(Start(j, head), trace, c), st, c, Anything)
    ensures var s := Exec(Start(j, head), trace, c);
            && (Next(s, st, c).w.cursor < s.w.cursor <==>
                  || (st.Crash? && !st.cursorKept && s.w.cursor > 0)
                  || (Writes(s, st) && s.runs[st.k].pc.got.mark < s.w.cursor
                      && (!s.runs[st.k].read || s.runs[st.k].pc.got.mark < s.runs[st.k].pc.after)))
            && (Next(s, st, c).w.cursor > s.w.cursor <==>
                  || (st.Crash? && !st.cursorKept && s.w.cursor < 0)
                  || (Writes(s, st) && s.runs[st.k].pc.got.mark > s.w.cursor))
  {
    BasicAlways(j, head, trace, c, Anything);
    CursorMovesIff(Exec(Start(j, head), trace, c), st, c);
    hide Next, Enabled, PagingOk;
  }

  /** A draining page never lies before the cursor it was asked after. */
  ghost predicate Advances(r: Run) {
    r.pc.Applying? ==> r.pc.after <= r.pc.got.mark
  }

  lemma AdvancesStep(s: Sys, st: Step, c: Config)
    requires SessionsOk(s) && ReplayOk(s) && Enabled(s, st, c, DrainingPages)
    requires forall r :: r in s.runs ==> Advances(r)
    ensures forall r :: r in Next(s, st, c).runs ==> Advances(r)
  {
    var s' := Next(s, st, c);
    if st.RunStep? {
      assert s.runs[st.k] in s.runs && Known(s, s.runs[st.k]);
      assert s'.runs == [Replay.Next(s.runs[st.k], s.w, s.clock, st.input).0];
    } else {
      Weaker(s, st, c, DrainingPages);
      forall r | r in s'.runs
        ensures Advances(r)
      {
        StaysLive(s, st, c, r);
      }
    }
  }

  lemma {:induction false} AdvancesAlways(j: seq<Event>, head: int, trace: seq<Step>, c: Config)
    requires Ordered(j, head) && Legal(Start(j, head), trace, c, DrainingPages)
    ensures forall r :: r in Exec(Start(j, head), trace, c).runs ==> Advances(r)
  {
    if trace != [] {
      var before, st := trace[..|trace| - 1], trace[|trace| - 1];
      AdvancesAlways(j, head, before, c);
      SafeAlways(j, head, before, c, DrainingPages);
      var s := Exec(Start(j, head), before, c);
      AdvancesStep(s, st, c);
    }
  }

  /** With a portal that keeps its contract, besides a restart that loses the mark only
      a run whose cursor read failed can move it back. */
  lemma {:induction false} DrainingCursorRetreatsIff(j: seq<Event>, head: int, trace: seq<Step>, c: Config, st: Step)
    requires Ordered(j, head) && Legal(Start(j, head), trace + [st], c, DrainingPages)
    ensures var s := Exec(Start(j, head), trace, c);
            Next(s, st, c).w.cursor < s.w.cursor <==>
              || (st.Crash? && !st.cursorKept && s.w.cursor > 0)
              || (Writes(s, st) && !s.runs[st.k].read && s.runs[st.k].pc.got.mark < s.w.cursor)
  {
    assert (trace + [st])[..|trace|] == trace;
    var s := Exec(Start(j, head), trace, c);
    AnyLegal(Start(j, head), trace, c, DrainingPages);
    Weaker(s, st, c, DrainingPages);
    CursorRetreatsIff(j, head, trace, c, st);
    SafeAlways(j, head, trace, c, DrainingPages);
    AdvancesAlways(j, head, trace, c);
    if Writes(s, st) {
      assert s.runs[st.k] in s.runs;
    }
  }

  // --------------------------------------------------- statuses and clears

  /** What holds of every cached status of a changed site: it was stored after the last
      dispatch of the change; and if it predates the change, it was answered before the
      change was journaled, and so was on its way when the change was dispatched. */
  ghost predicate StatusesTell(s: Sys, e: Event) {
    (e.kind.Published? || e.kind.Removed?) && e.domain != "" && e.domain in s.w.cache ==>
      && e in s.w.applied
      && var v := s.w.cache[e.domain];
         && s.w.applied[e] < v.stored
         && (v.head < e.id <==> v.asked < Born(s, e.id))
         && (v.head < e.id ==> v.asked < s.w.applied[e])
  }

  lemma {:induction false} OldStatusStraddles(j: seq<Event>, head: int, trace: seq<Step>, c: Config, e: Event)
    requires Ordered(j, head) && Legal(Start(j, head), trace, c, HonestPages)
    requires e in Exec(Start(j, head), trace, c).w.applied
    ensures StatusesTell(Exec(Start(j, head), trace, c), e)
  {
    SafeAlways(j, head, trace, c, HonestPages);
    var s := Exec(Start(j, head), trace, c);
    if (e.kind.Published? || e.kind.Removed?) && e.domain != "" && e.domain in s.w.cache {
      assert StatusOk(s, e.domain, s.w.cache[e.domain]);
    }
  }

  /** A status answered at this head has seen every dispatched change of its site. */
  ghost predicate SeesAll(w: World, d: string, head: int) {
    forall e :: e in w.applied && (e.kind.Published? || e.kind.Removed?) && e.domain == d && d != "" ==> e.id <= head
  }

  /** The cached status of the site, if any, has seen every dispatched change of it. */
  ghost predicate CachedFresh(s: Sys, d: string) {
    d in s.w.cache ==> SeesAll(s.w, d, s.w.cache[d].head)
  }

  /** The step stores a status of the site that has not seen a change of it which has been
      dispatched already. */
  ghost predicate StoresOld(s: Sys, st: Step, d: string) {
    st.Stored? && st.k < |s.fetches| && s.fetches[st.k].d == d && !SeesAll(s.w, d, s.fetches[st.k].head)
  }

  /** A step leaves a cached status that predates a dispatched change of its site if and
      only if it stores such a status: one that the portal answered before the change and
      that arrives after the dispatch. */
  lemma StepKeepsFreshIff(s: Sys, st: Step, c: Config, d: string)
    requires WorldSafe(s.w) && CachedFresh(s, d) && Enabled(s, st, c, HonestPages)
    ensures CachedFresh(Next(s, st, c), d) <==> !StoresOld(s, st, d)
  {
    var s' := Next(s, st, c);
    if st.Stored? && s.fetches[st.k].d == d {
      assert s'.w.applied == s.w.applied && d in s'.w.cache && s'.w.cache[d].head == s.fetches[st.k].head;
      hide Next, Enabled, WorldSafe;
    } else if d in s'.w.cache {
      CachedBefore(s, st, c, d);
      hide Next, Enabled, WorldSafe;
    }
  }

  lemma StepIsFresh(s: Sys, st: Step, c: Config, d: string)
    requires SafeOk(s) && CachedFresh(s, d) && Enabled(s, st, c, HonestPages) && !StoresOld(s, st, d)
    ensures CachedFresh(Next(s, st, c), d)
  {
    StepKeepsFreshIff(s, st, c, d);
  }

  /** No step of the run stores such a status. */
  ghost predicate NoneOldStored(s0: Sys, trace: seq<Step>, c: Config, d: string) {
    forall k :: 0 <= k < |trace| ==> !StoresOld(Exec(s0, trace[..k], c), trace[k], d)
  }

  lemma NoneOldSoFar(s0: Sys, trace: seq<Step>, c: Config, d: string)
    requires trace != [] && NoneOldStored(s0, trace, c, d)
    ensures NoneOldStored(s0, trace[..|trace| - 1], c, d)
    ensures !StoresOld(Exec(s0, trace[..|trace| - 1], c), trace[|trace| - 1], d)
  {
    hide Exec, StoresOld;
    var before := trace[..|trace| - 1];
    assert forall k :: 0 <= k < |before| ==> before[..k] == trace[..k] && before[k] == trace[k];
  }

  /** Over every run under honest pages in which no such status is stored, no cached
      status of the site predates a dispatched change of it. */
  lemma {:induction false} FreshUnlessOldStored(j: seq<Event>, head: int, trace: seq<Step>, c: Config, d: string)
    requires Ordered(j, head) && Legal(Start(j, head), trace, c, HonestPages)
    requires NoneOldStored(Start(j, head), trace, c, d)
    ensures CachedFresh(Exec(Start(j, head), trace, c), d)
  {
    assert trace == [] ==> CachedFresh(Start(j, head), d);
    hide Next, Enabled, StoresOld, NoneOldStored, CachedFresh, SafeOk, BasicOk, Ordered;
    if trace != [] {
      var before := trace[..|trace| - 1];
      NoneOldSoFar(Start(j, head), trace, c, d);
      FreshUnlessOldStored(j, head, before, c, d);
      SafeAlways(j, head, before, c, HonestPages);
      StepIsFresh(Exec(Start(j, head), before, c), trace[|trace| - 1], c, d);
    }
  }

  /** Every status of the site, cached or on its way, has seen every dispatched change. */
  ghost predicate FreshSite(s: Sys, d: string) {
    && (d in s.w.cache ==> SeesAll(s.w, d, s.w.cache[d].head))
    && (forall f :: f in s.fetches && f.d == d ==> SeesAll(s.w, d, f.head))
  }

  /** The step dispatches a change of the site while a status of it is on its way. */
  predicate Straddled(s: Sys, st: Step, d: string) {
    && st.RunStep? && st.k < |s.runs|
    && Dispatches(s.runs[st.k], st.input).Some? && Dispatches(s.runs[st.k], st.input).value.domain == d
    && exists f :: f in s.fetches && f.d == d
  }

  lemma DispatchKeepsFresh(s: Sys, k: nat, input: Input, c: Config, d: string)
    requires FreshSite(s, d) && k < |s.runs| && !Straddled(s, RunStep(k, input), d)
    ensures FreshSite(Next(s, RunStep(k, input), c), d)
  {
    DispatchesOnly(s.runs[k], s.w, s.clock, input);
    hide Replay.Next, Dispatches;
  }

  /** A status on its way was so before, or has just been answered or read. */
  lemma FetchComes(s: Sys, st: Step, c: Config, f: Fetch)
    requires Fits(s, st) && f in Next(s, st, c).fetches
    ensures || f in s.fetches
            || (st == Answered(f.d) && f.head == s.w.head)
            || (st == Reread(f.d) && f.head == s.w.cache[f.d].head)
  {
  }

  lemma FreshStep(s: Sys, st: Step, c: Config, d: string)
    requires WorldSafe(s.w) && FreshSite(s, d) && Enabled(s, st, c, HonestPages) && !Straddled(s, st, d)
    ensures FreshSite(Next(s, st, c), d)
  {
    var s' := Next(s, st, c);
    if st.RunStep? {
      DispatchKeepsFresh(s, st.k, st.input, c, d);
    } else {
      assert forall e :: e in s.w.applied ==> e.id <= s.w.head;
      assert s'.w.applied == s.w.applied && SeesAll(s.w, d, s.w.head);
      if d in s'.w.cache && !(st.Stored? && s.fetches[st.k].d == d) {
        CachedBefore(s, st, c, d);
      }
      forall f | f in s'.fetches && f.d == d
        ensures SeesAll(s'.w, d, f.head)
      {
        FetchComes(s, st, c, f);
      }
      assert st.Stored? ==> s.fetches[st.k] in s.fetches;
      hide Enabled, WorldSafe;
    }
  }

  /** The step dispatches the event. */
  predicate Dispatching(s: Sys, st: Step, e: Event) {
    && st.RunStep? && st.input.ApplyOne? && st.k < |s.runs|
    && s.runs[st.k].pc.Applying? && s.runs[st.k].pc.todo != [] && s.runs[st.k].pc.todo[0] == e
  }

  /** The step dispatches a change of the site. */
  ghost predicate DispatchesChange(s: Sys, st: Step, d: string) {
    exists e :: Dispatching(s, st, e) && (e.kind.Published? || e.kind.Removed?) && e.domain == d && d != ""
  }

  /** When a cached status goes, and when one comes: it goes exactly when a change of its
      site is dispatched, a realtime event drops it, a poll finds the site active, or a
      restart does not keep it; and one comes exactly when it arrives from the portal. */
  lemma StatusComesAndGoes(s: Sys, st: Step, c: Config, d: string)
    requires Enabled(s, st, c, Anything)
    ensures var s' := Next(s, st, c);
            && (d in s.w.cache ==>
                  (d !in s'.w.cache <==>
                    || DispatchesChange(s, st, d)
                    || st == Invalidated(d)
                    || (st.Polled? && st.d == d
                        && st.o.Answered? && st.o.site.Some? && st.o.site.value.status == "active")
                    || (st.Crash? && d !in st.kept)))
            && (d !in s.w.cache ==> (d in s'.w.cache <==> st.Stored? && s.fetches[st.k].d == d))
            && (d in s.w.cache && d in s'.w.cache && s'.w.cache[d] != s.w.cache[d] ==>
                  st.Stored? && s.fetches[st.k].d == d)
  {
    if st.RunStep? {
      DispatchesOnly(s.runs[st.k], s.w, s.clock, st.input);
      var e := Dispatches(s.runs[st.k], st.input);
      assert e.Some? ==> Dispatching(s, st, e.value);
      hide Replay.Next;
    }
  }

  /** When a site comes under watch, and when it leaves it: exactly by being marked; and
      by a tick that clears, a restart, an active answer, or a last confirming 404. */
  lemma WatchComesAndGoes(s: Sys, st: Step, c: Config, d: string)
    requires Enabled(s, st, c, Anything)
    ensures var s' := Next(s, st, c);
            && (d !in s.watch.broken ==> (d in s'.watch.broken <==> st == MarkBroken(d) && d != ""))
            && (d in s.watch.broken ==>
                  (d !in s'.watch.broken <==>
                    || (st.Tick? && s.wire && s.f.ready)
                    || st.Crash?
                    || (st.Polled? && st.d == d
                        && if st.o.NotFound? then s.watch.Count(d) + 1 >= c.confirm
                           else st.o.Answered? && st.o.site.Some? && st.o.site.value.status == "active")))
  {
  }

  /** As long as no change of a site is dispatched while a status of it is on its way,
      no cached status of the site predates a dispatched change. */
  lemma {:induction false} FreshUnlessStraddled(j: seq<Event>, head: int, trace: seq<Step>, c: Config, d: string)
    requires Ordered(j, head) && Legal(Start(j, head), trace, c, HonestPages)
    requires forall k :: 0 <= k < |trace| ==> !Straddled(Exec(Start(j, head), trace[..k], c), trace[k], d)
    ensures FreshSite(Exec(Start(j, head), trace, c), d)
  {
    assert trace == [] ==> FreshSite(Start(j, head), d);
    hide Next, Enabled, Straddled, FreshSite, BasicOk, WorldSafe, Ordered;
    if trace != [] {
      var before := trace[..|trace| - 1];
      assert forall k :: 0 <= k < |before| ==> before[..k] == trace[..k] && before[k] == trace[k];
      FreshUnlessStraddled(j, head, before, c, d);
      SafeAlways(j, head, before, c, HonestPages);
      FreshStep(Exec(Start(j, head), before, c), trace[|trace| - 1], c, d);
    }
  }

  /** What a clear may lose. When a tick is about to empty the watch set, every change
      journaled before the stream came back up has been dispatched if and only if none
      after the final mark of the session's run is missing; unless that run was stuck,
      if and only if none of those journaled after the session opened is missing; and
      there are none of those once every disconnection has reached OnConnect. */
  lemma ClearLosesNothingIff(j: seq<Event>, head: int, trace: seq<Step>, c: Config)
    requires Ordered(j, head) && Legal(Start(j, head), trace, c, HonestPages)
    requires Clears(Exec(Start(j, head), trace, c))
    ensures var s := Exec(Start(j, head), trace, c);
            && (Covered(s.w, s.wireHead) <==>
                  forall e :: e in s.w.journal && Mark(s) < e.id <= s.wireHead ==> e in s.w.applied)
            && (OwnRunReaches(s) ==>
                  (Covered(s.w, s.wireHead) <==>
                     forall e :: e in s.w.journal && s.openedHead < e.id <= s.wireHead ==> e in s.w.applied))
            && (false !in s.feed ==> s.wireHead <= s.openedHead)
  {
    ReadyRun(j, head, trace, c);
    ReadyMeansDrainedIff(j, head, trace, c);
    BasicAlways(j, head, trace, c, HonestPages);
    var s := Exec(Start(j, head), trace, c);
    CompletedRunIsExact(j, head, trace, c, s.ended[s.f.generation]);
  }

  /** For any honest portal: when a tick empties the watch set, every disconnection has
      reached OnConnect and the session's own run was not stuck, each change journaled
      before the stream came back up has been dispatched. */
  lemma OwnRunClearLosesNothing(j: seq<Event>, head: int, trace: seq<Step>, c: Config)
    requires Ordered(j, head) && Legal(Start(j, head), trace + [Tick], c, HonestPages)
    requires var s := Exec(Start(j, head), trace, c);
             Clears(s) && false !in s.feed && OwnRunReaches(s)
    ensures var t := Exec(Start(j, head), trace + [Tick], c);
            && t.watch.broken == {}
            && forall e :: e in t.w.journal && e.id <= t.wireHead ==> e in t.w.applied && StatusesTell(t, e)
  {
    assert (trace + [Tick])[..|trace|] == trace;
    ClearLosesNothingIff(j, head, trace, c);
    var t := Exec(Start(j, head), trace + [Tick], c);
    forall e | e in t.w.journal && e.id <= t.wireHead
      ensures e in t.w.applied && StatusesTell(t, e)
    {
      OldStatusStraddles(j, head, trace, c, e);
    }
  }

  /** Clearing loses nothing. With a portal that keeps its contract, when a tick empties
      the watch set and every disconnection has reached OnConnect, each change journaled
      before the stream came back up has been dispatched; and a cached status of any
      site, dropped or not, predates such a change only if it was answered before the
      change was journaled and stored after its dispatch. */
  lemma ClearingLosesNothing(j: seq<Event>, head: int, trace: seq<Step>, c: Config)
    requires Ordered(j, head) && Legal(Start(j, head), trace + [Tick], c, DrainingPages)
    requires var s := Exec(Start(j, head), trace, c); Clears(s) && false !in s.feed
    ensures var t := Exec(Start(j, head), trace + [Tick], c);
            && t.watch.broken == {}
            && forall e :: e in t.w.journal && e.id <= t.wireHead ==> e in t.w.applied && StatusesTell(t, e)
  {
    assert (trace + [Tick])[..|trace|] == trace;
    AnyLegal(Start(j, head), trace + [Tick], c, DrainingPages);
    ReadyMeansDrained(j, head, trace, c);
    OwnRunClearLosesNothing(j, head, trace, c);
  }

  lemma TickSpares(s: Sys, c: Config)
    ensures Next(s, Tick, c).w == s.w && Next(s, Tick, c).wireHead == s.wireHead
  {
  }

  /** And of a site of which no old status was stored along the run, no cached status is
      left that predates a change journaled before the stream came back up. */
  lemma {:induction false} ClearLeavesFresh(j: seq<Event>, head: int, trace: seq<Step>, c: Config, d: string)
    requires Ordered(j, head) && Legal(Start(j, head), trace + [Tick], c, DrainingPages)
    requires var s := Exec(Start(j, head), trace, c); Clears(s) && false !in s.feed
    requires NoneOldStored(Start(j, head), trace, c, d)
    ensures var t := Exec(Start(j, head), trace + [Tick], c);
            && t.watch.broken == {}
            && (d in t.w.cache ==>
                  forall e :: e in t.w.journal && (e.kind.Published? || e.kind.Removed?) && e.domain == d && d != "" ==>
                    e.id <= t.wireHead ==> e.id <= t.w.cache[d].head)
  {
    assert (trace + [Tick])[..|trace|] == trace;
    ClearingLosesNothing(j, head, trace, c);
    AnyLegal(Start(j, head), trace, c, DrainingPages);
    FreshUnlessOldStored(j, head, trace, c, d);
    TickSpares(Exec(Start(j, head), trace, c), c);
    hide Legal, StatusesTell, NoneOldStored, Next;
  }
}

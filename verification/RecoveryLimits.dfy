/** What disconnect recovery does not promise: each main lemma here gives a state that
    a legal run of the gateway reaches and in which a promise is broken, beside the
    exact condition that `Recovery` proves for it. */
module RecoveryLimits {
  import opened Options
  import opened Journal
  import opened Replay
  import opened Reconciler
  import opened Recovery

  const LIMITS := Config(1000, 3)
  const CHANGE := Event(1, Published, "d", "")
  const LATER := Event(2, Removed, "d", "")

  /** The state is reached by a legal run. */
  ghost predicate Reached(s0: Sys, contract: Contract, s: Sys) {
    exists trace :: Legal(s0, trace, LIMITS, contract) && Exec(s0, trace, LIMITS) == s
  }

  lemma Begins(s0: Sys, contract: Contract)
    ensures Reached(s0, contract, s0)
  {
    assert Legal(s0, [], LIMITS, contract) && Exec(s0, [], LIMITS) == s0;
  }

  lemma Steps(s0: Sys, contract: Contract, s: Sys, st: Step)
    requires Reached(s0, contract, s) && Recovery.Enabled(s, st, LIMITS, contract)
    ensures Reached(s0, contract, Recovery.Next(s, st, LIMITS))
  {
    var trace :| Legal(s0, trace, LIMITS, contract) && Exec(s0, trace, LIMITS) == s;
    assert (trace + [st])[..|trace|] == trace;
    assert Legal(s0, trace + [st], LIMITS, contract);
    assert Exec(s0, trace + [st], LIMITS) == Recovery.Next(s, st, LIMITS);
  }

  // ------------------------------------------------------------ sessions

  /** Disconnected, with nothing going on. */
  predicate Quiet(s: Sys) {
    s.f == Flags(false, false, false, false, s.f.generation) && s.runs == [] && s.feed == [] && !s.wire
  }

  /** The stream comes up, the session opens, and its run reads the cursor. */
  function Opened(s: Sys, read: bool): Sys {
    var g, from := s.f.generation + 1, if read then s.w.cursor else 0;
    var r := NewRun(g).(pc := Paging(from, 1), read := read, start := from, loadedAt := s.clock + 2,
                        loadedHead := s.w.head);
    s.(f := Flags(true, false, true, false, g), runs := [r], wire := true, wireHead := s.w.head,
       openedHead := s.w.head, openedAt := s.clock + 1, clock := s.clock + 3)
  }

  lemma SessionOpens(s0: Sys, contract: Contract, s: Sys, read: bool)
    requires Reached(s0, contract, s) && Quiet(s)
    ensures Reached(s0, contract, Opened(s, read))
  {
    hide Reached;
    Steps(s0, contract, s, Wire(true));
    var s1 := Recovery.Next(s, Wire(true), LIMITS);
    assert s1.feed == [true];
    Steps(s0, contract, s1, Deliver);
    var s2 := Recovery.Next(s1, Deliver, LIMITS);
    assert s2.runs == [NewRun(s.f.generation + 1)] && s2.feed == [];
    Steps(s0, contract, s2, RunStep(0, Load(read)));
    assert Recovery.Next(s2, RunStep(0, Load(read)), LIMITS) == Opened(s, read);
  }

  /** The only run takes a step. */
  function With(s: Sys, r: Run, w: World): Sys { s.(runs := [r], w := w, clock := s.clock + 1) }

  lemma RunSteps(s0: Sys, contract: Contract, s: Sys, r: Run, i: Input)
    requires Reached(s0, contract, s) && s.runs == [r] && Replay.Enabled(r, s.w, LIMITS.maxPages, i, contract)
    ensures var (r', w') := Replay.Next(r, s.w, s.clock, i);
            Reached(s0, contract, With(s, r', w'))
  {
    hide Reached, Replay.Enabled, Replay.Next;
    Steps(s0, contract, s, RunStep(0, i));
    var (r', w') := Replay.Next(r, s.w, s.clock, i);
    assert s.runs[0 := r'] == [r'];
    assert Recovery.Next(s, RunStep(0, i), LIMITS) == With(s, r', w');
  }

  /** Dispatches one after the other. */
  function Dispatched(w: World, now: nat, es: seq<Event>): World
    decreases |es|
  {
    if es == [] then w else Dispatched(Apply(w, now, es[0]), now + 1, es[1..])
  }

  lemma {:induction false} DispatchedJournal(w: World, now: nat, es: seq<Event>)
    ensures var v := Dispatched(w, now, es); v.journal == w.journal && v.head == w.head && v.cursor == w.cursor
    decreases |es|
  {
    if es != [] {
      DispatchedJournal(Apply(w, now, es[0]), now + 1, es[1..]);
    }
  }

  /** The events of the run's page are dispatched. */
  lemma {:induction false} PageApplies(s0: Sys, contract: Contract, s: Sys, r: Run)
    requires Reached(s0, contract, s) && s.runs == [r] && r.pc.Applying?
    ensures Reached(s0, contract, s.(runs := [r.(pc := r.pc.(todo := []), done := r.done + r.pc.todo)],
                                     w := Dispatched(s.w, s.clock, r.pc.todo), clock := s.clock + |r.pc.todo|))
    decreases |r.pc.todo|
  {
    hide Reached, Apply;
    if r.pc.todo == [] {
      assert r.done + r.pc.todo == r.done;
      assert s == s.(runs := [r.(pc := r.pc.(todo := []), done := r.done + r.pc.todo)]);
    } else {
      RunSteps(s0, contract, s, r, ApplyOne);
      var (r', w') := Replay.Next(r, s.w, s.clock, ApplyOne);
      PageApplies(s0, contract, With(s, r', w'), r');
      assert r.done + r.pc.todo == r'.done + r'.pc.todo;
    }
  }

  /** The run's first page is this one, and its events are dispatched. */
  lemma FirstPage(s0: Sys, contract: Contract, s: Sys, r: Run, p: Page)
    requires Reached(s0, contract, s) && s.runs == [r] && r.pc == Paging(0, 1)
    requires Replay.Enabled(r, s.w, LIMITS.maxPages, Got(p), contract)
    ensures var r' := r.(pc := Applying(0, 1, [], p), asked := r.asked + [0], done := r.done + p.events,
                         last := Some(Reply(0, s.w.head, p)));
            Reached(s0, contract, s.(runs := [r'], w := Dispatched(s.w, s.clock + 1, p.events),
                                     clock := s.clock + 1 + |p.events|))
  {
    hide Reached, Honest, Draining, Dispatched;
    RunSteps(s0, contract, s, r, Got(p));
    var (r1, w1) := Replay.Next(r, s.w, s.clock, Got(p));
    PageApplies(s0, contract, With(s, r1, w1), r1);
  }

  /** The run stores the mark of its last page, ends, and makes the session ready. */
  lemma RunCompletes(s0: Sys, contract: Contract, s: Sys, r: Run, p: Page)
    requires Reached(s0, contract, s) && s.runs == [r] && r.pc == Applying(0, 1, [], p)
    requires (!p.truncated || p.mark <= 0) && s.f == Flags(true, false, true, false, r.gen)
    ensures var r' := r.(pc := Ended(true, p.mark));
            Reached(s0, contract, s.(f := Flags(true, true, false, false, r.gen), runs := [],
                                     w := s.w.(cursor := p.mark), ended := s.ended[r.gen := r'], clock := s.clock + 2))
  {
    hide Reached;
    RunSteps(s0, contract, s, r, Store(true));
    var (r1, w1) := Replay.Next(r, s.w, s.clock, Store(true));
    var s1 := With(s, r1, w1);
    Steps(s0, contract, s1, RunEnds(0));
    assert s1.runs[..0] + s1.runs[1..] == [];
    assert Recovery.Next(s1, RunEnds(0), LIMITS).runs == [];
  }

  // ------------------------------------------------------- a stuck page

  /** After a first session whose only page was this empty one. */
  function Idle(j: seq<Event>, head: int, p: Page): Sys {
    var s := Opened(Start(j, head), true);
    var r := s.runs[0].(pc := Ended(true, 0), asked := [0], last := Some(Reply(0, head, p)));
    s.(f := Flags(true, true, false, false, 1), runs := [], ended := map[1 := r], clock := 6)
  }

  lemma FirstSessionRuns(j: seq<Event>, head: int, p: Page, contract: Contract)
    requires p.events == [] && p.mark == 0 && Honest(j, head, 0, p)
    requires contract.DrainingPages? ==> Draining(head, 0, p)
    ensures Reached(Start(j, head), contract, Idle(j, head, p))
  {
    hide Reached, Honest, Draining;
    var s0 := Start(j, head);
    Begins(s0, contract);
    SessionOpens(s0, contract, s0, true);
    var s := Opened(s0, true);
    FirstPage(s0, contract, s, s.runs[0], p);
    var r := s.runs[0].(pc := Applying(0, 1, [], p), asked := [0], last := Some(Reply(0, head, p)));
    assert [] + [0] == [0] && s.runs[0].done + p.events == [];
    RunCompletes(s0, contract, s.(runs := [r], clock := s.clock + 1), r, p);
  }

  /** A truncated page that makes no progress ends its run without error: the
      reconciler reports ready although nothing of the journal was dispatched. */
  lemma StuckPageReportsReady()
    ensures var s := Idle([CHANGE], 1, Page([], 0, true));
            && Reached(Start([CHANGE], 1), HonestPages, s)
            && s.f.ready && Stuck(s.ended[1]) && !Covered(s.w, s.openedHead)
  {
    BetweenNothing([CHANGE], 0, 0);
    FirstSessionRuns([CHANGE], 1, Page([], 0, true), HonestPages);
    assert CHANGE in Idle([CHANGE], 1, Page([], 0, true)).w.journal;
  }

  // -------------------------------------------------- an undelivered gap

  const EMPTY := Page([], 0, false)
  const NOTHING: seq<Event> := []

  /** After an idle first session a status is fetched and cached, the stream drops, a
      change of that site is journaled, and the stream comes back. */
  const ASKED := Idle([], 0, EMPTY).(fetches := [Fetch("d", 0, 6)], clock := 7)
  const CACHED := Idle([], 0, EMPTY).(w := World([], 0, 0, map["d" := Status(0, 6, 7)], [], map[]), clock := 8)
  const DROPPED := CACHED.(wire := false, feed := [false], clock := 9)
  const MISSED := DROPPED.(w := World([CHANGE], 1, 0, map["d" := Status(0, 6, 7)], [], map[]),
                           born := map[1 := 9], clock := 10)

  const GAPPED := MISSED.(wire := true, feed := [false, true], wireHead := 1, clock := 11)

  lemma GapFetches()
    ensures Recovery.Next(Idle([], 0, EMPTY), Answered("d"), LIMITS) == ASKED
    ensures Recovery.Next(ASKED, Stored(0), LIMITS) == CACHED
  {
    assert Recovery.Without(ASKED.fetches, 0) == [];
  }

  lemma GapSteps()
    ensures Recovery.Next(CACHED, Wire(false), LIMITS) == DROPPED
    ensures Recovery.Next(DROPPED, Journaled(CHANGE), LIMITS) == MISSED
    ensures Recovery.Next(MISSED, Wire(true), LIMITS) == GAPPED
  {
    assert Idle([], 0, EMPTY).feed == [] && CACHED.born == map[];
    hide Idle;
  }

  /** The stream drops and comes back before OnConnect has heard of either: the
      session looks ready from before the gap, and a tick in that window clears the
      watch set while a status older than a change of the gap is still cached, and
      that change has not been dispatched. */
  lemma UndeliveredGapClears()
    ensures Reached(Start([], 0), DrainingPages, GAPPED) && Clears(GAPPED) && !Stuck(GAPPED.ended[1])
    ensures CHANGE in GAPPED.w.journal && GAPPED.openedHead < CHANGE.id <= GAPPED.wireHead
    ensures CHANGE !in GAPPED.w.applied && "d" in GAPPED.w.cache && GAPPED.w.cache["d"].head < CHANGE.id
  {
    var s0 := Start([], 0);
    FirstSessionRuns([], 0, EMPTY, DrainingPages);
    GapFetches();
    GapSteps();
    hide Reached, Advance, Fits;
    Steps(s0, DrainingPages, Idle([], 0, EMPTY), Answered("d"));
    Steps(s0, DrainingPages, ASKED, Stored(0));
    Steps(s0, DrainingPages, CACHED, Wire(false));
    Steps(s0, DrainingPages, DROPPED, Journaled(CHANGE));
    Steps(s0, DrainingPages, MISSED, Wire(true));
    assert CHANGE in GAPPED.w.journal;
  }

  // ------------------------------------------------- a straddling status

  /** A status of the site is answered, and then the site changes. */
  const BEFORE := Start([], 0).(fetches := [Fetch("d", 0, 0)], w := World([CHANGE], 1, 0, map[], [], map[]),
                                born := map[1 := 1], clock := 2)

  lemma BeforeSteps()
    ensures Reached(Start([], 0), DrainingPages, BEFORE)
  {
    var s0 := Start([], 0);
    Begins(s0, DrainingPages);
    hide Reached;
    Steps(s0, DrainingPages, s0, Answered("d"));
    var s1 := Recovery.Next(s0, Answered("d"), LIMITS);
    Steps(s0, DrainingPages, s1, Journaled(CHANGE));
    assert Recovery.Next(s1, Journaled(CHANGE), LIMITS) == BEFORE;
  }

  const ONE := Page([CHANGE], 1, false)

  /** The session's run dispatches the change, and the session is ready. */
  lemma ChangeDispatched() returns (c: Sys)
    ensures Reached(Start([], 0), DrainingPages, c) && Clears(c) && c.feed == []
    ensures c.w.journal == [CHANGE] && c.w.cursor == 1 && CHANGE in c.w.applied
    ensures c.fetches == [Fetch("d", 0, 0)]
  {
    var s0 := Start([], 0);
    BeforeSteps();
    assert Between([CHANGE], 0, 1) == [CHANGE];
    hide Reached, Between;
    SessionOpens(s0, DrainingPages, BEFORE, true);
    var a := Opened(BEFORE, true);
    FirstPage(s0, DrainingPages, a, a.runs[0], ONE);
    assert Dispatched(a.w, a.clock + 1, [CHANGE]) == Apply(a.w, a.clock + 1, CHANGE);
    var r := a.runs[0].(pc := Applying(0, 1, [], ONE), asked := a.runs[0].asked + [0],
                        done := a.runs[0].done + [CHANGE], last := Some(Reply(0, 1, ONE)));
    var b := a.(runs := [r], w := Apply(a.w, a.clock + 1, CHANGE), clock := a.clock + 2);
    RunCompletes(s0, DrainingPages, b, r, ONE);
    c := b.(f := Flags(true, true, false, false, 1), runs := [], w := b.w.(cursor := 1),
            ended := b.ended[1 := r.(pc := Ended(true, 1))], clock := b.clock + 2);
  }

  /** A status that the portal answered before a change and that arrives after the
      change was dispatched stays cached although the session is ready, the whole
      journal has been dispatched, and the next tick clears the watch set. */
  lemma StraddlingStatusSurvives() returns (c: Sys, s: Sys)
    ensures Reached(Start([], 0), DrainingPages, c) && StoresOld(c, Stored(0), "d")
    ensures s == Recovery.Next(c, Stored(0), LIMITS)
    ensures Reached(Start([], 0), DrainingPages, s) && Clears(s) && s.feed == []
    ensures s.w.journal == [CHANGE] && CHANGE in s.w.applied && s.w.cursor == 1
    ensures "d" in s.w.cache && s.w.cache["d"].head < CHANGE.id
  {
    c := ChangeDispatched();
    hide Reached;
    Steps(Start([], 0), DrainingPages, c, Stored(0));
    s := Recovery.Next(c, Stored(0), LIMITS);
  }

  // -------------------------------------------------- a retreating cursor

  const BOTH := Page([CHANGE, LATER], 2, false)
  const HALF := Page([CHANGE], 1, true)

  /** After a first session has drained a journal of two changes, and a restart. */
  lemma DrainsBoth() returns (s: Sys)
    ensures Reached(Start([CHANGE, LATER], 2), DrainingPages, s) && Quiet(s)
    ensures s.w.journal == [CHANGE, LATER] && s.w.head == 2 && s.w.cursor == 2
  {
    var s0 := Start([CHANGE, LATER], 2);
    Begins(s0, DrainingPages);
    assert [CHANGE, LATER][..1] == [CHANGE] && Between([CHANGE], 0, 2) == [CHANGE];
    assert Between([CHANGE, LATER], 0, 2) == [CHANGE, LATER];
    hide Reached, Between;
    SessionOpens(s0, DrainingPages, s0, true);
    var a := Opened(s0, true);
    FirstPage(s0, DrainingPages, a, a.runs[0], BOTH);
    var r := a.runs[0].(pc := Applying(0, 1, [], BOTH), asked := a.runs[0].asked + [0],
                        done := a.runs[0].done + [CHANGE, LATER], last := Some(Reply(0, 2, BOTH)));
    var b := a.(runs := [r], w := Dispatched(a.w, a.clock + 1, [CHANGE, LATER]), clock := a.clock + 3);
    RunCompletes(s0, DrainingPages, b, r, BOTH);
    DispatchedJournal(a.w, a.clock + 1, [CHANGE, LATER]);
    var c := b.(f := Flags(true, true, false, false, 1), runs := [], w := b.w.(cursor := 2),
                ended := b.ended[1 := r.(pc := Ended(true, 2))], clock := b.clock + 2);
    Steps(s0, DrainingPages, c, Crash({}, true));
    s := Recovery.Next(c, Crash({}, true), LIMITS);
  }

  /** Writing the mark of the page the run stands at. */
  lemma StoreSets(s: Sys, r: Run)
    requires s.runs == [r] && r.pc.Applying? && r.pc.todo == []
    ensures Recovery.Enabled(s, RunStep(0, Store(true)), LIMITS, DrainingPages)
    ensures Recovery.Next(s, RunStep(0, Store(true)), LIMITS).w.cursor == r.pc.got.mark
  {
  }

  /** The persisted cursor may move back, even with a portal that keeps its
      contract: a run whose cursor read failed starts over from zero and stores the
      mark of its first page. Nothing is lost; more is replayed. */
  lemma CursorMayRetreat() returns (s: Sys)
    ensures Reached(Start([CHANGE, LATER], 2), DrainingPages, s) && s.w.cursor == 2
    ensures Recovery.Enabled(s, RunStep(0, Store(true)), LIMITS, DrainingPages)
    ensures Recovery.Next(s, RunStep(0, Store(true)), LIMITS).w.cursor == 1
  {
    var s0 := Start([CHANGE, LATER], 2);
    var a := DrainsBoth();
    assert [CHANGE, LATER][..1] == [CHANGE] && [CHANGE][..0] == [];
    assert Between([CHANGE], 0, 1) == [CHANGE];
    assert Between([CHANGE, LATER], 0, 1) == [CHANGE];
    hide Reached, Between;
    SessionOpens(s0, DrainingPages, a, false);
    var b := Opened(a, false);
    FirstPage(s0, DrainingPages, b, b.runs[0], HALF);
    DispatchedJournal(b.w, b.clock + 1, [CHANGE]);
    var r := b.runs[0].(pc := Applying(0, 1, [], HALF), asked := b.runs[0].asked + [0],
                        done := b.runs[0].done + [CHANGE], last := Some(Reply(0, 2, HALF)));
    s := b.(runs := [r], w := Dispatched(b.w, b.clock + 1, [CHANGE]), clock := b.clock + 2);
    StoreSets(s, r);
  }
}

/** One reconcile run as a sequence of small steps. Between two steps anything
    else in the gateway may happen, and a run may be cut off after any of them,
    so what each step keeps holds however runs, faults and crashes interleave. */
module Replay {
  import opened Options
  import opened Journal

  /** A cached status: the journal head the portal answered it at, when it did, and
      when the answer was stored. */
  datatype Status = Status(head: int, asked: nat, stored: nat)

  /** Everything outside the reconciler that a run reads or changes. `applied` is the
      history of every event ever dispatched, with the time of its last dispatch. */
  datatype World = World(
    journal: seq<Event>, head: int, cursor: int, cache: map<string, Status>,
    prewarmed: seq<(string, string)>, applied: map<Event, nat>)

  /** `Applying` covers the event loop and, once `todo` is empty, the write of
      the cursor and the stop test. */
  datatype Pc =
    | Loading
    | Paging(after: int, page: nat)
    | Applying(after: int, page: nat, todo: seq<Event>, got: Page)
    | Ended(ok: bool, mark: int)

  /** A page as it was given: what it was asked after, and the journal head then. */
  datatype Reply = Reply(after: int, head: int, page: Page)

  /** A run launched for session `gen`. The rest is history: whether reading the
      cursor succeeded, where it started, when (and at which journal head) that was,
      the cursors it asked pages after, the last page it was given, and the events it
      dispatched, in order. */
  datatype Run = Run(gen: nat, pc: Pc, read: bool, start: int, loadedAt: nat, loadedHead: int,
                     asked: seq<int>, last: Option<Reply>, done: seq<Event>)

  /** What the environment decides at each step. */
  datatype Input =
    | Load(ok: bool)        // the cursor is read, or reading it fails
    | Abort                 // the context is found cancelled or past its deadline
    | Cap                   // the page cap is exceeded
    | Fail                  // the page request fails
    | Got(p: Page)          // the page request succeeds
    | ApplyOne              // the next event of the page is dispatched
    | Store(stored: bool)   // the cursor is written, or writing it fails

  function NewRun(gen: nat): Run {
    Run(gen, Loading, false, 0, 0, 0, [], None, [])
  }

  /** Dispatches one event. */
  function Apply(w: World, now: nat, e: Event): World {
    w.(cache := if e.Invalidates() then w.cache - {e.domain} else w.cache,
       prewarmed := w.prewarmed + (if e.Prewarms() then [(e.domain, e.cid)] else []),
       applied := w.applied[e := now])
  }

  /** What dispatching an event does, by its fields: the site of a published or removed
      one has no cached status any more, and no other status changes; a published one
      with a domain and a CID is submitted for prewarming, nothing else is. */
  lemma DispatchLaw(w: World, now: nat, e: Event)
    ensures var w' := Apply(w, now, e);
            && w' == w.(cache := w'.cache, prewarmed := w'.prewarmed, applied := w.applied[e := now])
            && ((e.kind.Published? || e.kind.Removed?) && e.domain != "" ==>
                  e.domain !in w'.cache && w'.cache == w.cache - {e.domain})
            && (e.kind.Other? || e.domain == "" ==> w'.cache == w.cache)
            && (e.kind.Published? && e.domain != "" && e.cid != "" ==>
                  w'.prewarmed == w.prewarmed + [(e.domain, e.cid)])
            && (!e.kind.Published? || e.domain == "" || e.cid == "" ==> w'.prewarmed == w.prewarmed)
  {
  }

  /** Which inputs can come up where a run stands. */
  predicate Possible(r: Run, maxPages: nat, i: Input) {
    match r.pc
    case Loading => i.Load?
    case Paging(after, page) =>
      i.Abort? || (if page > maxPages then i.Cap? else i.Fail? || i.Got?)
    case Applying(_, _, todo, _) => if todo == [] then i.Store? else i.ApplyOne?
    case Ended(_, _) => false
  }

  /** What is asked of the portal's pages: nothing; honesty; or besides that truncation
      means progress and no truncation means the end. */
  datatype Contract = Anything | HonestPages | DrainingPages

  /** A possible input under the contract. */
  ghost predicate Enabled(r: Run, w: World, maxPages: nat, i: Input, contract: Contract) {
    && Possible(r, maxPages, i)
    && (i.Got? && !contract.Anything? ==> Honest(w.journal, w.head, r.pc.after, i.p))
    && (i.Got? && contract.DrainingPages? ==> Draining(w.head, r.pc.after, i.p))
  }

  function Next(r: Run, w: World, now: nat, i: Input): (Run, World) {
    match (r.pc, i)
    case (Loading, Load(ok)) =>
      var from := if ok then w.cursor else 0;
      (r.(pc := Paging(from, 1), read := ok, start := from, loadedAt := now, loadedHead := w.head), w)
    case (Paging(after, page), Got(p)) =>
      (r.(pc := Applying(after, page, p.events, p), asked := r.asked + [after],
          last := Some(Reply(after, w.head, p))), w)
    case (Paging(after, page), Fail) =>
      (r.(pc := Ended(false, after), asked := r.asked + [after]), w)
    case (Paging(after, page), Abort) => (r.(pc := Ended(false, after)), w)
    case (Paging(after, page), Cap) => (r.(pc := Ended(false, after)), w)
    case (Applying(after, page, todo, got), ApplyOne) =>
      if todo == [] then (r, w)
      else (r.(pc := Applying(after, page, todo[1..], got), done := r.done + [todo[0]]),
            Apply(w, now, todo[0]))
    case (Applying(after, page, todo, got), Store(stored)) =>
      var pc := if !got.truncated || got.mark <= after then Ended(true, got.mark)
                else Paging(got.mark, page + 1);
      (r.(pc := pc), if stored then w.(cursor := got.mark) else w)
    case (_, _) => (r, w)
  }

  /** Where a run and the world stand after a sequence of inputs. */
  function Follow(r: Run, w: World, now: nat, inputs: seq<Input>): (Run, World) {
    if inputs == [] then (r, w)
    else
      var (r', w') := Follow(r, w, now, inputs[..|inputs| - 1]);
      Next(r', w', now, inputs[|inputs| - 1])
  }

  /** Every input of the sequence is possible where it comes up. */
  predicate Feasible(r: Run, w: World, now: nat, maxPages: nat, inputs: seq<Input>) {
    inputs == [] ||
    (Feasible(r, w, now, maxPages, inputs[..|inputs| - 1])
     && Possible(Follow(r, w, now, inputs[..|inputs| - 1]).0, maxPages, inputs[|inputs| - 1]))
  }

  lemma FollowNone(r: Run, w: World, now: nat, maxPages: nat)
    ensures Follow(r, w, now, []) == (r, w) && Feasible(r, w, now, maxPages, [])
  {
  }

  lemma FollowMore(r: Run, w: World, now: nat, maxPages: nat, inputs: seq<Input>, i: Input)
    ensures var (r', w') := Follow(r, w, now, inputs);
            && Follow(r, w, now, inputs + [i]) == Next(r', w', now, i)
            && (Feasible(r, w, now, maxPages, inputs + [i]) <==>
                  Feasible(r, w, now, maxPages, inputs) && Possible(r', maxPages, i))
  {
    assert (inputs + [i])[..|inputs|] == inputs;
  }

  /** The event a step dispatches, if any. */
  function Dispatches(r: Run, i: Input): Option<Event> {
    if i.ApplyOne? && r.pc.Applying? && r.pc.todo != [] then Some(r.pc.todo[0]) else None
  }

  /** All that a step of a run does to statuses and to the history of dispatches. */
  lemma DispatchesOnly(r: Run, w: World, now: nat, i: Input)
    ensures var w', e := Next(r, w, now, i).1, Dispatches(r, i);
            && w'.journal == w.journal && w'.head == w.head
            && w'.applied == (if e.Some? then w.applied[e.value := now] else w.applied)
            && w'.cache == (if e.Some? && (e.value.kind.Published? || e.value.kind.Removed?) && e.value.domain != ""
                            then w.cache - {e.value.domain} else w.cache)
  {
  }

  /** The deployments among the events, in order. */
  function Deployments(es: seq<Event>): seq<(string, string)> {
    if es == [] then []
    else
      var e := es[|es| - 1];
      Deployments(es[..|es| - 1])
      + if e.kind.Published? && e.domain != "" && e.cid != "" then [(e.domain, e.cid)] else []
  }

  lemma DeploymentsMore(es: seq<Event>, e: Event)
    ensures Deployments(es + [e])
            == Deployments(es) + if e.kind.Published? && e.domain != "" && e.cid != "" then [(e.domain, e.cid)] else []
  {
    assert (es + [e])[..|es|] == es;
  }

  /** A published or removed site is among the events. */
  ghost predicate Changed(es: seq<Event>, d: string) {
    exists e :: e in es && (e.kind.Published? || e.kind.Removed?) && e.domain == d && d != ""
  }

  /** Every write of the cursor so far, if there was one, was that of where the run
      stands. */
  ghost predicate CursorAt(r: Run, w: World) {
    match r.pc
    case Loading => true
    case Paging(after, page) => page > 1 ==> w.cursor == after
    case Applying(after, page, _, _) => page > 1 ==> w.cursor == after
    case Ended(ok, mark) => ok ==> w.cursor == mark
  }

  /** From `w` to `v`: exactly the sites published or removed among the events have lost
      their cached statuses, and the deployments among them have been submitted. */
  ghost predicate Leaves(w: World, es: seq<Event>, v: World) {
    && (forall d :: d in v.cache <==> d in w.cache && !Changed(es, d))
    && (forall d :: d in v.cache ==> v.cache[d] == w.cache[d])
    && v.prewarmed == w.prewarmed + Deployments(es)
  }

  lemma LeavesMore(w: World, es: seq<Event>, v: World, now: nat, e: Event)
    requires Leaves(w, es, v)
    ensures Leaves(w, es + [e], Apply(v, now, e))
  {
    DispatchLaw(v, now, e);
    DeploymentsMore(es, e);
    forall d
      ensures Changed(es + [e], d) <==>
              Changed(es, d) || ((e.kind.Published? || e.kind.Removed?) && e.domain == d && d != "")
    {
      assert forall x :: x in es + [e] <==> x in es || x == e;
    }
    hide Apply, Changed, Deployments;
  }

  lemma LeavesStep(w: World, r: Run, v: World, now: nat, i: Input)
    requires Leaves(w, r.done, v)
    ensures Leaves(w, Next(r, v, now, i).0.done, Next(r, v, now, i).1)
  {
    if Dispatches(r, i).Some? {
      LeavesMore(w, r.done, v, now, r.pc.todo[0]);
    }
    hide Changed, Apply;
  }

  lemma CursorAtStep(r: Run, v: World, now: nat, maxPages: nat, i: Input)
    requires CursorAt(r, v) && Possible(r, maxPages, i) && i != Store(false)
    requires r.pc.Paging? || r.pc.Applying? ==> r.pc.page >= 1
    ensures var (r', v') := Next(r, v, now, i);
            CursorAt(r', v') && (r'.pc.Paging? || r'.pc.Applying? ==> r'.pc.page >= 1)
  {
  }

  /** What a run with nothing in between leaves, in terms of the events it dispatched:
      exactly the sites published or removed among them lose their cached statuses, and
      the deployments among them are submitted, each once and in order. If no write of the
      cursor fails, a run that ends without error leaves it at the run's final mark. */
  lemma {:induction false} RunLeaves(gen: nat, w: World, now: nat, maxPages: nat, inputs: seq<Input>)
    requires Feasible(NewRun(gen), w, now, maxPages, inputs)
    ensures var (r, v) := Follow(NewRun(gen), w, now, inputs);
            && Leaves(w, r.done, v)
            && (r.pc.Paging? || r.pc.Applying? ==> r.pc.page >= 1)
            && (Store(false) !in inputs ==> CursorAt(r, v))
  {
    if inputs != [] {
      var init, i := inputs[..|inputs| - 1], inputs[|inputs| - 1];
      assert inputs == init + [i];
      RunLeaves(gen, w, now, maxPages, init);
      var (r, v) := Follow(NewRun(gen), w, now, init);
      LeavesStep(w, r, v, now, i);
      if Store(false) !in inputs {
        CursorAtStep(r, v, now, maxPages, i);
      }
      hide Leaves, CursorAt;
    }
  }

  // ------------------------------------------- what holds for any portal

  ghost predicate Ascending(q: seq<int>) {
    forall i, k :: 0 <= i < k < |q| ==> q[i] < q[k]
  }

  /** The cursors a run asks pages after climb, and there are at most as many as the
      page cap. */
  ghost predicate Bounded(r: Run, maxPages: nat) {
    && Ascending(r.asked) && |r.asked| <= maxPages
    && match r.pc
       case Loading => r.asked == []
       case Paging(after, page) => page == |r.asked| + 1 && forall a :: a in r.asked ==> a < after
       case Applying(after, page, _, _) => page == |r.asked| && forall a :: a in r.asked ==> a <= after
       case Ended(_, _) => true
  }

  lemma {:induction false} BoundedStep(r: Run, w: World, now: nat, maxPages: nat, i: Input)
    requires Bounded(r, maxPages) && Possible(r, maxPages, i)
    ensures Bounded(Next(r, w, now, i).0, maxPages)
  {
    assert forall k :: 0 <= k < |r.asked| ==> r.asked[k] in r.asked;
  }

  /** Bounded paging: whatever pages the portal returns, honest or not, a run asks for
      at most `maxPages` of them, after strictly increasing cursors. */
  lemma {:induction false} PagingIsBounded(gen: nat, w: World, now: nat, maxPages: nat, inputs: seq<Input>)
    requires Feasible(NewRun(gen), w, now, maxPages, inputs)
    ensures Bounded(Follow(NewRun(gen), w, now, inputs).0, maxPages)
  {
    if inputs != [] {
      var init := inputs[..|inputs| - 1];
      PagingIsBounded(gen, w, now, maxPages, init);
      var (r, v) := Follow(NewRun(gen), w, now, init);
      BoundedStep(r, v, now, maxPages, inputs[|inputs| - 1]);
    }
  }

  /** As long as a run whose cursor read succeeded is the only writer, the cursor stays
      at or before where the run stands. */
  ghost predicate CursorBehind(r: Run, w: World) {
    r.read ==>
      match r.pc
      case Paging(after, _) => w.cursor <= after
      case Applying(after, _, _, _) => w.cursor <= after
      case _ => true
  }

  lemma CursorStep(r: Run, w: World, now: nat, i: Input)
    requires CursorBehind(r, w)
    ensures var (r', w') := Next(r, w, now, i);
            && CursorBehind(r', w')
            && (w'.cursor < w.cursor <==> i == Store(true) && r.pc.Applying? && r.pc.got.mark < w.cursor)
            && (w'.cursor < w.cursor ==> !r.read || r.pc.got.mark < r.pc.after)
  {
  }

  // ---------------------------------------------------------------- safety

  /** Every journaled event up to `m` has been dispatched. */
  ghost predicate Covered(w: World, m: int) {
    forall e :: e in w.journal && e.id <= m ==> e in w.applied
  }

  ghost predicate FromDeployment(w: World, x: (string, string)) {
    exists e :: e in w.applied && e.kind.Published? && e.domain == x.0 && e.cid == x.1
  }

  /** Submitted for prewarming are the dispatched deployments, and nothing else. */
  ghost predicate Submitted(w: World) {
    && (forall e :: e in w.applied && e.kind.Published? && e.domain != "" && e.cid != "" ==>
          (e.domain, e.cid) in w.prewarmed)
    && (forall x :: x in w.prewarmed ==> x.0 != "" && x.1 != "" && FromDeployment(w, x))
  }

  lemma SubmitsDeployment(w: World, now: nat, e: Event)
    requires Submitted(w)
    ensures Submitted(Apply(w, now, e))
  {
    var w' := Apply(w, now, e);
    DispatchLaw(w, now, e);
    hide Apply;
    assert e in w'.applied && forall x :: x in w.applied ==> x in w'.applied;
    if e.kind.Published? && e.domain != "" && e.cid != "" {
      assert w'.prewarmed[|w.prewarmed|] == (e.domain, e.cid);
      assert forall x :: x in w.prewarmed ==> x in w'.prewarmed;
    }
    forall x | x in w'.prewarmed
      ensures x.0 != "" && x.1 != "" && FromDeployment(w', x)
    {
      if x in w.prewarmed {
        assert FromDeployment(w, x);
      }
    }
  }

  ghost predicate WorldSafe(w: World) {
    && Ordered(w.journal, w.head)
    && w.cursor <= w.head
    && (forall e :: e in w.applied ==> e in w.journal)
    && Covered(w, w.cursor) && Submitted(w)
  }

  /** A run never stands past an event it has not seen dispatched. */
  ghost predicate RunSafe(r: Run, w: World) {
    match r.pc
    case Loading => true
    case Paging(after, _) => Covered(w, after) && after <= w.head
    case Applying(after, _, todo, got) =>
      && after <= w.head && got.mark <= w.head
      && Covered(w, after)
      && (forall e :: e in todo ==> e in w.journal)
      && (forall e :: e in w.journal && e.id <= got.mark ==> e in w.applied || e in todo)
    case Ended(ok, mark) => ok ==> mark <= w.head && Covered(w, mark)
  }

  lemma DispatchIsSafe(r: Run, w: World, now: nat)
    requires WorldSafe(w) && RunSafe(r, w) && r.pc.Applying? && r.pc.todo != []
    ensures var (r', w') := Next(r, w, now, ApplyOne);
            WorldSafe(w') && RunSafe(r', w') && w'.journal == w.journal && w'.head == w.head
  {
    assert r.pc.todo == [r.pc.todo[0]] + r.pc.todo[1..];
    assert r.pc.todo[0] in r.pc.todo;
    SubmitsDeployment(w, now, r.pc.todo[0]);
    hide Submitted;
  }

  lemma {:induction false} SafeStep(r: Run, w: World, now: nat, maxPages: nat, i: Input)
    requires WorldSafe(w) && RunSafe(r, w)
    requires Enabled(r, w, maxPages, i, HonestPages)
    ensures var (r', w') := Next(r, w, now, i);
            WorldSafe(w') && RunSafe(r', w') && w'.journal == w.journal && w'.head == w.head
  {
    if i.ApplyOne? {
      DispatchIsSafe(r, w, now);
    } else {
      if i.Got? {
        BetweenMembers(w.journal, r.pc.after, i.p.mark);
      }
      assert Next(r, w, now, i).1 == w.(cursor := Next(r, w, now, i).1.cursor);
      hide FromDeployment;
    }
  }

  // ------------------------------------------------------------- exactness

  function Max(a: int, b: int): int { if a < b then b else a }

  /** Under honest pages, what a run has dispatched so far is the journal from its
      start up to where it stands, each event once and in order. */
  ghost predicate RunExact(r: Run, w: World) {
    match r.pc
    case Loading => r.done == []
    case Paging(after, _) =>
      && r.start <= after <= w.head && r.loadedHead <= w.head
      && r.done == Between(w.journal, r.start, after)
    case Applying(after, _, todo, got) =>
      && r.start <= after <= w.head && got.mark <= w.head
      && r.last.Some? && r.last.value.after == after && r.last.value.page == got
      && r.loadedHead <= r.last.value.head <= w.head
      && r.done + todo == Between(w.journal, r.start, Max(after, got.mark))
    case Ended(ok, mark) =>
      ok ==>
        && r.last.Some? && r.last.value.page.mark == mark <= w.head && r.start <= r.last.value.after <= w.head
        && (r.last.value.page.truncated ==> mark <= r.last.value.after)
        && r.loadedHead <= r.last.value.head <= w.head
        && r.done == Between(w.journal, r.start, Max(r.last.value.after, mark))
  }

  lemma {:induction false} BetweenNothing(j: seq<Event>, lo: int, hi: int)
    requires hi <= lo
    ensures Between(j, lo, hi) == []
  {
    if j != [] {
      BetweenNothing(j[..|j| - 1], lo, hi);
    }
  }

  lemma {:induction false} ExactStep(r: Run, w: World, now: nat, maxPages: nat, i: Input)
    requires WorldSafe(w) && RunExact(r, w)
    requires Enabled(r, w, maxPages, i, HonestPages)
    ensures var (r', w') := Next(r, w, now, i); RunExact(r', w')
  {
    match i {
      case Load(_) =>
        var from := if i.ok then w.cursor else 0;
        BetweenNothing(w.journal, from, from);
      case Got(p) =>
        if p.mark <= r.pc.after {
          BetweenNothing(w.journal, r.pc.after, p.mark);
          assert r.done + [] == r.done;
        } else {
          BetweenSplits(w.journal, w.head, r.start, r.pc.after, p.mark);
        }
      case ApplyOne =>
        assert r.pc.todo == [r.pc.todo[0]] + r.pc.todo[1..];
        assert r.done + r.pc.todo == (r.done + [r.pc.todo[0]]) + r.pc.todo[1..];
      case Store(_) =>
        assert r.done + [] == r.done;
      case _ =>
    }
  }

  /** The page a run ended on claims that there is more but does not advance, and has
      not reached the journal head of the run's start: the guard that ends the run
      without error short of its goal. */
  predicate Stuck(r: Run) {
    r.last.Some? && r.last.value.page.truncated && r.last.value.page.mark < r.loadedHead
  }

  /** An untruncated last page reached the journal's end. */
  predicate LastReaches(r: Run) {
    r.last.Some? && (!r.last.value.page.truncated ==> r.last.value.page.mark == r.last.value.head)
  }

  /** A run that ends without error has reached the journal head of its start if and
      only if its last page was not a stuck one; only that page is asked to reach the
      end when it says so. */
  lemma EndsDrainedIff(r: Run, w: World)
    requires RunExact(r, w) && r.pc.Ended? && r.pc.ok && LastReaches(r)
    ensures r.pc.mark >= r.loadedHead <==> !Stuck(r)
  {
  }

  // ------------------------------------------------- as the world goes on

  /** The world a moment later: at most one more change journaled, and nothing that was
      dispatched forgotten. */
  ghost predicate Later(w: World, w': World) {
    && w.applied.Keys <= w'.applied.Keys
    && ((w'.journal == w.journal && w'.head == w.head)
        || exists e: Event :: e.id > w.head && w'.journal == w.journal + [e] && w'.head == e.id)
  }

  /** What a run has done so far is not undone by anything else. */
  lemma RunGoesOn(r: Run, w: World, w': World)
    requires 0 <= w.head && Later(w, w')
    ensures RunSafe(r, w) ==> RunSafe(r, w')
    ensures RunExact(r, w) ==> RunExact(r, w')
  {
    if w'.journal != w.journal {
      var e: Event :| e.id > w.head && w'.journal == w.journal + [e] && w'.head == e.id;
      forall hi: int | hi <= w.head
        ensures Between(w'.journal, r.start, hi) == Between(w.journal, r.start, hi)
      {
        BetweenStable(w.journal, e, r.start, hi);
      }
    }
  }

  /** A change journaled while a run is under way leaves the world safe. */
  lemma JournalGrows(w: World, e: Event)
    requires WorldSafe(w) && e.id > w.head
    ensures WorldSafe(w.(journal := w.journal + [e], head := e.id))
  {
  }

  ghost function Domains(es: seq<Event>): set<string> {
    set e | e in es && (e.kind.Published? || e.kind.Removed?) && e.domain != "" :: e.domain
  }

  /** Dispatching a stretch again, from any later start, invalidates no domain
      that the first pass did not. */
  lemma ReplayIsIdempotent(j: seq<Event>, lo: int, again: int, hi: int)
    requires lo <= again
    ensures Domains(Between(j, lo, hi)) + Domains(Between(j, again, hi)) == Domains(Between(j, lo, hi))
  {
    BetweenMembers(j, lo, hi);
    BetweenMembers(j, again, hi);
  }
}

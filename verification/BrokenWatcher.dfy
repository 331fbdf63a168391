/** The recovery watcher: the sites served as broken while the event stream is
    down, polled until they recover, are confirmed deleted, or the stream is back. */
module BrokenWatcher {
  import opened Options
  import opened SiteState
  import opened Recency

  datatype Outcome = NotFound | Failed | Answered(site: Option<Website>) {
    /** The portal reports the site active again. */
    predicate Recovers() { Answered? && site.Some? && Classify(site).IsServiceable() }
  }

  datatype Watch = Watch(broken: set<string>, notFound: map<string, nat>) {
    function Count(d: string): nat { if d in notFound then notFound[d] else 0 }

    function Drop(d: string): Watch { Watch(broken - {d}, notFound - {d}) }

    function Mark(d: string): Watch { if d == "" then this else Watch(broken + {d}, notFound) }

    /** One polled outcome. */
    function Poll(d: string, o: Outcome, confirm: nat): Watch {
      if o.NotFound? then
        if Count(d) + 1 >= confirm then Drop(d) else Watch(broken, notFound[d := Count(d) + 1])
      else if o.Recovers() then Drop(d)
      else Watch(broken, notFound - {d})
    }
  }

  // --------------------------------------------------------- 404 streaks

  /** The portal answers that the site is active. */
  predicate IsActive(o: Outcome) { o.Answered? && o.site.Some? && o.site.value.status == "active" }

  /** How many consecutive 404s end the list of outcomes. */
  function Streak(os: seq<Outcome>): nat {
    if os == [] || !os[|os| - 1].NotFound? then 0 else 1 + Streak(os[..|os| - 1])
  }

  /** The outcomes polled for each tracked domain since it was last tracked. */
  type History = map<string, seq<Outcome>>

  datatype Step = MarkBroken(d: string) | Polled(d: string, o: Outcome) | Clear

  /** Only the polling loop takes domains out, so a domain polled from the loop's
      snapshot is still tracked when its outcome arrives. */
  predicate Enabled(w: Watch, s: Step) {
    s.Polled? ==> s.d in w.broken
  }

  function Next(w: Watch, s: Step, confirm: nat): Watch {
    match s
    case MarkBroken(d) => w.Mark(d)
    case Polled(d, o) => w.Poll(d, o, confirm)
    case Clear => Watch({}, map[])
  }

  ghost function Recall(h: History, w: Watch, s: Step, confirm: nat): History {
    var w' := Next(w, s, confirm);
    map d | d in w'.broken ::
      var past := if d in w.broken && d in h then h[d] else [];
      if s.Polled? && s.d == d then past + [s.o] else past
  }

  /** The watch set and its history after a sequence of steps. */
  ghost function Exec(trace: seq<Step>, confirm: nat): (Watch, History) {
    if trace == [] then (Watch({}, map[]), map[])
    else
      var (w, h) := Exec(trace[..|trace| - 1], confirm);
      var s := trace[|trace| - 1];
      (Next(w, s, confirm), Recall(h, w, s, confirm))
  }

  ghost predicate Legal(trace: seq<Step>, confirm: nat) {
    trace == [] ||
    (Legal(trace[..|trace| - 1], confirm)
     && Enabled(Exec(trace[..|trace| - 1], confirm).0, trace[|trace| - 1]))
  }

  ghost predicate NeverRecovered(os: seq<Outcome>) {
    forall o :: o in os ==> !IsActive(o)
  }

  ghost predicate StreaksExact(w: Watch, h: History, confirm: nat) {
    && h.Keys == w.broken
    && w.notFound.Keys <= w.broken
    && (forall d :: d in w.broken ==> w.Count(d) == Streak(h[d]) < confirm)
    && (forall d :: d in w.broken ==> NeverRecovered(h[d]))
  }

  lemma StreakGrows(os: seq<Outcome>, o: Outcome)
    ensures Streak(os + [o]) == if o.NotFound? then Streak(os) + 1 else 0
  {
    assert (os + [o])[..|os|] == os;
  }

  lemma StreakOf(w: Watch, h: History, s: Step, confirm: nat, d: string)
    requires confirm > 0 && StreaksExact(w, h, confirm) && Enabled(w, s) && d in Next(w, s, confirm).broken
    ensures var w', h' := Next(w, s, confirm), Recall(h, w, s, confirm);
            d in h' && w'.Count(d) == Streak(h'[d]) < confirm && NeverRecovered(h'[d])
  {
    if s.Polled? && s.d == d {
      StreakGrows(h[d], s.o);
      hide Streak, StreaksExact;
    } else if d in w.broken {
      assert w.Count(d) == Streak(h[d]) < confirm && NeverRecovered(h[d]);
      hide Streak, NeverRecovered, StreaksExact;
    } else {
      assert d !in w.notFound && Streak([]) == 0 && NeverRecovered([]);
      hide Streak, NeverRecovered, StreaksExact;
    }
  }

  lemma StreakStep(w: Watch, h: History, s: Step, confirm: nat)
    requires confirm > 0 && StreaksExact(w, h, confirm) && Enabled(w, s)
    ensures StreaksExact(Next(w, s, confirm), Recall(h, w, s, confirm), confirm)
  {
    hide Streak, NeverRecovered;
    var w', h' := Next(w, s, confirm), Recall(h, w, s, confirm);
    assert h'.Keys == w'.broken && w'.notFound.Keys <= w'.broken;
    forall d | d in w'.broken
      ensures w'.Count(d) == Streak(h'[d]) < confirm && NeverRecovered(h'[d])
    {
      StreakOf(w, h, s, confirm, d);
    }
    hide Next, Recall;
  }

  /** Over every run: each counter is the length of the 404 streak its domain is
      in, below the confirmation count, kept for tracked domains only, and no
      tracked domain has answered active since it was tracked. */
  lemma {:induction false} StreaksAreExact(trace: seq<Step>, confirm: nat)
    requires confirm > 0 && Legal(trace, confirm)
    ensures StreaksExact(Exec(trace, confirm).0, Exec(trace, confirm).1, confirm)
  {
    if trace != [] {
      StreaksAreExact(trace[..|trace| - 1], confirm);
      var (w, h) := Exec(trace[..|trace| - 1], confirm);
      StreakStep(w, h, trace[|trace| - 1], confirm);
    }
  }

  /** A domain leaves the set exactly on a clear, on an active answer, or when
      its streak of 404s reaches the confirmation count; on anything else, and
      for every other domain, it stays. */
  lemma LeavesOnlyFor(w: Watch, h: History, s: Step, confirm: nat, d: string)
    requires confirm > 0 && StreaksExact(w, h, confirm) && Enabled(w, s) && d in w.broken
    ensures d !in Next(w, s, confirm).broken <==>
              s.Clear? || (s.Polled? && s.d == d
                           && (IsActive(s.o) || Streak(h[d] + [s.o]) == confirm))
  {
    if s.Polled? {
      StreakGrows(h[s.d], s.o);
    }
  }

  /** A domain enters the set exactly by being marked, if it has a name; marking it
      changes nothing else. */
  lemma EntersOnlyBy(w: Watch, s: Step, confirm: nat, d: string)
    requires Enabled(w, s) && d !in w.broken
    ensures d in Next(w, s, confirm).broken <==> s == MarkBroken(d) && d != ""
    ensures s.MarkBroken? ==> Next(w, s, confirm).notFound == w.notFound
                              && forall x :: x in w.broken ==> x in Next(w, s, confirm).broken
  {
  }

  // --------------------------------------------------------- the watcher

  /** What polling settles for `d` alone: untracked domains are not polled. */
  ghost function Settled(w: Watch, answer: string -> Outcome, confirm: nat, d: string): Watch {
    if d in w.broken then w.Poll(d, answer(d), confirm) else w
  }

  /** What one poll of every tracked domain leaves behind: each domain as if it
      had been the only one. */
  ghost function PollAll(w: Watch, answer: string -> Outcome, confirm: nat): Watch {
    Watch(set d | d in w.broken && d in Settled(w, answer, confirm, d).broken,
          map d | d in w.notFound.Keys + w.broken && d in Settled(w, answer, confirm, d).notFound ::
            Settled(w, answer, confirm, d).notFound[d])
  }

  /** What a watch set says about one domain. */
  ghost function At(w: Watch, d: string): (bool, Option<nat>) {
    (d in w.broken, if d in w.notFound then Some(w.notFound[d]) else None)
  }

  /** All domains but those still to do are settled; the others are untouched. */
  ghost predicate Partly(w: Watch, v: Watch, answer: string -> Outcome, confirm: nat, todo: set<string>) {
    forall d :: At(v, d) == At(if d in todo then w else Settled(w, answer, confirm, d), d)
  }

  lemma PollOneMore(w: Watch, v: Watch, answer: string -> Outcome, confirm: nat, todo: set<string>, d: string)
    requires Partly(w, v, answer, confirm, todo) && d in todo && d in w.broken
    ensures Partly(w, v.Poll(d, answer(d), confirm), answer, confirm, todo - {d})
  {
    var v' := v.Poll(d, answer(d), confirm);
    forall x
      ensures At(v', x) == At(if x in todo - {d} then w else Settled(w, answer, confirm, x), x)
    {
      assert At(v, x) == At(if x in todo then w else Settled(w, answer, confirm, x), x);
    }
  }

  lemma PollFinished(w: Watch, v: Watch, answer: string -> Outcome, confirm: nat)
    requires Partly(w, v, answer, confirm, {})
    ensures v == PollAll(w, answer, confirm)
  {
    var p := PollAll(w, answer, confirm);
    forall d
      ensures (d in v.broken <==> d in p.broken) && (d in v.notFound <==> d in p.notFound)
      ensures d in v.notFound ==> v.notFound[d] == p.notFound[d]
    {
      assert At(v, d) == At(Settled(w, answer, confirm, d), d);
    }
    assert v.broken == p.broken;
    assert v.notFound == p.notFound;
  }

  /** `hits` names, once each, the polled domains that answered active. */
  ghost predicate Hits(hits: seq<string>, polled: set<string>, answer: string -> Outcome) {
    Distinct(hits) && forall d :: d in hits <==> d in polled && IsActive(answer(d))
  }

  /** The content hash reported with an answer. */
  function Hash(o: Outcome): string { if o.Answered? && o.site.Some? then o.site.value.targetHash else "" }

  /** The callback calls for these domains, in order. */
  ghost function Calls(hits: seq<string>, answer: string -> Outcome): seq<(string, string)> {
    if hits == [] then []
    else
      var d := hits[|hits| - 1];
      Calls(hits[..|hits| - 1], answer) + [(d, Hash(answer(d)))]
  }

  lemma CallsOneMore(hits: seq<string>, answer: string -> Outcome, d: string)
    ensures Calls(hits + [d], answer) == Calls(hits, answer) + [(d, Hash(answer(d)))]
  {
    assert (hits + [d])[..|hits|] == hits;
  }

  /** Since `before`, these domains have been invalidated, and the callback fired for
      each of them. */
  ghost predicate Settles(before: (seq<string>, seq<(string, string)>), after: (seq<string>, seq<(string, string)>),
                          polled: set<string>, answer: string -> Outcome) {
    && before.0 <= after.0
    && Hits(after.0[|before.0|..], polled, answer)
    && after.1 == before.1 + Calls(after.0[|before.0|..], answer)
  }

  lemma PollBegins(w: Watch, answer: string -> Outcome, confirm: nat)
    ensures Partly(w, w, answer, confirm, w.broken)
    ensures Hits([], {}, answer) && Calls([], answer) == [] && w.broken - w.broken == {}
  {
  }

  lemma HitOneMore(hits: seq<string>, polled: set<string>, answer: string -> Outcome, d: string)
    requires Hits(hits, polled, answer) && d !in polled
    ensures Hits(if IsActive(answer(d)) then hits + [d] else hits, polled + {d}, answer)
  {
  }

  class SiteWatcher {
    var broken: set<string>
    var notFound: map<string, nat>
    const confirm: nat
    // Effects: cached statuses dropped, and recover callbacks fired.
    var invalidated: seq<string>
    var recovered: seq<(string, string)>

    ghost function View(): Watch
      reads this
    {
      Watch(broken, notFound)
    }

    constructor (count: int)
      ensures View() == Watch({}, map[]) && invalidated == [] && recovered == []
      ensures confirm == (if count <= 0 then 3 else count) && confirm > 0
    {
      confirm := if count <= 0 then 3 else count;
      broken, notFound, invalidated, recovered := {}, map[], [], [];
    }

    method MarkBroken(domain: string)
      modifies this`broken
      ensures View() == old(View()).Mark(domain)
    {
      if domain != "" { broken := broken + {domain}; }
    }

    method Clear()
      modifies this`broken, this`notFound
      ensures View() == Watch({}, map[])
    {
      if |broken| > 0 { broken := {}; }
      notFound := map[];
    }

    method ConfirmNotFound(domain: string) returns (gone: bool)
      modifies this`notFound
      ensures notFound == old(notFound)[domain := old(View()).Count(domain) + 1]
      ensures gone <==> old(View()).Count(domain) + 1 >= confirm
    {
      var n := (if domain in notFound then notFound[domain] else 0) + 1;
      notFound := notFound[domain := n];
      return n >= confirm;
    }

    method Recover(domain: string, targetHash: string)
      modifies this
      ensures View() == old(View()).Drop(domain)
      ensures invalidated == old(invalidated) + [domain]
      ensures recovered == old(recovered) + [(domain, targetHash)]
    {
      broken, notFound := broken - {domain}, notFound - {domain};
      invalidated := invalidated + [domain];
      recovered := recovered + [(domain, targetHash)];
    }

    /** One outcome: exactly an active answer invalidates the domain and fires the
        callback with the reported hash, once. */
    method Settle(domain: string, o: Outcome)
      modifies this
      ensures View() == old(View()).Poll(domain, o, confirm)
      ensures invalidated == old(invalidated) + (if IsActive(o) then [domain] else [])
      ensures recovered == old(recovered) + (if IsActive(o) then [(domain, o.site.value.targetHash)] else [])
    {
      match o {
        case NotFound =>
          var gone := ConfirmNotFound(domain);
          if gone {
            broken, notFound := broken - {domain}, notFound - {domain};
          }
        case Failed =>
          notFound := notFound - {domain};
        case Answered(site) =>
          notFound := notFound - {domain};
          if site.Some? && Classify(site).IsServiceable() {
            Recover(domain, site.value.targetHash);
          }
      }
    }

    /** Polls a snapshot of the tracked domains in no particular order; the result
        does not depend on that order, and for each domain that answers active,
        exactly, there is one invalidation and one callback with its hash. */
    method Poll(answer: string -> Outcome)
      modifies this
      ensures View() == PollAll(old(View()), answer, confirm)
      ensures Settles(old((invalidated, recovered)), (invalidated, recovered), old(broken), answer)
    {
      var todo := broken;
      ghost var w0, inv0, rec0 := View(), invalidated, recovered;
      ghost var hits: seq<string> := [];
      PollBegins(w0, answer, confirm);
      hide Hits, Partly, PollAll, Calls;
      while todo != {}
        invariant todo <= w0.broken
        invariant Partly(w0, View(), answer, confirm, todo)
        invariant invalidated == inv0 + hits && Hits(hits, w0.broken - todo, answer)
        invariant recovered == rec0 + Calls(hits, answer)
        decreases |todo|
      {
        var d :| d in todo;
        PollOneMore(w0, View(), answer, confirm, todo, d);
        HitOneMore(hits, w0.broken - todo, answer, d);
        assert (w0.broken - todo) + {d} == w0.broken - (todo - {d});
        Settle(d, answer(d));
        if IsActive(answer(d)) {
          CallsOneMore(hits, answer, d);
          hits := hits + [d];
        }
        todo := todo - {d};
      }
      assert w0.broken - {} == w0.broken && invalidated[|inv0|..] == hits;
      PollFinished(w0, View(), answer, confirm);
    }

    /** One tick. `ready` is none when no readiness predicate was registered. */
    method Tick(connected: bool, ready: Option<bool>, answer: string -> Outcome)
      modifies this
      ensures View() == (if !connected then PollAll(old(View()), answer, confirm)
                         else if ready == Some(false) then old(View())
                         else Watch({}, map[]))
      ensures if connected then invalidated == old(invalidated) && recovered == old(recovered)
              else Settles(old((invalidated, recovered)), (invalidated, recovered), old(broken), answer)
    {
      if connected {
        if ready.None? || ready.value { Clear(); }
      } else {
        Poll(answer);
      }
    }
  }
}

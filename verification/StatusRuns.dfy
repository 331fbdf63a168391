/** The status cache and the gateway over whole runs, with requests, their portal
    answers, background revalidations, invalidations, restarts and the passing of
    time in any order. */
module StatusRuns {
  import opened Options
  import opened Recency
  import opened SiteState
  import SC = StatusCache
  import opened Gateway

  datatype Step =
    | Elapse(dt: nat)
    | Asked(d: string)                                // a request looks its domain up
    | Answered(d: string, o: Outcome)                 // the portal answers a request
    | Refreshed(d: string, site: Option<Option<Website>>)  // a revalidation ends
    | Dropped(d: string)                              // the domain is invalidated
    | Restart(order: seq<string>)                     // memory is reloaded in scan order

  datatype Sys = Sys(t: SC.Tiers, now: int)

  function Next(s: Sys, c: SC.Config, st: Step): Sys {
    match st
    case Elapse(dt) => s.(now := s.now + dt)
    case Asked(d) => s.(t := Ask(s.t, c, s.now, d, false).0)
    case Answered(d, o) => s.(t := Answer(s.t, c, s.now, d, o).0)
    case Refreshed(d, site) => s.(t := SC.Revalidated(s.t, c, s.now, d, site))
    case Dropped(d) => s.(t := SC.Invalidate(s.t, c, d))
    case Restart(order) =>
      var found := if c.hasRedis then SC.LoadAll(s.t.redis, s.now, order) else [];
      s.(t := SC.Tiers(SC.Fill(Lru([], map[], s.t.mem.cap), found), s.t.redis, {}))
  }

  function Exec(s: Sys, c: SC.Config, trace: seq<Step>): Sys {
    if trace == [] then s else Next(Exec(s, c, trace[..|trace| - 1]), c, trace[|trace| - 1])
  }

  // ----------------------------------------------------- tier coherence

  /** Where both tiers hold a domain they hold the same response, times and error
      text. */
  ghost predicate Coherent(t: SC.Tiers) {
    forall d :: d in t.mem.vals && d in t.redis ==> SC.ToRecord(t.mem.vals[d]) == t.redis[d].record
  }

  /** An entry is written through exactly when its remaining life is at least half
      a second. */
  lemma PersistsIff(life: int)
    ensures SC.RoundToSecond(life) > 0 <==> 2 * life >= SC.SECOND
  {
    var half := SC.SECOND / 2;
    if life >= 0 {
      assert (life + half) / SC.SECOND >= 1 <==> life + half >= SC.SECOND;
    }
  }

  /** Storing an entry keeps the tiers coherent on its domain if and only if it is
      written through, or the persistent tier has nothing else to say there. */
  lemma StoreCoherentIff(t: SC.Tiers, c: SC.Config, now: int, d: string, e: SC.Entry)
    requires t.mem.Valid() && c.hasRedis
    ensures var t' := SC.Store(t, c, now, d, e);
            (d in t'.redis ==> SC.ToRecord(t'.mem.vals[d]) == t'.redis[d].record) <==>
            2 * (e.expiresAt - now) >= SC.SECOND || (d in t.redis ==> t.redis[d].record == SC.ToRecord(e))
  {
    PersistsIff(e.expiresAt - now);
  }

  /** An error with a life of a tenth of a second is not written through: the
      persistent tier goes on holding the response from before. */
  lemma ShortLifeLeavesOlderRecord()
    ensures var c := SC.Config(SC.SECOND, SC.SECOND / 10, SC.SECOND, true, true);
            var site, err := Some(Website(STATUS_ACTIVE, "h")), SC.Error(SC.Gone, "gone");
            var t := SC.SetFromAPI(SC.Tiers(Lru([], map[], 8), map[], {}), c, 0, "d", site);
            var t' := SC.SetError(t, c, 0, "d", err, true);
            && Coherent(t) && !Coherent(t')
            && "d" in t'.mem.vals && t'.mem.vals["d"].err == Some(err)
            && "d" in t'.redis && t'.redis["d"].record.response == site
  {
    var c := SC.Config(SC.SECOND, SC.SECOND / 10, SC.SECOND, true, true);
    var site, err := Some(Website(STATUS_ACTIVE, "h")), SC.Error(SC.Gone, "gone");
    var e := SC.Entry(site, None, 0, SC.SECOND);
    var t := SC.SetFromAPI(SC.Tiers(Lru([], map[], 8), map[], {}), c, 0, "d", site);
    assert Without([], "d") == [] && t.mem == Lru(["d"], map["d" := e], 8);
    assert SC.RoundToSecond(SC.SECOND) == SC.SECOND;
    assert t.redis == map["d" := SC.Held(SC.ToRecord(e), SC.SECOND)];
    var t' := SC.SetError(t, c, 0, "d", err, true);
    assert SC.RoundToSecond(SC.SECOND / 10) == 0 && t'.redis == t.redis;
    assert t'.mem.vals["d"] == SC.Entry(None, Some(err), 0, SC.SECOND / 10);
  }

  /** The invariant of every run. */
  ghost predicate Ok(t: SC.Tiers, c: SC.Config) {
    t.mem.Valid() && Coherent(t) && (!c.hasRedis ==> t.redis == map[])
  }

  lemma StoreOk(t: SC.Tiers, c: SC.Config, now: int, d: string, e: SC.Entry)
    requires Ok(t, c) && 2 * (e.expiresAt - now) >= SC.SECOND
    ensures Ok(SC.Store(t, c, now, d, e), c)
  {
    t.mem.AddStays(d, e);
    PersistsIff(e.expiresAt - now);
  }

  lemma PromoteOk(t: SC.Tiers, c: SC.Config, d: string)
    requires Ok(t, c) && d in t.mem.vals
    ensures Ok(t.(mem := t.mem.Promote(d)), c)
  {
    t.mem.PromoteStays(d);
  }

  lemma RevalidateOk(t: SC.Tiers, c: SC.Config, d: string)
    requires Ok(t, c)
    ensures Ok(SC.Revalidate(t, c, d), c)
  {
  }

  ghost predicate LivesLong(c: SC.Config) {
    2 * c.ttl >= SC.SECOND && 2 * c.shortTTL >= SC.SECOND
  }

  lemma RecordRoundTrip(r: SC.Record)
    ensures SC.ToRecord(SC.FromRecord(r)) == r
  {
  }

  lemma FromRedisOk(t: SC.Tiers, c: SC.Config, now: int, d: string)
    requires Ok(t, c)
    ensures Ok(SC.FromRedis(t, c, now, d).0, c)
  {
    if d in t.redis {
      var e := SC.FromRecord(t.redis[d].record);
      RecordRoundTrip(t.redis[d].record);
      t.mem.AddStays(d, e);
    }
  }

  lemma GetOk(t: SC.Tiers, c: SC.Config, now: int, d: string)
    requires Ok(t, c)
    ensures Ok(SC.Get(t, c, now, d).0, c)
  {
    if d in t.mem.vals {
      PromoteOk(t, c, d);
      RevalidateOk(t.(mem := t.mem.Promote(d)), c, d);
    } else {
      FromRedisOk(t, c, now, d);
    }
  }

  lemma LastOk(t: SC.Tiers, c: SC.Config, now: int, d: string)
    requires Ok(t, c)
    ensures Ok(SC.Last(t, c, now, d).0, c)
  {
    if d in t.mem.vals {
      PromoteOk(t, c, d);
    } else {
      FromRedisOk(t, c, now, d);
    }
  }

  lemma RearmOk(t: SC.Tiers, c: SC.Config, now: int, d: string, e: SC.Entry)
    requires Ok(t, c) && LivesLong(c) && e.expiresAt == now + c.shortTTL
    ensures Ok(SC.Rearm(t, c, now, d, e), c)
  {
    StoreOk(t, c, now, d, e);
    RevalidateOk(SC.Store(t, c, now, d, e), c, d);
  }

  lemma KeepAliveOk(t: SC.Tiers, c: SC.Config, now: int, d: string)
    requires Ok(t, c) && LivesLong(c)
    ensures Ok(SC.KeepAlive(t, c, now, d).0, c)
  {
    LastOk(t, c, now, d);
    var (t', e) := SC.Last(t, c, now, d);
    hide Ok, SC.Last, SC.Rearm;
    if e.Some? {
      var rearmed := e.value.(expiresAt := now + c.shortTTL);
      RearmOk(t', c, now, d, rearmed);
      assert SC.KeepAlive(t, c, now, d).0 == SC.Rearm(t', c, now, d, rearmed);
    } else {
      assert SC.KeepAlive(t, c, now, d).0 == t';
    }
  }

  lemma SetFromAPIOk(t: SC.Tiers, c: SC.Config, now: int, d: string, site: Option<Website>)
    requires Ok(t, c) && LivesLong(c)
    ensures Ok(SC.SetFromAPI(t, c, now, d, site), c)
  {
    var short := site.Some? && Classify(site).NeedsShortTTL();
    StoreOk(t, c, now, d, SC.Entry(site, None, now, now + SC.Life(c, short)));
  }

  lemma SetErrorOk(t: SC.Tiers, c: SC.Config, now: int, d: string, err: SC.Error, short: bool)
    requires Ok(t, c) && LivesLong(c)
    ensures Ok(SC.SetError(t, c, now, d, err, short), c)
  {
    StoreOk(t, c, now, d, SC.Entry(None, Some(err), now, now + SC.Life(c, short)));
  }

  lemma UnreachedOk(t: SC.Tiers, c: SC.Config, now: int, d: string, err: SC.Error)
    requires Ok(t, c) && LivesLong(c)
    ensures Ok(Unreached(t, c, now, d, err).0, c)
  {
    KeepAliveOk(t, c, now, d);
    SetErrorOk(SC.KeepAlive(t, c, now, d).0, c, now, d, err, true);
  }

  lemma AnswerOk(t: SC.Tiers, c: SC.Config, now: int, d: string, o: Outcome)
    requires Ok(t, c) && LivesLong(c)
    ensures Ok(Answer(t, c, now, d, o).0, c)
  {
    match o {
      case Site(site) => SetFromAPIOk(t, c, now, d, site);
      case Failed(err) =>
        SetErrorOk(t, c, now, d, err, !err.class_.NotFound?);
        UnreachedOk(t, c, now, d, err);
    }
  }

  lemma {:induction false} FillOk(m: Lru<SC.Entry>, r: SC.Redis, now: int, order: seq<string>)
    requires m.Valid() && m.vals == map[]
    ensures var f := SC.Fill(m, SC.LoadAll(r, now, order));
            f.Valid() && Coherent(SC.Tiers(f, r, {}))
  {
    if order != [] {
      var init, d := order[..|order| - 1], order[|order| - 1];
      FillOk(m, r, now, init);
      var es := SC.LoadAll(r, now, init);
      var e := SC.Recall(r, now, d);
      if e.Some? && now <= e.value.expiresAt {
        assert (es + [(d, e.value)])[..|es|] == es;
        SC.Fill(m, es).AddStays(d, e.value);
        RecordRoundTrip(r[d].record);
      }
    }
  }

  lemma StepOk(s: Sys, c: SC.Config, st: Step)
    requires Ok(s.t, c) && LivesLong(c)
    ensures Ok(Next(s, c, st).t, c)
  {
    match st {
      case Elapse(_) =>
      case Asked(d) => GetOk(s.t, c, s.now, d);
      case Answered(d, o) => AnswerOk(s.t, c, s.now, d, o);
      case Refreshed(d, site) =>
        if site.Some? {
          SetFromAPIOk(s.t, c, s.now, d, site.value);
        }
      case Dropped(d) =>
        s.t.mem.RemoveStays(d);
      case Restart(order) =>
        var empty: Lru<SC.Entry> := Lru([], map[], s.t.mem.cap);
        FillOk(empty, s.t.redis, s.now, order);
    }
  }

  /** Two-tier coherence: over every run with lives of at least half a second, the
      tiers agree wherever they both hold a domain. */
  lemma {:induction false} TiersStayCoherent(s: Sys, c: SC.Config, trace: seq<Step>)
    requires Ok(s.t, c) && LivesLong(c)
    ensures Ok(Exec(s, c, trace).t, c)
  {
    if trace != [] {
      TiersStayCoherent(s, c, trace[..|trace| - 1]);
      StepOk(Exec(s, c, trace[..|trace| - 1]), c, trace[|trace| - 1]);
    }
  }

  // ------------------------------------------------- how long and what

  /** What the parts of a step do to a domain: entries change only where they are
      stored, loaded or removed. */
  lemma StoreElsewhere(t: SC.Tiers, c: SC.Config, now: int, d: string, e: SC.Entry, x: string)
    ensures var t' := SC.Store(t, c, now, d, e);
            && (x != d && x in t'.mem.vals ==> x in t.mem.vals && t'.mem.vals[x] == t.mem.vals[x])
            && (x != d ==> (x in t'.redis <==> x in t.redis))
            && d in t'.mem.vals && t'.mem.vals[d] == e
  {
  }

  /** What a lookup answers for an entry: the entry until it expires, the same marked
      expired for the stale window after that, and then nothing. */
  function Window(c: SC.Config, e: SC.Entry, now: int): SC.Lookup {
    if now <= e.expiresAt then SC.Hit(e, false)
    else if now - e.expiresAt <= c.staleTTL then SC.Hit(e, true)
    else SC.Miss
  }

  /** A lookup of an entry in memory: it is the most recent one then, nothing else of the
      memory changes, and an expired hit, and nothing else, is submitted for revalidation
      if there is a portal. */
  lemma MemoryAnswers(t: SC.Tiers, c: SC.Config, now: int, d: string)
    requires t.mem.Valid() && c.staleTTL >= 0 && d in t.mem.vals
    ensures var (u, r) := SC.Get(t, c, now, d);
            && r == Window(c, t.mem.vals[d], now)
            && u.mem.vals == t.mem.vals && UsedLast(t.mem.keys, u.mem.keys, d, t.mem.cap)
            && u.redis == t.redis
            && u.pending == (if r.Hit? && r.expired && c.hasApi then t.pending + {d} else t.pending)
  {
    t.mem.AddLaw(d, t.mem.vals[d]);
    hide Touch, UsedLast;
  }

  /** A portal response is served for its life, then for the stale window while it is
      revalidated, and not at all after that; its life is short exactly for sites
      that are pending or broken. */
  lemma StoredIsServedFor(t: SC.Tiers, c: SC.Config, now: int, d: string, site: Option<Website>, later: int)
    requires t.mem.Valid() && c.staleTTL >= 0
    ensures var short := site.Some? && site.value.status in {"pending_validation", "broken"};
            var life := if short then c.shortTTL else c.ttl;
            var t' := SC.SetFromAPI(t, c, now, d, site);
            var (u, r) := SC.Get(t', c, later, d);
            && r == Window(c, SC.Entry(site, None, now, now + life), later)
            && t'.pending == t.pending
            && u.pending == (if r.Hit? && r.expired && c.hasApi then t.pending + {d} else t.pending)
  {
    var short := site.Some? && Classify(site).NeedsShortTTL();
    StoreElsewhere(t, c, now, d, SC.Entry(site, None, now, now + SC.Life(c, short)), d);
  }

  /** What a revalidation leaves, in any state of any run. A response replaces what was
      cached and has the whole life of one from then on; a failure changes neither tier.
      Either way the domain is no longer pending, so that the next stale hit submits it
      again. */
  lemma RevalidationRefreshes(s: Sys, c: SC.Config, d: string, site: Option<Website>, later: int)
    requires s.t.mem.Valid() && c.staleTTL >= 0
    ensures var life := if site.Some? && site.value.status in {"pending_validation", "broken"}
                        then c.shortTTL else c.ttl;
            var u := Next(s, c, Refreshed(d, Some(site))).t;
            var (v, r) := SC.Get(u, c, later, d);
            && u.pending == s.t.pending - {d}
            && r == Window(c, SC.Entry(site, None, s.now, s.now + life), later)
            && (d in v.pending <==> r.Hit? && r.expired && c.hasApi)
    ensures var u := Next(s, c, Refreshed(d, None)).t;
            && u == s.t.(pending := s.t.pending - {d})
            && (d in s.t.mem.vals ==>
                  var (v, r) := SC.Get(u, c, later, d);
                  && r == Window(c, s.t.mem.vals[d], later)
                  && (d in v.pending <==> r.Hit? && r.expired && c.hasApi))
  {
    StoredIsServedFor(s.t, c, s.now, d, site, later);
    var u := Next(s, c, Refreshed(d, Some(site))).t;
    assert SC.Get(u, c, later, d).1 == SC.Get(SC.SetFromAPI(s.t, c, s.now, d, site), c, later, d).1;
  }

  /** Neither tier knows the domain. */
  ghost predicate Absent(t: SC.Tiers, d: string) {
    d !in t.mem.vals && d !in t.redis
  }

  lemma FromRedisElsewhere(t: SC.Tiers, c: SC.Config, now: int, d: string, x: string)
    ensures var (t', e) := SC.FromRedis(t, c, now, d);
            && (x != d && x in t'.mem.vals ==> x in t.mem.vals && t'.mem.vals[x] == t.mem.vals[x])
            && t'.redis == t.redis
            && (d !in t.redis ==> t' == t && e == None)
  {
  }

  lemma KeepAliveElsewhere(t: SC.Tiers, c: SC.Config, now: int, d: string, x: string)
    ensures var (t', e) := SC.KeepAlive(t, c, now, d);
            && (x != d && x in t'.mem.vals ==> x in t.mem.vals && t'.mem.vals[x] == t.mem.vals[x])
            && (x != d ==> (x in t'.redis <==> x in t.redis))
            && (Absent(t, d) ==> t' == t && e == None)
            && (d in t.mem.vals ==>
                  && e == Some(t.mem.vals[d].(expiresAt := now + c.shortTTL))
                  && d in t'.mem.vals && t'.mem.vals[d] == e.value)
  {
    var (t', e) := SC.Last(t, c, now, d);
    FromRedisElsewhere(t, c, now, d, x);
    if e.Some? {
      StoreElsewhere(t', c, now, d, e.value.(expiresAt := now + c.shortTTL), x);
    }
  }

  /** An error is remembered too: an unknown domain's for the full life, any other for the
      short one; so is an unreachable portal if nothing is known of the domain. */
  lemma ErrorIsServedFor(t: SC.Tiers, c: SC.Config, now: int, d: string, err: SC.Error, later: int)
    requires t.mem.Valid() && c.staleTTL >= 0
    requires || err.class_.NotFound? || err.class_.Gone? || err.class_.Unauthorized?
             || (Absent(t, d) && !err.class_.Canceled? && !err.class_.Deadline?)
    ensures var life := if err.class_.NotFound? then c.ttl else c.shortTTL;
            SC.Get(Answer(t, c, now, d, Failed(err)).0, c, later, d).1
            == Window(c, SC.Entry(None, Some(err), now, now + life), later)
  {
    KeepAliveElsewhere(t, c, now, d, d);
    StoreElsewhere(t, c, now, d, SC.Entry(None, Some(err), now, now + SC.Life(c, !err.class_.NotFound?)), d);
  }

  /** The persistent form of an error is its text. */
  function Reread(e: SC.Entry): SC.Entry {
    e.(err := if e.err.Some? && e.err.value.text != "" then Some(SC.Error(SC.Restored, e.err.value.text)) else None)
  }

  /** A whole number of seconds, as near as can be. */
  lemma RoundsToNearest(life: int)
    ensures -SC.SECOND <= 2 * (SC.RoundToSecond(life) - life) <= SC.SECOND
    ensures SC.RoundToSecond(life) % SC.SECOND == 0
  {
  }

  /** What the persistent tier is for: an entry with at least half a second to live that
      memory has lost since is found until its key or the entry itself expires, and is back
      in memory then; after that it is not found. */
  lemma PersistedIsServed(t: SC.Tiers, c: SC.Config, now: int, d: string, e: SC.Entry, u: SC.Tiers, later: int)
    requires c.hasRedis && 2 * (e.expiresAt - now) >= SC.SECOND
    requires u.redis == SC.Store(t, c, now, d, e).redis && d !in u.mem.vals
    ensures var (v, r) := SC.Get(u, c, later, d);
            if later < now + SC.RoundToSecond(e.expiresAt - now) && later <= e.expiresAt
            then r == SC.Hit(Reread(e), false) && d in v.mem.vals && v.mem.vals[d] == Reread(e)
                 && v.pending == u.pending && v.redis == u.redis
            else r == SC.Miss && v == u
  {
    PersistsIff(e.expiresAt - now);
  }

  lemma ErrorIsRemembered(t: SC.Tiers, c: SC.Config, now: int, d: string, err: SC.Error, short: bool)
    requires c.ttl >= 0 && c.shortTTL >= 0
    ensures Ask(SC.SetError(t, c, now, d, err, short), c, now, d, false).1 == Deny(err)
  {
    StoreElsewhere(t, c, now, d, SC.Entry(None, Some(err), now, now + SC.Life(c, short)), d);
  }

  /** When there is something to re-arm: memory holds it, or the persistent tier does,
      unexpired. It is in memory then for another short life, and pending if there is a
      portal to ask. */
  lemma KeepAliveFinds(t: SC.Tiers, c: SC.Config, now: int, d: string)
    ensures var (t', e) := SC.KeepAlive(t, c, now, d);
            && (e.Some? <==>
                  || d in t.mem.vals
                  || (c.hasRedis && d in t.redis && now < t.redis[d].deadline && now <= t.redis[d].record.expiresAt))
            && (e.Some? ==>
                  && d in t'.mem.vals && t'.mem.vals[d] == e.value && e.value.expiresAt == now + c.shortTTL
                  && e.value.response == (if d in t.mem.vals then t.mem.vals[d].response
                                          else t.redis[d].record.response))
            && t'.pending == (if e.Some? && c.hasApi then t.pending + {d} else t.pending)
  {
  }

  lemma UnreachedDecidesNext(t: SC.Tiers, c: SC.Config, now: int, d: string, err: SC.Error)
    requires c.hasApi && c.ttl >= 0 && c.shortTTL >= 0
    ensures var (t', a) := Unreached(t, c, now, d, err);
            && (a.Serve? ==> a.site.Some? && a.site.value.status == "active")
            && (a.Deny? ==> a == Deny(err)) && !a.AskPortal?
            && (a.Deny? && !err.class_.Deadline? ==> Ask(t', c, now, d, false).1 == Deny(err))
            && (Absent(t, d) && err.class_.Deadline? ==> t' == t && Ask(t', c, now, d, false).1 == AskPortal)
  {
    KeepAliveElsewhere(t, c, now, d, d);
    ErrorIsRemembered(SC.KeepAlive(t, c, now, d).0, c, now, d, err, true);
    FromRedisElsewhere(t, c, now, d, d);
    hide SC.KeepAlive, SC.SetError;
  }

  /** What the portal's answer to one request makes of the next request for the same
      domain at once: sites, unknown, gone and forbidden domains are remembered as
      they are; a cancelled request leaves no trace; an unreachable portal is
      remembered only if there is nothing to serve, and a timeout not even then. */
  lemma AnswerDecidesNext(t: SC.Tiers, c: SC.Config, now: int, d: string, o: Outcome)
    requires t.mem.Valid() && c.hasApi && c.ttl >= 0 && c.shortTTL >= 0
    ensures var (t', a) := Answer(t, c, now, d, o);
            var next := Ask(t', c, now, d, false).1;
            match o
            case Site(site) => next == a == Serve(site)
            case Failed(err) =>
              if err.class_.NotFound? || err.class_.Gone? || err.class_.Unauthorized? then next == a == Deny(err)
              else if err.class_.Canceled? then t' == t && a == Deny(err)
              else
                && (a.Serve? ==> a.site.Some? && a.site.value.status == "active")
                && (a.Deny? ==> a == Deny(err)) && !a.AskPortal?
                && (a.Deny? && !err.class_.Deadline? ==> next == Deny(err))
                && (Absent(t, d) && err.class_.Deadline? ==> t' == t && next == AskPortal)
  {
    match o {
      case Site(site) =>
        var short := site.Some? && Classify(site).NeedsShortTTL();
        StoreElsewhere(t, c, now, d, SC.Entry(site, None, now, now + SC.Life(c, short)), d);
      case Failed(err) =>
        UnreachedDecidesNext(t, c, now, d, err);
        ErrorIsRemembered(t, c, now, d, err, !err.class_.NotFound?);
        hide Unreached, SC.SetError, Ask;
    }
  }

  // -------------------------------------------------------- invalidation

  /** Whether the step stores something for an absent domain: a revalidation that
      was in flight counts, a cancelled or timed out request does not. */
  predicate Stores(st: Step, d: string) {
    || (st.Refreshed? && st.d == d && st.site.Some?)
    || (st.Answered? && st.d == d
        && !(st.o.Failed? && (st.o.err.class_.Canceled? || st.o.err.class_.Deadline?)))
  }

  lemma GetElsewhere(t: SC.Tiers, c: SC.Config, now: int, d: string, x: string)
    ensures var t' := SC.Get(t, c, now, d).0;
            && (x != d || d in t.mem.vals ==> x in t'.mem.vals ==> x in t.mem.vals && t'.mem.vals[x] == t.mem.vals[x])
            && t'.redis == t.redis
            && (Absent(t, d) ==> t' == t)
  {
    FromRedisElsewhere(t, c, now, d, x);
  }

  /** Nothing new is known of the domain. */
  ghost predicate Spares(t: SC.Tiers, t': SC.Tiers, x: string) {
    && (x in t'.mem.vals ==> x in t.mem.vals && t'.mem.vals[x] == t.mem.vals[x])
    && (x in t'.redis <==> x in t.redis)
  }

  lemma SetErrorElsewhere(t: SC.Tiers, c: SC.Config, now: int, d: string, err: SC.Error, short: bool, x: string)
    requires x != d
    ensures Spares(t, SC.SetError(t, c, now, d, err, short), x)
  {
    StoreElsewhere(t, c, now, d, SC.Entry(None, Some(err), now, now + SC.Life(c, short)), x);
  }

  lemma UnreachedElsewhere(t: SC.Tiers, c: SC.Config, now: int, d: string, err: SC.Error, x: string)
    requires x != d
    ensures Spares(t, Unreached(t, c, now, d, err).0, x)
  {
    var t' := SC.KeepAlive(t, c, now, d).0;
    KeepAliveElsewhere(t, c, now, d, x);
    assert Spares(t, t', x);
    SetErrorElsewhere(t', c, now, d, err, true, x);
    assert Unreached(t, c, now, d, err).0 in {t', SC.SetError(t', c, now, d, err, true)};
  }

  lemma AnswerElsewhere(t: SC.Tiers, c: SC.Config, now: int, d: string, o: Outcome, x: string)
    requires x != d
    ensures Spares(t, Answer(t, c, now, d, o).0, x)
  {
    match o {
      case Site(site) =>
        var short := site.Some? && Classify(site).NeedsShortTTL();
        StoreElsewhere(t, c, now, d, SC.Entry(site, None, now, now + SC.Life(c, short)), x);
      case Failed(err) =>
        SetErrorElsewhere(t, c, now, d, err, !err.class_.NotFound?, x);
        UnreachedElsewhere(t, c, now, d, err, x);
    }
  }

  /** A step about one domain leaves the entries of the others as they are, or
      evicts them. */
  lemma StepElsewhere(s: Sys, c: SC.Config, st: Step, x: string)
    requires !st.Restart? && !st.Elapse? && st.d != x
    ensures Spares(s.t, Next(s, c, st).t, x)
  {
    match st {
      case Asked(d) => GetElsewhere(s.t, c, s.now, d, x);
      case Answered(d, o) => AnswerElsewhere(s.t, c, s.now, d, o, x);
      case Refreshed(d, site) =>
        if site.Some? {
          AnswerElsewhere(s.t, c, s.now, d, Site(site.value), x);
        }
      case Dropped(d) =>
    }
  }

  /** The domain has left memory, as the oldest one of a full memory and for a new one. */
  ghost predicate CostsOldest(m: Lru<SC.Entry>, m': Lru<SC.Entry>, d: string, x: string) {
    x in m'.vals || (d !in m.vals && |m.keys| == m.cap && m.keys != [] && m.keys[0] == x)
  }

  lemma AddCosts(m: Lru<SC.Entry>, d: string, e: SC.Entry, x: string)
    requires m.Valid() && x in m.vals && x != d
    ensures m.Add(d, e).Valid() && d in m.Add(d, e).vals && CostsOldest(m, m.Add(d, e), d, x)
  {
    m.AddStays(d, e);
  }

  lemma StoreCosts(t: SC.Tiers, c: SC.Config, now: int, d: string, e: SC.Entry, x: string)
    requires t.mem.Valid() && x in t.mem.vals && x != d
    ensures var t' := SC.Store(t, c, now, d, e);
            t'.mem.Valid() && d in t'.mem.vals && CostsOldest(t.mem, t'.mem, d, x)
  {
    AddCosts(t.mem, d, e, x);
  }

  lemma LastCosts(t: SC.Tiers, c: SC.Config, now: int, d: string, x: string)
    requires t.mem.Valid() && x in t.mem.vals && x != d
    ensures var (t', e) := SC.Last(t, c, now, d);
            && t'.mem.Valid() && CostsOldest(t.mem, t'.mem, d, x)
            && (if e.Some? then d in t'.mem.vals else t' == t)
  {
    t.mem.PromoteStays(d);
    var e := if c.hasRedis then SC.Recall(t.redis, now, d) else None;
    if e.Some? {
      AddCosts(t.mem, d, e.value, x);
    }
    hide Touch;
  }

  lemma KeepAliveCosts(t: SC.Tiers, c: SC.Config, now: int, d: string, x: string)
    requires t.mem.Valid() && x in t.mem.vals && x != d
    ensures var (t', e) := SC.KeepAlive(t, c, now, d);
            && t'.mem.Valid() && CostsOldest(t.mem, t'.mem, d, x)
            && (if e.Some? then d in t'.mem.vals else t' == t)
  {
    hide Touch, Distinct, SC.Persist;
    LastCosts(t, c, now, d, x);
    var (t', e) := SC.Last(t, c, now, d);
    hide SC.Last;
    if e.Some? {
      var rearmed := e.value.(expiresAt := now + c.shortTTL);
      t'.mem.AddStays(d, rearmed);
      if x in t'.mem.vals {
        StoreCosts(t', c, now, d, rearmed, x);
      }
    }
  }

  lemma SetErrorCosts(t: SC.Tiers, c: SC.Config, now: int, d: string, err: SC.Error, short: bool, x: string)
    requires t.mem.Valid() && x in t.mem.vals && x != d
    ensures CostsOldest(t.mem, SC.SetError(t, c, now, d, err, short).mem, d, x)
  {
    StoreCosts(t, c, now, d, SC.Entry(None, Some(err), now, now + SC.Life(c, short)), x);
  }

  lemma AnswerCosts(t: SC.Tiers, c: SC.Config, now: int, d: string, o: Outcome, x: string)
    requires t.mem.Valid() && x in t.mem.vals && x != d
    ensures CostsOldest(t.mem, Answer(t, c, now, d, o).0.mem, d, x)
  {
    match o {
      case Site(site) =>
        var short := site.Some? && Classify(site).NeedsShortTTL();
        StoreCosts(t, c, now, d, SC.Entry(site, None, now, now + SC.Life(c, short)), x);
      case Failed(err) =>
        SetErrorCosts(t, c, now, d, err, !err.class_.NotFound?, x);
        KeepAliveCosts(t, c, now, d, x);
        var t' := SC.KeepAlive(t, c, now, d).0;
        if x in t'.mem.vals {
          SetErrorCosts(t', c, now, d, err, true, x);
        }
        hide SC.KeepAlive, SC.SetError;
    }
  }

  /** A step about one domain costs another its entry in memory only if it adds its own to
      a full memory of which the other is the oldest; an invalidation never does. */
  lemma StepCostsOldest(s: Sys, c: SC.Config, st: Step, x: string)
    requires s.t.mem.Valid() && x in s.t.mem.vals
    requires !st.Restart? && !st.Elapse? && st.d != x
    ensures CostsOldest(s.t.mem, Next(s, c, st).t.mem, st.d, x)
    ensures st.Dropped? ==> x in Next(s, c, st).t.mem.vals
  {
    match st {
      case Asked(d) => LastCosts(s.t, c, s.now, d, x);
      case Answered(d, o) => AnswerCosts(s.t, c, s.now, d, o, x);
      case Refreshed(d, site) =>
        if site.Some? {
          AnswerCosts(s.t, c, s.now, d, Site(site.value), x);
        }
      case Dropped(d) =>
    }
  }

  lemma FillMore(m: Lru<SC.Entry>, es: seq<(string, SC.Entry)>, x: string, e: SC.Entry)
    ensures SC.Fill(m, es + [(x, e)]) == SC.Fill(m, es).Add(x, e)
  {
    assert (es + [(x, e)])[..|es|] == es;
  }

  lemma {:induction false} LoadedFromRedis(m: Lru<SC.Entry>, r: SC.Redis, now: int, order: seq<string>, d: string)
    requires d !in m.vals && d !in r
    ensures d !in SC.Fill(m, SC.LoadAll(r, now, order)).vals
  {
    if order != [] {
      var init, x := order[..|order| - 1], order[|order| - 1];
      LoadedFromRedis(m, r, now, init, d);
      var es := SC.LoadAll(r, now, init);
      var e := SC.Recall(r, now, x);
      if e.Some? {
        FillMore(m, es, x, e.value);
      }
    }
  }

  /** The persistent tier still holds the domain's entry, not expired. */
  predicate Live(r: SC.Redis, now: int, d: string) {
    d in r && now < r[d].deadline && now <= r[d].record.expiresAt
  }

  /** Memory holds exactly the live ones of these domains, as they were stored. */
  ghost predicate HoldsLive(m: Lru<SC.Entry>, r: SC.Redis, now: int, order: seq<string>) {
    && m.Valid() && |m.keys| <= |order|
    && (forall d :: d in m.vals <==> d in order && Live(r, now, d))
    && (forall d :: d in m.vals ==> m.vals[d] == SC.FromRecord(r[d].record))
  }

  lemma HoldsOneMore(m: Lru<SC.Entry>, r: SC.Redis, now: int, init: seq<string>, d: string)
    requires HoldsLive(m, r, now, init) && d !in init && |init| < m.cap && Live(r, now, d)
    ensures HoldsLive(m.Add(d, SC.FromRecord(r[d].record)), r, now, init + [d])
  {
    var e := SC.FromRecord(r[d].record);
    m.AddStays(d, e);
    m.AddLaw(d, e);
    hide Touch, Distinct, SC.FromRecord, Live;
  }

  /** What one more key of the scan adds to memory. */
  lemma LoadNext(m: Lru<SC.Entry>, r: SC.Redis, now: int, init: seq<string>, d: string)
    ensures SC.Fill(m, SC.LoadAll(r, now, init + [d]))
            == var f := SC.Fill(m, SC.LoadAll(r, now, init));
               if Live(r, now, d) then f.Add(d, SC.FromRecord(r[d].record)) else f
  {
    assert (init + [d])[..|init|] == init;
    if Live(r, now, d) {
      FillMore(m, SC.LoadAll(r, now, init), d, SC.FromRecord(r[d].record));
    }
    hide Touch;
  }

  lemma {:induction false} FillHolds(cap: nat, r: SC.Redis, now: int, order: seq<string>)
    requires Distinct(order) && |order| <= cap && cap > 0
    ensures var m := SC.Fill(Lru([], map[], cap), SC.LoadAll(r, now, order));
            HoldsLive(m, r, now, order) && m.cap == cap
  {
    if order != [] {
      var init, d := order[..|order| - 1], order[|order| - 1];
      assert order == init + [d];
      FillHolds(cap, r, now, init);
      LoadNext(Lru([], map[], cap), r, now, init, d);
      var m := SC.Fill(Lru([], map[], cap), SC.LoadAll(r, now, init));
      hide SC.Fill, SC.LoadAll, Live;
      if Live(r, now, d) {
        HoldsOneMore(m, r, now, init, d);
      }
    }
  }

  /** After a restart whose scan comes to every key once and that memory has room for,
      memory holds exactly what the persistent tier holds unexpired. */
  lemma {:induction false} RestartReloads(s: Sys, c: SC.Config, order: seq<string>)
    requires c.hasRedis && s.t.mem.cap > 0 && Distinct(order) && |order| <= s.t.mem.cap
    requires forall d :: d in order <==> d in s.t.redis
    ensures var t := Next(s, c, Restart(order)).t;
            && t.redis == s.t.redis && t.pending == {}
            && (forall d :: d in t.mem.vals <==> Live(s.t.redis, s.now, d))
            && (forall d :: d in t.mem.vals ==> t.mem.vals[d] == SC.FromRecord(s.t.redis[d].record))
  {
    FillHolds(s.t.mem.cap, s.t.redis, s.now, order);
  }

  /** The first request for a domain is answered as if there were no cache; one for an IP
      address is refused without a trace. */
  lemma FirstRequestIsUncached(t: SC.Tiers, c: SC.Config, d: string, isIP: bool, now: int, later: int, o: Outcome)
    requires Absent(t, d)
    ensures CheckAccess(t, c, d, isIP, now, later, o).1 == Uncached(c.hasApi, isIP, o)
    ensures isIP ==> var (t', a) := CheckAccess(t, c, d, true, now, later, o);
                     t' == t && a.Deny? && a.err.class_.NotFound?
  {
    GetElsewhere(t, c, now, d, d);
    KeepAliveElsewhere(t, c, later, d, d);
  }

  lemma StaysAbsent(s: Sys, c: SC.Config, st: Step, d: string)
    requires Absent(s.t, d) && !Stores(st, d)
    ensures Absent(Next(s, c, st).t, d)
  {
    if st.Restart? {
      LoadedFromRedis(Lru([], map[], s.t.mem.cap), s.t.redis, s.now, st.order, d);
    } else if !st.Elapse? {
      if st.d != d {
        StepElsewhere(s, c, st, d);
      } else if st.Asked? {
        GetElsewhere(s.t, c, s.now, d, d);
      } else if st.Answered? {
        KeepAliveElsewhere(s.t, c, s.now, d, d);
      }
    }
  }

  /** After an invalidation neither Get nor KeepAlive finds anything for the domain,
      through any run, until something is stored for it again, however the tiers
      disagreed before and however short lives are. */
  lemma {:induction false} NothingAfterInvalidate(s: Sys, c: SC.Config, trace: seq<Step>, d: string)
    requires !c.hasRedis ==> d !in s.t.redis
    requires forall k :: 0 <= k < |trace| ==> !Stores(trace[k], d)
    ensures var u := Exec(Next(s, c, Dropped(d)), c, trace);
            && Absent(u.t, d)
            && SC.Get(u.t, c, u.now, d).1 == SC.Miss
            && SC.KeepAlive(u.t, c, u.now, d).1 == None
  {
    if trace != [] {
      NothingAfterInvalidate(s, c, trace[..|trace| - 1], d);
      StaysAbsent(Exec(Next(s, c, Dropped(d)), c, trace[..|trace| - 1]), c, trace[|trace| - 1], d);
    }
  }

  // ---------------------------------------------------- degraded serving

  /** Memory holds this active response for the domain, and no error. */
  ghost predicate Holds(t: SC.Tiers, d: string, site: Website) {
    && d in t.mem.vals
    && t.mem.vals[d].response == Some(site) && t.mem.vals[d].err == None
    && site.status == "active"
  }

  /** The portal cannot be reached for the domain, and nothing invalidates it. */
  predicate Unreachable(st: Step, d: string) {
    && (st.Answered? && st.d == d ==>
          st.o.Failed? && (st.o.err.class_.Unreachable? || st.o.err.class_.Deadline? || st.o.err.class_.Restored?))
    && (st.Refreshed? && st.d == d ==> st.site.None?)
    && (st.Dropped? ==> st.d != d)
    && !st.Restart?
  }

  /** No eviction of `d` along the run. */
  ghost predicate Kept(s: Sys, c: SC.Config, trace: seq<Step>, d: string) {
    forall k :: 0 <= k <= |trace| ==> d in Exec(s, c, trace[..k]).t.mem.vals
  }

  /** The entry has not run out, or only since no more than the stale window. */
  predicate InWindow(c: SC.Config, e: SC.Entry, now: int) {
    now <= e.expiresAt || now <= e.expiresAt + c.staleTTL
  }

  /** Each answer a step gives for the domain is that response: from memory within the
      stale window, and past it in place of the portal's, which is asked; without a
      portal there is none to stand in for, and the answer is empty. */
  ghost predicate Serves(s: Sys, c: SC.Config, st: Step, d: string, site: Website) {
    && (st.Asked? && st.d == d ==>
          && d in s.t.mem.vals
          && Ask(s.t, c, s.now, d, false).1
             == (if InWindow(c, s.t.mem.vals[d], s.now) then Serve(Some(site))
                 else if c.hasApi then AskPortal else Serve(None)))
    && (st.Answered? && st.d == d ==> Answer(s.t, c, s.now, d, st.o).1 == Serve(Some(site)))
  }

  lemma HoldsOn(s: Sys, c: SC.Config, st: Step, d: string, site: Website)
    requires Holds(s.t, d, site) && Unreachable(st, d) && d in Next(s, c, st).t.mem.vals
    ensures Holds(Next(s, c, st).t, d, site) && Serves(s, c, st, d, site)
  {
    if !st.Elapse? {
      if st.d != d {
        StepElsewhere(s, c, st, d);
      } else if st.Asked? {
        GetElsewhere(s.t, c, s.now, d, d);
      } else if st.Answered? {
        KeepAliveElsewhere(s.t, c, s.now, d, d);
      }
    }
  }

  /** Degraded serving over whole runs: while the portal is unreachable for a domain
      whose last known response is active, every request is answered with that same
      response, for any timing and any other traffic, and the entry never becomes
      an error. */
  lemma {:induction false} KeepsServing(s: Sys, c: SC.Config, trace: seq<Step>, d: string, site: Website)
    requires Holds(s.t, d, site) && Kept(s, c, trace, d)
    requires forall k :: 0 <= k < |trace| ==> Unreachable(trace[k], d)
    ensures Holds(Exec(s, c, trace).t, d, site)
    ensures forall k :: 0 <= k < |trace| ==> Serves(Exec(s, c, trace[..k]), c, trace[k], d, site)
  {
    if trace != [] {
      var init := trace[..|trace| - 1];
      forall k | 0 <= k <= |init|
        ensures init[..k] == trace[..k]
      {
      }
      KeepsServing(s, c, init, d, site);
      assert trace[..|trace|] == trace;
      HoldsOn(Exec(s, c, init), c, trace[|trace| - 1], d, site);
    }
  }

  /** One whole request during an outage: it is answered with the last known
      response, which is still there, unexpired or not, for the next one. */
  lemma RequestDuringOutage(t: SC.Tiers, c: SC.Config, d: string, now: int, later: int, o: Outcome, site: Website)
    requires Holds(t, d, site) && c.hasApi && Unreachable(Answered(d, o), d)
    ensures var (t', a) := CheckAccess(t, c, d, false, now, later, o);
            a == Serve(Some(site)) && Holds(t', d, site)
  {
    GetElsewhere(t, c, now, d, d);
    var t1 := Ask(t, c, now, d, false).0;
    assert Holds(t1, d, site);
    KeepAliveElsewhere(t1, c, later, d, d);
  }
}

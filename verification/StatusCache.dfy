/** The site status cache: a bounded in-memory tier over a persistent one with
    expiring keys, serving stale entries while they are revalidated. Every call is
    taken to happen at one instant, `now`. */
module StatusCache {
  import opened Options
  import opened Recency
  import opened SiteState

  /** What a portal error is recognized as. One read back from the persistent tier
      is only its text. */
  datatype Class = NotFound | Gone | Unauthorized | Canceled | Deadline | Unreachable | Restored

  datatype Error = Error(class_: Class, text: string)

  datatype Entry = Entry(response: Option<Website>, err: Option<Error>, cachedAt: int, expiresAt: int)

  // ------------------------------------------------- the persistent tier

  const SECOND := 1_000_000_000

  /** The stored form of an entry, and when its key expires. */
  datatype Record = Record(response: Option<Website>, errText: string, cachedAt: int, expiresAt: int)

  datatype Held = Held(record: Record, deadline: int)

  function ToRecord(e: Entry): Record {
    Record(e.response, if e.err.Some? then e.err.value.text else "", e.cachedAt, e.expiresAt)
  }

  function FromRecord(r: Record): Entry {
    Entry(r.response, if r.errText != "" then Some(Error(Restored, r.errText)) else None,
          r.cachedAt, r.expiresAt)
  }

  /** To the nearest whole second, halves away from zero. */
  function RoundToSecond(d: int): int {
    if d >= 0 then (d + SECOND / 2) / SECOND * SECOND else -((-d + SECOND / 2) / SECOND * SECOND)
  }

  type Redis = map<string, Held>

  /** An entry whose remaining life rounds to nothing is not written at all. */
  function Persist(r: Redis, now: int, d: string, e: Entry): Redis {
    var ttl := RoundToSecond(e.expiresAt - now);
    if ttl <= 0 then r else r[d := Held(ToRecord(e), now + ttl)]
  }

  function Recall(r: Redis, now: int, d: string): Option<Entry> {
    if d in r && now < r[d].deadline then Some(FromRecord(r[d].record)) else None
  }

  // ------------------------------------------------------- both tiers

  datatype Config = Config(ttl: int, shortTTL: int, staleTTL: int, hasRedis: bool, hasApi: bool)

  /** `pending` holds the domains with a revalidation in flight. */
  datatype Tiers = Tiers(mem: Lru<Entry>, redis: Redis, pending: set<string>)

  datatype Lookup = Miss | Hit(entry: Entry, expired: bool)

  function Store(t: Tiers, c: Config, now: int, d: string, e: Entry): Tiers {
    t.(mem := t.mem.Add(d, e), redis := if c.hasRedis then Persist(t.redis, now, d, e) else t.redis)
  }

  function Life(c: Config, short: bool): int { if short then c.shortTTL else c.ttl }

  function SetResponse(t: Tiers, c: Config, now: int, d: string, site: Option<Website>, short: bool): Tiers {
    Store(t, c, now, d, Entry(site, None, now, now + Life(c, short)))
  }

  function SetError(t: Tiers, c: Config, now: int, d: string, err: Error, short: bool): Tiers {
    Store(t, c, now, d, Entry(None, Some(err), now, now + Life(c, short)))
  }

  function SetFromAPI(t: Tiers, c: Config, now: int, d: string, site: Option<Website>): Tiers {
    SetResponse(t, c, now, d, site, site.Some? && Classify(site).NeedsShortTTL())
  }

  function Invalidate(t: Tiers, c: Config, d: string): Tiers {
    t.(mem := t.mem.Remove(d), redis := if c.hasRedis then t.redis - {d} else t.redis)
  }

  function Revalidate(t: Tiers, c: Config, d: string): Tiers {
    if c.hasApi then t.(pending := t.pending + {d}) else t
  }

  /** The end of a revalidation: only a success is stored. */
  function Revalidated(t: Tiers, c: Config, now: int, d: string, site: Option<Option<Website>>): Tiers {
    var t' := if site.Some? then SetFromAPI(t, c, now, d, site.value) else t;
    t'.(pending := t'.pending - {d})
  }

  /** A persisted entry that has not expired moves into memory. */
  function FromRedis(t: Tiers, c: Config, now: int, d: string): (Tiers, Option<Entry>) {
    var e := if c.hasRedis then Recall(t.redis, now, d) else None;
    if e.Some? && now <= e.value.expiresAt then (t.(mem := t.mem.Add(d, e.value)), e) else (t, None)
  }

  function Get(t: Tiers, c: Config, now: int, d: string): (Tiers, Lookup) {
    if d in t.mem.vals then
      var e, t' := t.mem.vals[d], t.(mem := t.mem.Promote(d));
      if now > e.expiresAt + c.staleTTL && now > e.expiresAt then (t', Miss)
      else if now > e.expiresAt then (Revalidate(t', c, d), Hit(e, true))
      else (t', Hit(e, false))
    else
      var (t', e) := FromRedis(t, c, now, d);
      if e.Some? then (t', Hit(e.value, false)) else (t', Miss)
  }

  /** The last known entry, however old, from memory first. */
  function Last(t: Tiers, c: Config, now: int, d: string): (Tiers, Option<Entry>) {
    if d in t.mem.vals then (t.(mem := t.mem.Promote(d)), Some(t.mem.vals[d])) else FromRedis(t, c, now, d)
  }

  function Rearm(t: Tiers, c: Config, now: int, d: string, e: Entry): Tiers {
    Revalidate(Store(t, c, now, d, e), c, d)
  }

  /** Re-arms the last known entry for another short life. */
  function KeepAlive(t: Tiers, c: Config, now: int, d: string): (Tiers, Option<Entry>) {
    var (t', e) := Last(t, c, now, d);
    if e.None? then (t', None)
    else
      var rearmed := e.value.(expiresAt := now + c.shortTTL);
      (Rearm(t', c, now, d, rearmed), Some(rearmed))
  }

  /** What a scan of the persistent tier finds, in scan order: keys that are gone or
      entries past their expiry are skipped. */
  function LoadAll(r: Redis, now: int, order: seq<string>): seq<(string, Entry)> {
    if order == [] then []
    else
      var rest, d := LoadAll(r, now, order[..|order| - 1]), order[|order| - 1];
      var e := Recall(r, now, d);
      if e.Some? && now <= e.value.expiresAt then rest + [(d, e.value)] else rest
  }

  function Fill(m: Lru<Entry>, es: seq<(string, Entry)>): Lru<Entry> {
    if es == [] then m else Fill(m, es[..|es| - 1]).Add(es[|es| - 1].0, es[|es| - 1].1)
  }

  // ------------------------------------------------ the cache as an object

  class Cache {
    var mem: Lru<Entry>
    var redis: Redis
    var pending: set<string>
    const config: Config

    function View(): Tiers
      reads this
    {
      Tiers(mem, redis, pending)
    }

    /** A restart: memory is filled from what the scan of the persistent tier finds. */
    constructor (size: nat, config: Config, redis: Redis, now: int, order: seq<string>)
      requires size > 0
      ensures this.config == config
      ensures View() == Tiers(Fill(Lru([], map[], size), if config.hasRedis then LoadAll(redis, now, order) else []),
                              redis, {})
    {
      var m := Lru([], map[], size);
      if config.hasRedis {
        for i := 0 to |order|
          invariant m == Fill(Lru([], map[], size), LoadAll(redis, now, order[..i]))
        {
          assert order[..i + 1][..i] == order[..i];
          var e := Recall(redis, now, order[i]);
          if e.Some? && !(now > e.value.expiresAt) {
            var es := LoadAll(redis, now, order[..i]) + [(order[i], e.value)];
            assert es[..|es| - 1] == LoadAll(redis, now, order[..i]);
            m := m.Add(order[i], e.value);
          }
        }
        assert order[..|order|] == order;
      }
      this.mem, this.config, this.redis, pending := m, config, redis, {};
    }

    method StoreEntry(now: int, d: string, e: Entry)
      modifies this`mem, this`redis
      ensures View() == Store(old(View()), config, now, d, e)
    {
      mem := mem.Add(d, e);
      if config.hasRedis {
        var ttl := RoundToSecond(e.expiresAt - now);
        if ttl > 0 { redis := redis[d := Held(ToRecord(e), now + ttl)]; }
      }
    }

    method StoreFromAPI(now: int, d: string, site: Option<Website>)
      modifies this`mem, this`redis
      ensures View() == SetFromAPI(old(View()), config, now, d, site)
    {
      if site.Some? && Classify(site).NeedsShortTTL() {
        StoreEntry(now, d, Entry(site, None, now, now + config.shortTTL));
      } else {
        StoreEntry(now, d, Entry(site, None, now, now + config.ttl));
      }
    }

    method StoreError(now: int, d: string, err: Error, short: bool)
      modifies this`mem, this`redis
      ensures View() == SetError(old(View()), config, now, d, err, short)
    {
      StoreEntry(now, d, Entry(None, Some(err), now, now + Life(config, short)));
    }

    method Drop(d: string)
      modifies this`mem, this`redis
      ensures View() == Invalidate(old(View()), config, d)
    {
      mem := mem.Remove(d);
      if config.hasRedis { redis := redis - {d}; }
    }

    /** Starts a revalidation unless one is in flight already. */
    method StartRevalidation(d: string) returns (submitted: bool)
      modifies this`pending
      ensures View() == Revalidate(old(View()), config, d)
      ensures submitted <==> config.hasApi && d !in old(pending)
    {
      if !config.hasApi || d in pending { return false; }
      pending := pending + {d};
      return true;
    }

    method FinishRevalidation(now: int, d: string, site: Option<Option<Website>>)
      modifies this
      ensures View() == Revalidated(old(View()), config, now, d, site)
    {
      if site.Some? { StoreFromAPI(now, d, site.value); }
      pending := pending - {d};
    }

    method Promote(now: int, d: string) returns (e: Option<Entry>)
      modifies this`mem
      ensures (View(), e) == FromRedis(old(View()), config, now, d)
    {
      if !config.hasRedis { return None; }
      e := Recall(redis, now, d);
      if e.None? || now > e.value.expiresAt { return None; }
      mem := mem.Add(d, e.value);
    }

    method LookUp(now: int, d: string) returns (r: Lookup)
      modifies this
      ensures (View(), r) == Get(old(View()), config, now, d)
    {
      if d !in mem.vals {
        var e := Promote(now, d);
        if e.Some? { return Hit(e.value, false); }
        return Miss;
      }
      var e := mem.vals[d];
      mem := mem.Promote(d);
      if now > e.expiresAt {
        if now > e.expiresAt + config.staleTTL { return Miss; }
        var _ := StartRevalidation(d);
        return Hit(e, true);
      }
      return Hit(e, false);
    }

    method KeepServing(now: int, d: string) returns (r: Option<Entry>)
      modifies this
      ensures (View(), r) == KeepAlive(old(View()), config, now, d)
    {
      var e: Option<Entry>;
      if d in mem.vals {
        e := Some(mem.vals[d]);
        mem := mem.Promote(d);
      } else {
        e := Promote(now, d);
      }
      if e.None? { return None; }
      var rearmed := Entry(e.value.response, e.value.err, e.value.cachedAt, now + config.shortTTL);
      StoreEntry(now, d, rearmed);
      var _ := StartRevalidation(d);
      return Some(rearmed);
    }
  }
}

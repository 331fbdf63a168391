/** The stale-while-revalidate name system: resolved names in a bounded list that is
    mirrored to a persistent store, and one pubsub watcher per cached name. Each
    mutex-protected section, each store of a result with the start of its watcher, and
    the whole loop that starts watchers for all cached names, is one step at one
    instant. */
module NameCache {
  import opened Options
  import opened Recency
  import opened IpfsPath

  datatype Stale = Stale(result: Result, cachedAt: int)

  /** The stored form of an entry. */
  datatype Record = Record(path: string, ttl: int, lastMod: int, cachedAt: int)

  function ToRecord(e: Stale): Record {
    Record(Show(e.result.path), e.result.ttl, e.result.lastMod, e.cachedAt)
  }

  function FromRecord(r: Record): Option<Stale> {
    match NewPath(r.path)
    case None => None
    case Some(p) => Some(Stale(Result(p, r.ttl, r.lastMod), r.cachedAt))
  }

  type Redis = map<string, Record>

  datatype Config = Config(freshTTL: int, hasRedis: bool, watch: bool)

  /** `watchers` is the registry of watcher ids by key; `loops` the watch loops that
      are running, by id, with the key each one watches; `stopped` the ids of
      watchers that have been cancelled. */
  datatype Names = Names(
    stale: Lru<Stale>, redis: Redis, pending: set<string>,
    watchers: map<string, nat>, loops: map<nat, string>, stopped: set<nat>, nextId: nat,
    prewarmed: seq<(string, Path)>)

  // ---------------------------------------------------- what calls leave

  /** The eviction callback: the key leaves the persistent store and its watcher,
      if any, is deregistered and cancelled. */
  function OnEvict(n: Names, c: Config, key: string): Names {
    n.(redis := if c.hasRedis then n.redis - {key} else n.redis,
       watchers := n.watchers - {key},
       stopped := if key in n.watchers then n.stopped + {n.watchers[key]} else n.stopped)
  }

  function PutStale(n: Names, c: Config, key: string, e: Stale): Names {
    var v := n.stale.Victim(key);
    var n' := if v.Some? then OnEvict(n, c, v.value) else n;
    n'.(stale := n.stale.Add(key, e),
        redis := if c.hasRedis then n'.redis[key := ToRecord(e)] else n'.redis)
  }

  function DeleteStale(n: Names, c: Config, key: string): Names {
    if key in n.stale.vals then OnEvict(n, c, key).(stale := n.stale.Remove(key)) else n
  }

  function StartWatcher(n: Names, c: Config, key: string): Names {
    if !c.watch || key in n.watchers || NewPath(key).None? then n
    else n.(watchers := n.watchers[key := n.nextId], loops := n.loops[n.nextId := key], nextId := n.nextId + 1)
  }

  /** A result obtained for `p` is cached under its name, watched and prewarmed. */
  function Learn(n: Names, c: Config, now: int, p: Path, r: Result): Names {
    var n' := StartWatcher(PutStale(n, c, Key(p), Stale(Strip(r), now)), c, Key(p));
    n'.(prewarmed := n'.prewarmed + [(Key(p), Strip(r).path)])
  }

  datatype Lookup = Miss | Fresh(result: Result) | Old(result: Result)

  /** The lookup half of Resolve: an old entry is served while it is revalidated. */
  function LookUp(n: Names, c: Config, now: int, p: Path): (Names, Lookup) {
    var key := Key(p);
    if key !in n.stale.vals then (n, Miss)
    else
      var e, n' := n.stale.vals[key], n.(stale := n.stale.Promote(key));
      if now - e.cachedAt < c.freshTTL then (n', Fresh(WithSub(e.result, p)))
      else (n'.(pending := n'.pending + {key}), Old(WithSub(e.result, p)))
  }

  function FinishRevalidation(n: Names, c: Config, now: int, p: Path, r: Option<Result>): Names {
    var n' := if r.Some? then Learn(n, c, now, p, r.value) else n;
    n'.(pending := n'.pending - {Key(p)})
  }

  /** A result reaches a watch loop: an unchanged path is dropped. */
  function WatchResult(n: Names, c: Config, now: int, id: nat, r: Result): Names {
    if id !in n.loops then n
    else
      var key, fresh_ := n.loops[id], Strip(r);
      if key in n.stale.vals && Show(n.stale.vals[key].result.path) == Show(fresh_.path) then
        n.(stale := n.stale.Promote(key))
      else
        var n' := PutStale(if key in n.stale.vals then n.(stale := n.stale.Promote(key)) else n, c, key,
                           Stale(fresh_, now));
        n'.(prewarmed := n'.prewarmed + [(key, fresh_.path)])
  }

  /** A watch loop ends; it deregisters itself, but not a successor. */
  function WatchExit(n: Names, id: nat): Names {
    if id !in n.loops then n
    else
      var key := n.loops[id];
      n.(loops := n.loops - {id},
         watchers := if key in n.watchers && n.watchers[key] == id then n.watchers - {key} else n.watchers)
  }

  /** Watchers for all cached names, oldest first. */
  function Warm(n: Names, c: Config, keys: seq<string>): Names {
    if keys == [] then n else StartWatcher(Warm(n, c, keys[..|keys| - 1]), c, keys[|keys| - 1])
  }

  /** The list as loaded from the persistent store in some order; a record that does
      not parse is skipped, and what falls out of the list is not reported to
      anyone, for the eviction callback is not set yet. */
  function Load(m: Lru<Stale>, r: Redis, order: seq<string>): Lru<Stale> {
    if order == [] then m
    else
      var m', key := Load(m, r, order[..|order| - 1]), order[|order| - 1];
      if key !in r then m'
      else match FromRecord(r[key])
           case None => m'
           case Some(e) => m'.Add(key, e)
  }

  function Capacity(size: int): nat { if size <= 0 then 128 else size }

  function Open(r: Redis, c: Config, size: int, order: seq<string>): Names {
    var empty := Lru([], map[], Capacity(size));
    Names(if c.hasRedis then Load(empty, r, order) else empty, r, {}, map[], map[], {}, 0, [])
  }

  // ---------------------------------------------- the objects themselves

  class Store {
    var stale: Lru<Stale>
    var redis: Redis
    const hasRedis: bool

    constructor (size: int, hasRedis: bool, redis: Redis, order: seq<string>)
      ensures this.hasRedis == hasRedis && this.redis == redis
      ensures var empty := Lru([], map[], Capacity(size));
              stale == if hasRedis then Load(empty, redis, order) else empty
    {
      var m := Lru([], map[], Capacity(size));
      if hasRedis {
        for i := 0 to |order|
          invariant m == Load(Lru([], map[], Capacity(size)), redis, order[..i])
        {
          assert order[..i + 1][..i] == order[..i];
          if order[i] in redis {
            var e := FromRecord(redis[order[i]]);
            if e.Some? { m := m.Add(order[i], e.value); }
          }
        }
        assert order[..|order|] == order;
      }
      this.stale, this.hasRedis, this.redis := m, hasRedis, redis;
    }

    method GetEntry(key: string) returns (e: Option<Stale>)
      modifies this`stale
      ensures stale == old(stale).Promote(key)
      ensures e == if key in old(stale).vals then Some(old(stale).vals[key]) else None
    {
      e := if key in stale.vals then Some(stale.vals[key]) else None;
      stale := stale.Promote(key);
    }
  }

  class NameSystem {
    const store: Store
    const freshTTL: int
    var watch: bool
    var pending: set<string>
    var watchers: map<string, nat>
    var loops: map<nat, string>
    var stopped: set<nat>
    var nextId: nat
    var prewarmed: seq<(string, Path)>

    function View(): Names
      reads this, store
    {
      Names(store.stale, store.redis, pending, watchers, loops, stopped, nextId, prewarmed)
    }

    function Settings(): Config
      reads this, store
    {
      Config(freshTTL, store.hasRedis, watch)
    }

    constructor (store: Store, freshTTL: int)
      ensures this.store == store && this.freshTTL == freshTTL && !watch
      ensures View() == Names(store.stale, store.redis, {}, map[], map[], {}, 0, [])
    {
      this.store, this.freshTTL, watch := store, freshTTL, false;
      pending, watchers, loops, stopped, nextId, prewarmed := {}, map[], map[], {}, 0, [];
    }

    method Evicted(key: string)
      modifies this`watchers, this`stopped, store`redis
      ensures View() == OnEvict(old(View()), Settings(), key)
    {
      if store.hasRedis { store.redis := store.redis - {key}; }
      if key in watchers {
        stopped := stopped + {watchers[key]};
        watchers := watchers - {key};
      }
    }

    method Put(key: string, e: Stale)
      modifies this`watchers, this`stopped, store
      ensures View() == PutStale(old(View()), Settings(), key, e)
    {
      var victim := store.stale.Victim(key);
      store.stale := store.stale.Add(key, e);
      if victim.Some? { Evicted(victim.value); }
      if store.hasRedis { store.redis := store.redis[key := ToRecord(e)]; }
    }

    method Delete(key: string)
      modifies this`watchers, this`stopped, store
      ensures View() == DeleteStale(old(View()), Settings(), key)
    {
      if key !in store.stale.vals { return; }
      store.stale := store.stale.Remove(key);
      Evicted(key);
      if store.hasRedis { store.redis := store.redis - {key}; }
    }

    method Start(key: string)
      modifies this`watchers, this`loops, this`nextId
      ensures View() == StartWatcher(old(View()), Settings(), key)
    {
      if !watch || key in watchers { return; }
      if NewPath(key).None? { return; }
      watchers := watchers[key := nextId];
      loops := loops[nextId := key];
      nextId := nextId + 1;
    }

    method EnableWatch()
      modifies this`watch
      ensures Settings() == old(Settings()).(watch := true) && View() == old(View())
    {
      watch := true;
    }

    method WarmSubscriptions()
      modifies this`watchers, this`loops, this`nextId
      ensures View() == if watch then Warm(old(View()), Settings(), store.stale.keys) else old(View())
    {
      if !watch { return; }
      var keys := store.stale.keys;
      for i := 0 to |keys|
        invariant View() == Warm(old(View()), Settings(), keys[..i])
      {
        Start(keys[i]);
        assert keys[..i + 1][..i] == keys[..i];
      }
      assert keys[..|keys|] == keys;
    }

    method Remember(now: int, p: Path, r: Result)
      modifies this`watchers, this`stopped, this`loops, this`nextId, this`prewarmed, store
      ensures View() == Learn(old(View()), Settings(), now, p, r)
    {
      Put(Key(p), Stale(Strip(r), now));
      Start(Key(p));
      prewarmed := prewarmed + [(Key(p), Strip(r).path)];
    }

    /** Resolves a path: from the cache if its name is there, else by the inner name
        system, whose answer (none on an error or a timeout) arrives `later`. */
    method Resolve(p: Path, now: int, later: int, answer: Option<Result>) returns (r: Option<Result>)
      modifies this, store
      ensures var (n, l) := LookUp(old(View()), Settings(), now, p);
              if l.Miss?
              then View() == (if answer.Some? then Learn(n, Settings(), later, p, answer.value) else n)
                   && r == answer
              else View() == n && r == Some(l.result)
      ensures watch == old(watch)
    {
      var e := store.GetEntry(Key(p));
      if e.Some? {
        if now - e.value.cachedAt < freshTTL { return Some(WithSub(e.value.result, p)); }
        pending := pending + {Key(p)};
        return Some(WithSub(e.value.result, p));
      }
      if answer.Some? { Remember(later, p, answer.value); }
      return answer;
    }

    method Revalidated(now: int, p: Path, r: Option<Result>)
      modifies this, store
      ensures View() == FinishRevalidation(old(View()), Settings(), now, p, r)
      ensures watch == old(watch)
    {
      if r.Some? { Remember(now, p, r.value); }
      pending := pending - {Key(p)};
    }

    method Watched(now: int, id: nat, r: Result)
      modifies this`watchers, this`stopped, this`prewarmed, store
      ensures View() == WatchResult(old(View()), Settings(), now, id, r)
    {
      if id !in loops { return; }
      var key := loops[id];
      var e := store.GetEntry(key);
      if e.Some? && Show(e.value.result.path) == Show(Strip(r).path) { return; }
      Put(key, Stale(Strip(r), now));
      prewarmed := prewarmed + [(key, Strip(r).path)];
    }

    method Retire(id: nat)
      modifies this`watchers, this`loops
      ensures View() == WatchExit(old(View()), id)
    {
      if id !in loops { return; }
      var key := loops[id];
      if key in watchers && watchers[key] == id { watchers := watchers - {key}; }
      loops := loops - {id};
    }
  }
}

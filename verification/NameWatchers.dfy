/** The pubsub watchers of the name system over whole runs: who is registered, who
    is running, and who has been told to stop. */
module NameWatchers {
  import opened Options
  import opened Recency
  import opened IpfsPath
  import opened NameCache
  import opened NameRuns

  /** A registered watcher's name is cached and its loop runs, not told to stop; and
      a running loop that is not registered has been told to stop. */
  ghost predicate RegistryOk(n: Names) {
    && n.stale.Valid()
    && (forall key :: key in n.watchers ==>
          && key in n.stale.vals && n.watchers[key] !in n.stopped
          && n.watchers[key] in n.loops && n.loops[n.watchers[key]] == key)
    && (forall id :: id in n.loops ==>
          id < n.nextId && (id !in n.stopped ==> n.loops[id] in n.watchers && n.watchers[n.loops[id]] == id))
    && (forall id :: id in n.stopped ==> id < n.nextId)
  }

  /** Caching a result cancels exactly the watcher of the name it pushes out. */
  lemma EvictionCancelsExactly(n: Names, c: Config, key: string, e: Stale)
    requires RegistryOk(n)
    ensures var n' := PutStale(n, c, key, e);
            var v := n.stale.Victim(key);
            && RegistryOk(n') && key in n'.stale.vals && n'.loops == n.loops
            && n'.watchers == (if v.Some? then n.watchers - {v.value} else n.watchers)
            && n'.stopped == (if v.Some? && v.value in n.watchers
                              then n.stopped + {n.watchers[v.value]} else n.stopped)
  {
    n.stale.AddStays(key, e);
  }

  lemma StartKeepsRegistry(n: Names, c: Config, key: string)
    requires RegistryOk(n) && key in n.stale.vals
    ensures RegistryOk(StartWatcher(n, c, key))
  {
  }

  lemma PromoteKeepsRegistry(n: Names, key: string)
    requires RegistryOk(n)
    ensures RegistryOk(n.(stale := n.stale.Promote(key)))
  {
    if key in n.stale.vals {
      n.stale.PromoteStays(key);
    }
  }

  lemma LearnKeepsRegistry(n: Names, c: Config, now: int, p: Path, r: Result)
    requires RegistryOk(n)
    ensures RegistryOk(Learn(n, c, now, p, r))
  {
    var e := Stale(Strip(r), now);
    EvictionCancelsExactly(n, c, Key(p), e);
    StartKeepsRegistry(PutStale(n, c, Key(p), e), c, Key(p));
  }

  /** A retiring loop deregisters itself and nobody else. */
  lemma RetiringSparesSuccessor(n: Names, id: nat)
    requires RegistryOk(n) && id in n.loops
    ensures var n' := WatchExit(n, id);
            && RegistryOk(n') && n'.loops == n.loops - {id}
            && (forall key :: key in n.watchers && n.watchers[key] != id ==>
                  key in n'.watchers && n'.watchers[key] == n.watchers[key])
            && (forall key :: key in n'.watchers ==> n'.watchers[key] != id)
  {
  }

  /** Cancelling the watcher of a name that leaves the cache. */
  lemma CancelKeepsRegistry(n: Names, c: Config, key: string, kept: Lru<Stale>)
    requires RegistryOk(n) && kept.Valid()
    requires forall x :: x in n.stale.vals && x != key ==> x in kept.vals
    ensures RegistryOk(OnEvict(n, c, key).(stale := kept))
  {
  }

  lemma DeleteKeepsRegistry(n: Names, c: Config, key: string)
    requires RegistryOk(n)
    ensures RegistryOk(DeleteStale(n, c, key))
  {
    if key in n.stale.vals {
      n.stale.RemoveStays(key);
      CancelKeepsRegistry(n, c, key, n.stale.Remove(key));
    }
  }

  lemma {:induction false} WarmKeepsRegistry(n: Names, c: Config, keys: seq<string>)
    requires RegistryOk(n) && forall key :: key in keys ==> key in n.stale.vals
    ensures RegistryOk(Warm(n, c, keys))
  {
    if keys != [] {
      var init, last := keys[..|keys| - 1], keys[|keys| - 1];
      WarmKeepsRegistry(n, c, init);
      WarmKeeps(n, c, init);
      assert last in keys;
      StartKeepsRegistry(Warm(n, c, init), c, last);
    }
  }

  lemma WatchKeepsRegistry(n: Names, c: Config, now: int, id: nat, r: Result)
    requires RegistryOk(n)
    ensures RegistryOk(WatchResult(n, c, now, id, r))
  {
    if id in n.loops {
      var key := n.loops[id];
      PromoteKeepsRegistry(n, key);
      var n0 := if key in n.stale.vals then n.(stale := n.stale.Promote(key)) else n;
      EvictionCancelsExactly(n0, c, key, Stale(Strip(r), now));
    }
  }

  lemma PendingKeepsRegistry(n: Names, pending: set<string>)
    requires RegistryOk(n)
    ensures RegistryOk(n.(pending := pending))
  {
  }

  lemma TakeKeepsRegistry(n: Names, c: Config, now: int, f: Flight)
    requires RegistryOk(n)
    ensures RegistryOk(Take(n, c, now, f))
  {
    hide RegistryOk, Learn, WatchResult;
    if |f.p.segments| >= 2 {
      match f.via {
        case Watch(id) => WatchKeepsRegistry(n, c, now, id, f.root);
        case _ =>
          LearnKeepsRegistry(n, c, now, f.p, Uncached(f.root, f.p));
          var n' := Learn(n, c, now, f.p, Uncached(f.root, f.p));
          PendingKeepsRegistry(n', n'.pending - {Key(f.p)});
      }
    }
  }

  lemma RegistryStep(s: Sys, c: Config, st: Step)
    requires RegistryOk(s.n)
    ensures RegistryOk(Next(s, c, st).n)
  {
    match st {
      case Asked(p) =>
        PromoteKeepsRegistry(s.n, Key(p));
      case Arrives(k) =>
        if k < |s.flights| {
          TakeKeepsRegistry(s.n, c, s.now, s.flights[k]);
        }
        hide Take;
      case Exits(id) =>
        if id in s.n.loops {
          RetiringSparesSuccessor(s.n, id);
        }
      case Deleted(key) => DeleteKeepsRegistry(s.n, c, key);
      case Warmed => WarmKeepsRegistry(s.n, c, s.n.stale.keys);
      case Restart(order) => LoadKeeps(Lru([], map[], s.n.stale.cap), s.n.redis, order);
      case _ =>
    }
  }

  // ------------------------------------------------ who comes to be watched

  /** The name has a registered watcher whose loop runs for it and has not been told to
      stop. */
  predicate Watching(n: Names, key: string) {
    && key in n.watchers && n.watchers[key] in n.loops
    && n.loops[n.watchers[key]] == key && n.watchers[key] !in n.stopped
  }

  /** The step takes an answer for the name that a request or a revalidation waits for. */
  predicate TakesAnswer(s: Sys, st: Step, key: string) {
    && st.Arrives? && st.k < |s.flights| && !s.flights[st.k].via.Watch?
    && |s.flights[st.k].p.segments| >= 2 && Key(s.flights[st.k].p) == key
  }

  /** Taking an answer caches it, prewarms it and leaves its name watched if watching is
      on, by the watcher that was there if there was one; with watching off the registry
      does not grow. */
  lemma TakingWatches(n: Names, c: Config, now: int, p: Path, r: Result)
    requires RegistryOk(n) && NewPath(Key(p)).Some?
    ensures var n', key := Learn(n, c, now, p, r), Key(p);
            && key in n'.stale.vals && n'.stale.vals[key] == Stale(Strip(r), now)
            && n'.prewarmed == n.prewarmed + [(key, Strip(r).path)]
            && (c.watch ==> Watching(n', key))
            && (key in n.watchers ==> Watching(n', key) && n'.watchers[key] == n.watchers[key])
            && (!c.watch ==> n'.watchers.Keys <= n.watchers.Keys && n'.loops == n.loops)
            && (forall x :: x in n'.watchers && x != key ==> x in n.watchers && n'.watchers[x] == n.watchers[x])
  {
    hide NewPath, Key, Strip;
    var e := Stale(Strip(r), now);
    EvictionCancelsExactly(n, c, Key(p), e);
    n.stale.AddStays(Key(p), e);
  }

  /** Starting a watcher registers that name alone, if it has none, watching is on and the
      key is a path. */
  lemma StartWatches(n: Names, c: Config, x: string, key: string)
    ensures var n' := StartWatcher(n, c, x);
            && n'.stale == n.stale
            && (key !in n.watchers ==> (key in n'.watchers <==> c.watch && NewPath(key).Some? && x == key))
            && (key in n.watchers ==> key in n'.watchers && n'.watchers[key] == n.watchers[key])
  {
    hide NewPath;
  }

  /** What taking a result does to the watcher of any one name. */
  lemma LearnWatches(n: Names, c: Config, now: int, p: Path, r: Result, key: string)
    requires RegistryOk(n)
    ensures var n' := Learn(n, c, now, p, r);
            && (key !in n.watchers ==> (key in n'.watchers <==> c.watch && NewPath(key).Some? && Key(p) == key))
            && (key in n.watchers && key in n'.watchers ==> n'.watchers[key] == n.watchers[key])
            && (key in n.watchers && key !in n'.watchers ==> key !in n'.stale.vals)
  {
    hide NewPath, Key, Strip;
    var e := Stale(Strip(r), now);
    var n1 := PutStale(n, c, Key(p), e);
    EvictionCancelsExactly(n, c, Key(p), e);
    n.stale.AddStays(Key(p), e);
    assert key in n.watchers && key !in n1.watchers ==> key !in n1.stale.vals && key != Key(p);
    StartWatches(n1, c, Key(p), key);
    hide RegistryOk, PutStale, StartWatcher, Touch;
  }

  /** Starting watchers for all names registers each that is a path, if watching is on, and
      no other. */
  lemma {:induction false} WarmRegisters(n: Names, c: Config, keys: seq<string>, key: string)
    ensures var n' := Warm(n, c, keys);
            && (key !in n.watchers ==> (key in n'.watchers <==> c.watch && NewPath(key).Some? && key in keys))
            && (key in n.watchers ==> key in n'.watchers && n'.watchers[key] == n.watchers[key])
  {
    hide NewPath, StartWatcher;
    if keys != [] {
      var init, last := keys[..|keys| - 1], keys[|keys| - 1];
      assert keys == init + [last];
      WarmRegisters(n, c, init, key);
      StartWatches(Warm(n, c, init), c, last, key);
    }
  }

  /** After watchers have been started for all names, with watching on, every cached name
      whose key is a path is watched. */
  lemma WarmWatches(s: Sys, c: Config)
    requires RegistryOk(s.n) && c.watch
    ensures var n := Next(s, c, Warmed).n;
            forall key :: key in n.stale.vals && NewPath(key).Some? ==> Watching(n, key)
  {
    var n := Next(s, c, Warmed).n;
    RegistryStep(s, c, Warmed);
    WarmKeeps(s.n, c, s.n.stale.keys);
    forall key | key in n.stale.vals && NewPath(key).Some?
      ensures Watching(n, key)
    {
      WarmRegisters(s.n, c, s.n.stale.keys, key);
    }
    hide Warm, NewPath;
  }

  /** What a watch result leaves of the watchers: all but the one of a name that it pushes
      out. */
  lemma ResultWatches(n: Names, c: Config, now: int, id: nat, r: Result)
    requires RegistryOk(n)
    ensures var n' := WatchResult(n, c, now, id, r);
            && n'.loops == n.loops && n'.watchers.Keys <= n.watchers.Keys
            && (forall x :: x in n'.watchers ==> n'.watchers[x] == n.watchers[x])
            && (forall x :: x in n.watchers && x !in n'.watchers ==> x !in n'.stale.vals)
  {
    hide Show, Strip;
    if id in n.loops {
      var key := n.loops[id];
      PromoteKeepsRegistry(n, key);
      var n0 := if key in n.stale.vals then n.(stale := n.stale.Promote(key)) else n;
      EvictionCancelsExactly(n0, c, key, Stale(Strip(r), now));
      n0.stale.AddStays(key, Stale(Strip(r), now));
    }
  }

  /** What taking an answer does to the watcher of one name. */
  lemma TakeWatches(n: Names, c: Config, now: int, f: Flight, key: string)
    requires RegistryOk(n)
    ensures var n' := Take(n, c, now, f);
            var takes := !f.via.Watch? && |f.p.segments| >= 2 && Key(f.p) == key;
            && (key !in n.watchers ==> (key in n'.watchers <==> c.watch && NewPath(key).Some? && takes))
            && (key in n.watchers && key in n'.watchers ==> n'.watchers[key] == n.watchers[key])
            && (key in n.watchers && key !in n'.watchers ==> key !in n'.stale.vals)
  {
    hide NewPath, Key, WatchResult, Learn, RegistryOk;
    if |f.p.segments| >= 2 {
      match f.via {
        case Watch(id) => ResultWatches(n, c, now, id, f.root);
        case _ => LearnWatches(n, c, now, f.p, Uncached(f.root, f.p), key);
      }
    }
  }

  /** When a name comes to be watched: exactly when watching is on and an answer for it is
      taken, or watchers are started for all cached names and it is one, provided that its
      key is a path. With watching off that is never. */
  lemma WatchBeginsIff(s: Sys, c: Config, st: Step, key: string)
    requires RegistryOk(s.n) && key !in s.n.watchers
    ensures Watching(Next(s, c, st).n, key) <==>
            && c.watch && NewPath(key).Some?
            && (TakesAnswer(s, st, key) || (st.Warmed? && key in s.n.stale.vals))
  {
    RegistryStep(s, c, st);
    assert Watching(Next(s, c, st).n, key) <==> key in Next(s, c, st).n.watchers;
    hide NewPath, Key;
    match st {
      case Arrives(k) =>
        if k < |s.flights| {
          TakeWatches(s.n, c, s.now, s.flights[k], key);
        }
        hide Take;
      case Warmed => WarmRegisters(s.n, c, s.n.stale.keys, key);
      case _ =>
    }
  }

  /** Whether the step leaves the name with its watcher, short of the invariant. */
  ghost predicate LeavesWatcher(n: Names, n': Names, key: string, ends: bool) {
    && (key in n'.watchers ==> key in n.watchers && n'.watchers[key] == n.watchers[key])
    && (key !in n'.watchers ==> ends || key !in n'.stale.vals)
    && (ends ==> key !in n'.watchers)
  }

  lemma ExitLeavesWatcher(n: Names, id: nat, key: string)
    requires RegistryOk(n) && key in n.watchers
    ensures LeavesWatcher(n, WatchExit(n, id), key, id == n.watchers[key])
  {
  }

  lemma DeletionLeavesWatcher(n: Names, c: Config, x: string, key: string)
    requires key in n.watchers
    ensures LeavesWatcher(n, DeleteStale(n, c, x), key, false)
  {
  }

  lemma StepLeavesWatcher(s: Sys, c: Config, st: Step, key: string)
    requires RegistryOk(s.n) && key in s.n.watchers
    ensures LeavesWatcher(s.n, Next(s, c, st).n, key, st == Exits(s.n.watchers[key]) || st.Restart?)
  {
    match st {
      case Arrives(k) =>
        if k < |s.flights| {
          TakeWatches(s.n, c, s.now, s.flights[k], key);
        }
        hide Take, RegistryOk;
      case Warmed =>
        WarmRegisters(s.n, c, s.n.stale.keys, key);
        hide Warm, RegistryOk, NewPath;
      case Exits(id) => ExitLeavesWatcher(s.n, id, key);
      case Deleted(x) => DeletionLeavesWatcher(s.n, c, x, key);
      case _ => hide RegistryOk, Load, NewPath, Key;
    }
  }

  /** When it stops being watched: exactly when its watch loop ends, it leaves the cache,
      or the gateway is restarted; until then the same watcher watches it. */
  lemma WatchEndsIff(s: Sys, c: Config, st: Step, key: string)
    requires RegistryOk(s.n) && key in s.n.watchers
    ensures var n := Next(s, c, st).n;
            && (!Watching(n, key) <==> st == Exits(s.n.watchers[key]) || st.Restart? || key !in n.stale.vals)
            && (Watching(n, key) ==> n.watchers[key] == s.n.watchers[key])
  {
    RegistryStep(s, c, st);
    StepLeavesWatcher(s, c, st, key);
    hide Next;
  }

  lemma {:induction false} SubsetSize(a: set<string>, b: set<string>)
    requires a <= b
    ensures |a| <= |b|
  {
    if a != {} {
      var x :| x in a;
      SubsetSize(a - {x}, b - {x});
    }
  }

  /** Over every run: a registered watcher's name is cached and its loop runs and has
      not been told to stop; every other running loop has been; and no more watchers
      are registered than the cache can hold names. */
  lemma {:induction false} RegistryBound(s: Sys, c: Config, trace: seq<Step>)
    requires RegistryOk(s.n)
    ensures var n := Exec(s, c, trace).n;
            RegistryOk(n) && |n.watchers| <= n.stale.cap
  {
    if trace != [] {
      RegistryBound(s, c, trace[..|trace| - 1]);
      RegistryStep(Exec(s, c, trace[..|trace| - 1]), c, trace[|trace| - 1]);
    }
    var n := Exec(s, c, trace).n;
    KeysCount(n.stale.keys);
    assert n.watchers.Keys <= set key | key in n.stale.keys;
    SubsetSize(n.watchers.Keys, set key | key in n.stale.keys);
  }

  /** Nothing along the run ends the watch by this watcher. */
  ghost predicate KeptWatched(s: Sys, c: Config, trace: seq<Step>, key: string, id: nat) {
    forall k :: 0 <= k < |trace| ==>
      trace[k] != Exits(id) && !trace[k].Restart? && key in Exec(s, c, trace[..k + 1]).n.stale.vals
  }

  /** A name that is watched, as every name is that has been learned while watching is on,
      stays watched by the same watcher over any run until its loop ends, the name leaves
      the cache, or the gateway is restarted. */
  lemma {:induction false} LearnedStaysWatched(s: Sys, c: Config, trace: seq<Step>, key: string)
    requires RegistryOk(s.n) && key in s.n.watchers && KeptWatched(s, c, trace, key, s.n.watchers[key])
    ensures var n := Exec(s, c, trace).n;
            Watching(n, key) && n.watchers[key] == s.n.watchers[key]
  {
    if trace != [] {
      var init := trace[..|trace| - 1];
      assert forall k :: 0 <= k < |init| ==> init[..k + 1] == trace[..k + 1] && init[k] == trace[k];
      LearnedStaysWatched(s, c, init, key);
      RegistryBound(s, c, init);
      assert trace[..|init| + 1] == trace;
      WatchEndsIff(Exec(s, c, init), c, trace[|init|], key);
    }
  }
}

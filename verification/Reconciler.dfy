/** The reconciler as an object: the connection-session flags changed under its
    mutex, the persisted cursor, and the journal-draining loop. */
module Reconciler {
  import opened Options
  import opened Journal
  import opened Replay

  // ------------------------------------------------------------ the cursor

  datatype Stored = Absent | Mark(mark: int) | Garbled

  /** The persisted high-water mark: a Redis key when there is a client, a field
      for the life of the process when there is none. */
  class CursorStore {
    const hasRedis: bool
    var mem: int
    var key: Stored

    constructor (hasRedis: bool, key: Stored)
      ensures this.hasRedis == hasRedis && this.key == key && mem == 0
    {
      this.hasRedis, this.key, mem := hasRedis, key, 0;
    }

    /** The mark a run starts from when reading it does not fail. */
    function Value(): int
      reads this
    {
      if !hasRedis then mem else if key.Mark? then key.mark else 0
    }

    /** A failed read answers zero, so it can only cause more replay. */
    method Get(reachable: bool) returns (mark: int, ok: bool)
      ensures mark == if ok then Value() else 0
      ensures ok <==> !hasRedis || (reachable && !key.Garbled?)
    {
      if !hasRedis { return mem, true; }
      if !reachable { return 0, false; }
      match key {
        case Absent => return 0, true;
        case Garbled => return 0, false;
        case Mark(m) => return m, true;
      }
    }

    method Set(mark: int, reachable: bool) returns (ok: bool)
      modifies this
      ensures ok <==> !hasRedis || reachable
      ensures Value() == if ok then mark else old(Value())
    {
      if !hasRedis {
        mem := mark;
        return true;
      }
      if reachable { key := Mark(mark); }
      return reachable;
    }
  }

  // -------------------------------------------------------- session flags

  datatype Flags = Flags(connected: bool, ready: bool, running: bool, pending: bool, generation: nat)

  /** A reported connection state, and the session to launch a run for, if any. */
  function Connect(f: Flags, up: bool): (Flags, Option<nat>) {
    if !up then (f.(connected := false, ready := false), None)
    else if f.connected then (f, None)
    else
      var g := f.(connected := true, ready := false, generation := f.generation + 1);
      if f.running then (g.(pending := true), None)
      else (g.(running := true), Some(g.generation))
  }

  /** The end of a run for `gen`, and the session to launch the next run for, if any. */
  function Finish(f: Flags, gen: nat, ok: bool): (Flags, Option<nat>) {
    var g := if ok && f.connected && f.generation == gen then f.(ready := true) else f;
    if g.pending then (g.(pending := false), Some(g.generation))
    else (g.(running := false), None)
  }

  /** What one turn of the page loop meets: an expired context, or the portal's
      answer (none when the request fails) and whether the cursor can be written. */
  datatype Turn = Turn(expired: bool, reply: Option<Page>, writable: bool)

  class SiteReconciler {
    var connected: bool
    var ready: bool
    var running: bool
    var pending: bool
    var generation: nat
    const maxPages: nat
    const cursor: CursorStore
    // The objects a run acts on, as far as it acts on them.
    var cache: map<string, Status>
    var prewarmed: seq<(string, string)>
    // The history a run is judged by.
    ghost var journal: seq<Event>
    ghost var head: int
    ghost var applied: map<Event, nat>

    ghost function Session(): Flags
      reads this
    {
      Flags(connected, ready, running, pending, generation)
    }

    ghost function Outside(): World
      reads this, cursor
    {
      World(journal, head, cursor.Value(), cache, prewarmed, applied)
    }

    constructor (cursor: CursorStore, maxPages: nat, cache: map<string, Status>,
                 ghost journal: seq<Event>, ghost head: int, ghost applied: map<Event, nat>)
      ensures this.cursor == cursor && this.maxPages == maxPages
      ensures Session() == Flags(false, false, false, false, 0)
      ensures Outside() == World(journal, head, cursor.Value(), cache, [], applied)
    {
      connected, ready, running, pending, generation := false, false, false, false, 0;
      this.cursor, this.maxPages, this.cache, prewarmed := cursor, maxPages, cache, [];
      this.journal, this.head, this.applied := journal, head, applied;
    }

    method OnConnect(up: bool) returns (launch: Option<nat>)
      modifies this`connected, this`ready, this`running, this`pending, this`generation
      ensures (Session(), launch) == Connect(old(Session()), up)
    {
      if !up {
        connected := false;
        ready := false;
        return None;
      }
      if connected { return None; }
      connected := true;
      ready := false;
      generation := generation + 1;
      if running {
        pending := true;
        return None;
      }
      running := true;
      return Some(generation);
    }

    /** The tail of a run, after its reconcile. */
    method Conclude(gen: nat, ok: bool) returns (launch: Option<nat>)
      modifies this`ready, this`running, this`pending
      ensures (Session(), launch) == Finish(old(Session()), gen, ok)
    {
      if ok && connected && generation == gen { ready := true; }
      if pending {
        pending := false;
        return Some(generation);
      }
      running := false;
      return None;
    }

    method Dispatch(e: Event, ghost now: nat)
      modifies this`cache, this`prewarmed, this`applied
      ensures Outside() == Apply(old(Outside()), now, e)
      ensures cache == if (e.kind.Published? || e.kind.Removed?) && e.domain != ""
                       then old(cache) - {e.domain} else old(cache)
      ensures prewarmed == old(prewarmed) + (if e.kind.Published? && e.domain != "" && e.cid != ""
                                             then [(e.domain, e.cid)] else [])
    {
      match e.kind {
        case Published =>
          if e.domain != "" { cache := cache - {e.domain}; }
          if e.cid != "" && e.domain != "" { prewarmed := prewarmed + [(e.domain, e.cid)]; }
        case Removed =>
          if e.domain != "" { cache := cache - {e.domain}; }
        case Other =>
      }
      applied := applied[e := now];
    }

    /** The page loop. A script that has run out stands for a deadline that has
        passed. Whatever the turns bring, the loop is a sequence of steps of the
        run machine, each possible where it comes up, ending with the same
        verdict: what the steps keep, the loop keeps. */
    method Reconcile(gen: nat, ghost now: nat, readable: bool, script: seq<Turn>)
      returns (ok: bool, ghost inputs: seq<Input>)
      modifies this`cache, this`prewarmed, this`applied, cursor
      ensures Feasible(NewRun(gen), old(Outside()), now, maxPages, inputs)
      ensures var (r, w) := Follow(NewRun(gen), old(Outside()), now, inputs);
              r.pc.Ended? && r.pc.ok == ok && w == Outside()
    {
      ghost var w0 := Outside();
      ghost var r := NewRun(gen);
      inputs := [];
      FollowNone(r, w0, now, maxPages);
      hide Follow, Feasible, Apply;
      var after, loaded := cursor.Get(readable);
      r, inputs := Extend(r, w0, r, w0, now, inputs, Load(loaded));
      var page := 1;
      while true
        invariant page >= 1 && r.pc == Paging(after, page)
        invariant Feasible(NewRun(gen), w0, now, maxPages, inputs)
        invariant Follow(NewRun(gen), w0, now, inputs) == (r, Outside())
        decreases |script| + 1 - page
      {
        if page > |script| || script[page - 1].expired {
          r, inputs := Extend(NewRun(gen), w0, r, Outside(), now, inputs, Abort);
          return false, inputs;
        }
        if page > maxPages {
          r, inputs := Extend(NewRun(gen), w0, r, Outside(), now, inputs, Cap);
          return false, inputs;
        }
        if script[page - 1].reply.None? {
          r, inputs := Extend(NewRun(gen), w0, r, Outside(), now, inputs, Fail);
          return false, inputs;
        }
        var resp := script[page - 1].reply.value;
        r, inputs := Extend(NewRun(gen), w0, r, Outside(), now, inputs, Got(resp));
        for k := 0 to |resp.events|
          invariant r.pc == Applying(after, page, resp.events[k..], resp)
          invariant Feasible(NewRun(gen), w0, now, maxPages, inputs)
          invariant Follow(NewRun(gen), w0, now, inputs) == (r, Outside())
        {
          ghost var w := Outside();
          Dispatch(resp.events[k], now);
          r, inputs := Extend(NewRun(gen), w0, r, w, now, inputs, ApplyOne);
        }
        var next := resp.mark;
        ghost var w := Outside();
        var stored := cursor.Set(next, script[page - 1].writable);
        r, inputs := Extend(NewRun(gen), w0, r, w, now, inputs, Store(stored));
        if !resp.truncated || next <= after {
          return true, inputs;
        }
        after := next;
        page := page + 1;
      }
    }

    /** One more step of the run machine. */
    ghost method Extend(r0: Run, w0: World, r: Run, w: World, now: nat, inputs: seq<Input>, i: Input)
      returns (r': Run, inputs': seq<Input>)
      requires Follow(r0, w0, now, inputs) == (r, w)
      requires Feasible(r0, w0, now, maxPages, inputs) && Possible(r, maxPages, i)
      ensures inputs' == inputs + [i] && r' == Next(r, w, now, i).0
      ensures Follow(r0, w0, now, inputs') == Next(r, w, now, i)
      ensures Feasible(r0, w0, now, maxPages, inputs')
    {
      FollowMore(r0, w0, now, maxPages, inputs, i);
      inputs' := inputs + [i];
      r' := Next(r, w, now, i).0;
    }

    /** A whole run with nothing in between: its reconcile, then its tail. */
    method Run(gen: nat, ghost now: nat, readable: bool, script: seq<Turn>)
      returns (launch: Option<nat>, ghost inputs: seq<Input>)
      modifies this, cursor
      ensures Feasible(NewRun(gen), old(Outside()), now, maxPages, inputs)
      ensures var (r, w) := Follow(NewRun(gen), old(Outside()), now, inputs);
              r.pc.Ended? && w == Outside() && Bounded(r, maxPages)
              && (Session(), launch) == Finish(old(Session()), gen, r.pc.ok)
    {
      ghost var w0 := Outside();
      var ok;
      ok, inputs := Reconcile(gen, now, readable, script);
      PagingIsBounded(gen, w0, now, maxPages, inputs);
      launch := Conclude(gen, ok);
    }
  }
}

/** The seed-peer worker: who may be running, how a running worker is told to stop,
    and how it learns that its peer is gone. Every mutex-protected section, every read
    or write of a channel or flag and every call into the network is one step; the
    backoff timers and the network itself are not part of this model, and the seed
    address always leads to the same peer. */
module SeedPeer {
  import opened Options

  type Id = nat

  /** Where a worker's loop stands: at its head; connecting with retries; connected;
      with its disconnect callback registered; with the connected flag raised;
      waiting for the peer to go; on its way out of that wait, for good or not; in a
      pause; in its deferred exit. */
  datatype Pc = Head | Connecting | Found | Noticing | Marked | Monitoring | Leaving(final: bool) | Pausing | Exiting

  /** `token` is the disconnect channel's one slot, `fired` the once-guard of the
      callback registered last. */
  datatype Worker = Worker(id: Id, pc: Pc, token: bool, fired: bool)

  /** `cancel` names the worker whose cancel function the node holds; `telling` the
      workers whose function has been taken but not called yet, `told` those told to
      stop; `closings` counts disconnections not delivered to callbacks yet. */
  datatype Node = Node(
    hasAddr: bool, active: bool, cancel: Option<nat>, workerID: Id,
    workers: map<nat, Worker>, next: nat, telling: set<nat>, told: set<nat>, down: bool,
    conns: nat, closings: nat, connected: bool)

  datatype Step =
    | Connect(id: Option<Id>)       // none if there are no random bytes
    | Detach                        // the locked half of DisconnectSeedPeer
    | Tell(g: nat)                  // its call of the cancel function
    | Shutdown                      // the node's own context ends
    | Opened | Closed | Delivered   // the network
    | Work(g: nat, ok: bool)        // a worker's next step; `ok` where the world decides

  predicate Done(s: Node, g: nat) { s.down || g in s.told }

  predicate Registered(w: Worker) { w.pc.Noticing? || w.pc.Marked? || w.pc.Monitoring? || w.pc.Leaving? }

  function Fire(w: Worker): Worker { if w.fired then w else w.(fired := true, token := true) }

  predicate Enabled(s: Node, st: Step) {
    match st
    case Connect(id) =>
      id.Some? ==> id.value != s.workerID && forall g :: g in s.workers ==> s.workers[g].id != id.value
    case Tell(g) => g in s.telling
    case Closed => s.conns > 0
    case Delivered => s.closings > 0
    case Work(g, ok) =>
      && g in s.workers
      && (match s.workers[g].pc
          case Monitoring => if ok then s.workers[g].token else Done(s, g)
          case Pausing => ok || Done(s, g)
          case _ => true)
    case _ => true
  }

  function Start(s: Node, id: Option<Id>): Node {
    if !s.hasAddr || s.active then s
    else match id
         case None => s.(active := false, cancel := None)
         case Some(i) =>
           s.(active := true, cancel := Some(s.next), workerID := i, next := s.next + 1,
              workers := s.workers[s.next := Worker(i, Head, false, false)])
  }

  /** A worker's deferred exit: it clears the node's state if that is still its own. */
  function Exit(s: Node, g: nat): Node
    requires g in s.workers
  {
    var mine := s.workers[g].id == s.workerID;
    s.(workers := s.workers - {g},
       active := s.active && !mine, cancel := if mine then None else s.cancel)
  }

  /** A worker after its next step, short of its exit. */
  function Stepped(w: Worker, done: bool, connected: bool, ok: bool): (r: Worker)
    ensures r.id == w.id
  {
    match w.pc
    case Head => w.(pc := if done then Exiting else Connecting)
    case Connecting => w.(pc := if ok then Found else if done then Exiting else Pausing)
    case Found => w.(pc := Noticing, fired := false)
    case Noticing => w.(pc := Marked)
    case Marked => (if connected then w else Fire(w)).(pc := Monitoring)
    case Monitoring => w.(pc := Leaving(!ok), token := w.token && !ok)
    case Leaving(final) => w.(pc := if final then Exiting else Pausing)
    case Pausing => w.(pc := if ok then Head else Exiting)
    case Exiting => w
  }

  /** Whether the step lowers the connected flag. */
  predicate Lowers(w: Worker, done: bool, ok: bool) {
    w.pc.Leaving? || (w.pc.Connecting? && !ok && !done)
  }

  function WorkerStep(s: Node, g: nat, ok: bool): Node
    requires g in s.workers
  {
    var w := s.workers[g];
    if w.pc.Exiting? then Exit(s, g)
    else s.(workers := s.workers[g := Stepped(w, Done(s, g), s.conns > 0, ok)],
            connected := !Lowers(w, Done(s, g), ok) && (w.pc.Noticing? || s.connected))
  }

  function Next(s: Node, st: Step): Node {
    match st
    case Connect(id) => Start(s, id)
    case Detach =>
      s.(telling := if s.cancel.Some? then s.telling + {s.cancel.value} else s.telling,
         cancel := None, active := false)
    case Tell(g) => s.(telling := s.telling - {g}, told := s.told + {g})
    case Shutdown => s.(down := true)
    case Opened => s.(conns := s.conns + 1)
    case Closed => if s.conns == 0 then s else s.(conns := s.conns - 1, closings := s.closings + 1)
    case Delivered =>
      if s.closings == 0 then s
      else s.(closings := s.closings - 1,
              workers := map g | g in s.workers ::
                if Registered(s.workers[g]) then Fire(s.workers[g]) else s.workers[g])
    case Work(g, ok) => if g in s.workers then WorkerStep(s, g, ok) else s
  }

  const START := Node(true, false, None, 0, map[], 0, {}, {}, false, 0, 0, false)

  // -------------------------------------------------- the node as an object

  class SeedNode {
    const hasAddr: bool
    var active: bool
    var cancel: Option<nat>
    var workerID: Id
    var workers: map<nat, Worker>
    var next: nat
    var telling: set<nat>
    var told: set<nat>
    var down: bool
    var conns: nat
    var closings: nat
    var connected: bool

    function View(): Node
      reads this
    {
      Node(hasAddr, active, cancel, workerID, workers, next, telling, told, down, conns, closings, connected)
    }

    constructor ()
      ensures View() == START
    {
      hasAddr, active, cancel, workerID, workers, next := true, false, None, 0, map[], 0;
      telling, told, down, conns, closings, connected := {}, {}, false, 0, 0, false;
    }

    method ConnectSeedPeer(id: Option<Id>)
      modifies this`active, this`cancel, this`workerID, this`workers, this`next
      ensures View() == Next(old(View()), Connect(id))
    {
      if !hasAddr || active { return; }
      cancel, active := Some(next), true;
      if id.None? {
        active, cancel := false, None;
        return;
      }
      workerID := id.value;
      workers := workers[next := Worker(workerID, Head, false, false)];
      next := next + 1;
    }

    /** The locked half of DisconnectSeedPeer. */
    method TakeCancel() returns (taken: Option<nat>)
      modifies this`active, this`cancel, this`telling
      ensures View() == Next(old(View()), Detach) && taken == old(cancel)
    {
      taken := cancel;
      cancel, active := None, false;
      if taken.Some? { telling := telling + {taken.value}; }
    }

    method CallCancel(g: nat)
      modifies this`telling, this`told
      ensures View() == Next(old(View()), Tell(g))
    {
      telling, told := telling - {g}, told + {g};
    }

    /** A disconnection reaches the callbacks that are registered. */
    method Notify()
      requires closings > 0
      modifies this`closings, this`workers
      ensures View() == Next(old(View()), Delivered)
    {
      closings := closings - 1;
      workers := map g | g in workers :: if Registered(workers[g]) then Fire(workers[g]) else workers[g];
    }

    /** The wait for a disconnect: the token is taken, or the context has ended. */
    method Await(g: nat, ok: bool)
      requires g in workers && workers[g].pc == Monitoring && Enabled(View(), Work(g, ok))
      modifies this`workers
      ensures View() == Next(old(View()), Work(g, ok))
    {
      if ok {
        workers := workers[g := workers[g].(pc := Leaving(false), token := false)];
      } else {
        workers := workers[g := workers[g].(pc := Leaving(true))];
      }
    }

    /** The check for a peer that went before the callback was registered. */
    method CheckConnection(g: nat)
      requires g in workers && workers[g].pc == Marked
      modifies this`workers
      ensures View() == Next(old(View()), Work(g, true))
    {
      var w := workers[g];
      if conns == 0 && !w.fired { w := w.(fired := true, token := true); }
      workers := workers[g := w.(pc := Monitoring)];
    }

    method Retire(g: nat)
      requires g in workers && workers[g].pc == Exiting
      modifies this`workers, this`active, this`cancel
      ensures View() == Next(old(View()), Work(g, true))
    {
      if workers[g].id == workerID {
        active, cancel := false, None;
      }
      workers := workers - {g};
    }
  }
}

/** The prewarmer: which DAG walks are on their way, which roots count as warmed, and
    what one batch walk does with the nodes of a DAG. The worker pool and the network
    are not part of this model: the pool is a queue that is refused once stopped, and
    the outcome of a fetch is an input. */
module Prewarm {
  import opened Options
  import opened Disk
  import CC = ContentCache

  /** A CID in `active` has a walk that is being handed to the pool (`entering`),
      queued, running, or over but not yet deregistered (`leaving`). */
  datatype State = State(active: set<Cid>, warmed: set<Cid>, stopped: bool,
                         entering: multiset<Cid>, queue: seq<Cid>,
                         running: multiset<Cid>, leaving: multiset<Cid>)

  /** What a walk comes to. */
  datatype Outcome = Outcome(visited: nat, skipped: nat, failed: bool)

  datatype Step =
    | Submit(c: Cid)
    | SubmitPath(c: Cid)
    | Enter(c: Cid)             // the pool takes the walk, or refuses it
    | Start                     // a worker takes the oldest queued walk
    | Finish(c: Cid, o: Outcome)
    | Leave(c: Cid)
    | ClearWarmed(c: Cid)       // the eviction callback
    | Stop

  predicate Enabled(s: State, st: Step) {
    match st
    case Enter(c) => c in s.entering
    case Start => s.queue != []
    case Finish(c, _) => c in s.running
    case Leave(c) => c in s.leaving
    case _ => true
  }

  /** A walk warms its root if it ends without error and fetched something. */
  predicate Warms(o: Outcome) { !o.failed && o.visited > 0 }

  function Next(s: State, st: Step): State {
    match st
    case Submit(c) =>
      if c in s.active then s else s.(active := s.active + {c}, entering := s.entering + multiset{c})
    case SubmitPath(c) =>
      if c in s.active || c in s.warmed then s
      else s.(active := s.active + {c}, entering := s.entering + multiset{c})
    case Enter(c) =>
      if s.stopped then s.(entering := s.entering - multiset{c}, active := s.active - {c})
      else s.(entering := s.entering - multiset{c}, queue := s.queue + [c])
    case Start =>
      if s.queue == [] then s else s.(queue := s.queue[1..], running := s.running + multiset{s.queue[0]})
    case Finish(c, o) =>
      s.(running := s.running - multiset{c}, leaving := s.leaving + multiset{c},
         warmed := if Warms(o) then s.warmed + {c} else s.warmed)
    case Leave(c) => s.(leaving := s.leaving - multiset{c}, active := s.active - {c})
    case ClearWarmed(c) => s.(warmed := s.warmed - {c})
    case Stop => s.(stopped := true)
  }

  // ------------------------------------------------------- one batch walk

  /** The world as a batch walk finds it when it comes to a node. */
  datatype Moment = Moment(warmed: set<Cid>, cache: CC.State, f: CC.Faults)

  /** A node of the DAG as named by the resolver: a name that does not parse has no
      CID; `now` is when the walk looks at it, `arrives` whether fetching it works. */
  datatype Node = Node(cid: Option<Cid>, now: Moment, arrives: bool)

  /** A warmed block is taken to be there only if the block store says so. */
  predicate SkipsWarm(n: Node) {
    n.cid.Some? && n.cid.value in n.now.warmed && CC.Present(n.now.cache, n.now.f, n.cid.value)
  }

  predicate Wanted(n: Node) { n.cid.Some? && !SkipsWarm(n) }

  predicate Fetched(n: Node) { Wanted(n) && n.arrives }

  /** The positions of the nodes a walk wants, and of those it gets. */
  function AllWanted(nodes: seq<Node>): set<nat> {
    set i: nat | 0 <= i < |nodes| && Wanted(nodes[i])
  }

  function AllFetched(nodes: seq<Node>): set<nat> {
    set i: nat | 0 <= i < |nodes| && Fetched(nodes[i])
  }

  lemma OneMoreNode(nodes: seq<Node>, i: nat)
    requires i < |nodes|
    ensures |AllWanted(nodes[..i + 1])| == |AllWanted(nodes[..i])| + if Wanted(nodes[i]) then 1 else 0
    ensures |AllFetched(nodes[..i + 1])| == |AllFetched(nodes[..i])| + if Fetched(nodes[i]) then 1 else 0
    ensures AllFetched(nodes[..i]) <= AllWanted(nodes[..i])
  {
    var less, more := nodes[..i], nodes[..i + 1];
    assert forall k :: 0 <= k < i ==> less[k] == more[k];
    assert AllWanted(more) == AllWanted(less) + if Wanted(nodes[i]) then {i} else {};
    assert AllFetched(more) == AllFetched(less) + if Fetched(nodes[i]) then {i} else {};
    assert i !in AllWanted(less) && i !in AllFetched(less);
  }

  lemma {:induction false} FetchedFits(nodes: seq<Node>)
    ensures |AllFetched(nodes)| <= |AllWanted(nodes)| <= |nodes|
  {
    if nodes != [] {
      var k := |nodes| - 1;
      FetchedFits(nodes[..k]);
      OneMoreNode(nodes, k);
      assert nodes[..k + 1] == nodes;
    }
  }

  /** The same in the nodes' own fields. */
  lemma InFields(ns: seq<Node>)
    ensures AllFetched(ns)
            == set i: nat | i < |ns| && ns[i].cid.Some? && ns[i].arrives
                 && !(ns[i].cid.value in ns[i].now.warmed
                      && CC.Present(ns[i].now.cache, ns[i].now.f, ns[i].cid.value))
    ensures AllWanted(ns)
            == set i: nat | i < |ns| && ns[i].cid.Some?
                 && !(ns[i].cid.value in ns[i].now.warmed
                      && CC.Present(ns[i].now.cache, ns[i].now.f, ns[i].cid.value))
    ensures AllFetched(ns) == {} <==> forall i :: i in AllWanted(ns) ==> !ns[i].arrives
  {
    hide CC.Present;
    assert forall i: nat :: i in AllFetched(ns) <==> i in AllWanted(ns) && ns[i].arrives;
  }

  /** Fetches the blocks of a DAG, or fails if its nodes cannot be listed or none of
      the wanted ones arrives. Wanted is every node with a CID but those that count as
      warmed and that the block store has. */
  method WalkBatch(nodes: Option<seq<Node>>) returns (o: Outcome)
    ensures nodes.None? ==> o == Outcome(0, 0, true)
    ensures nodes.Some? ==>
              var ns := nodes.value;
              o.visited == |set i: nat | i < |ns| && ns[i].cid.Some? && ns[i].arrives
                                && !(ns[i].cid.value in ns[i].now.warmed
                                     && CC.Present(ns[i].now.cache, ns[i].now.f, ns[i].cid.value))|
    ensures nodes.Some? ==>
              var ns := nodes.value;
              var wanted := set i: nat | i < |ns| && ns[i].cid.Some?
                                  && !(ns[i].cid.value in ns[i].now.warmed
                                       && CC.Present(ns[i].now.cache, ns[i].now.f, ns[i].cid.value));
              o.failed <==> wanted != {} && forall i :: i in wanted ==> !ns[i].arrives
    ensures nodes.Some? ==>
              var ns := nodes.value;
              && o.visited == |AllFetched(ns)|
              && (o.failed <==> AllWanted(ns) != {} && AllFetched(ns) == {})
              && (!o.failed ==> o.visited + o.skipped == |ns|)
              && (o.failed ==> o.skipped == |ns| - |AllWanted(ns)|)
  {
    if nodes.None? { return Outcome(0, 0, true); }
    var ns := nodes.value;
    if ns == [] {
      InFields(ns);
      return Outcome(0, 0, false);
    }
    var pending: seq<Node> := [];
    var skipped := 0;
    for i := 0 to |ns|
      invariant |pending| == |AllWanted(ns[..i])| && skipped + |pending| == i
      invariant |AllFetched(pending)| == |AllFetched(ns[..i])|
      invariant forall n :: n in pending ==> Wanted(n)
    {
      OneMoreNode(ns, i);
      var n := ns[i];
      if n.cid.None? {
        skipped := skipped + 1;
      } else if n.cid.value in n.now.warmed && CC.Present(n.now.cache, n.now.f, n.cid.value) {
        skipped := skipped + 1;
      } else {
        OneMoreNode(pending + [n], |pending|);
        assert (pending + [n])[..|pending|] == pending && (pending + [n])[..|pending| + 1] == pending + [n];
        pending := pending + [n];
      }
    }
    assert ns[..|ns|] == ns;
    var visited := 0;
    for i := 0 to |pending|
      invariant visited == |AllFetched(pending[..i])|
    {
      OneMoreNode(pending, i);
      if pending[i].arrives { visited := visited + 1; }
    }
    assert pending[..|pending|] == pending;
    FetchedFits(ns);
    InFields(ns);
    if visited == 0 && |pending| > 0 { return Outcome(0, skipped, true); }
    return Outcome(visited, skipped + (|pending| - visited), false);
  }

  /** The batch walk if there is a resolver and it works out, else the walk link by
      link, whose outcome is an input. */
  method Walk(hasResolver: bool, nodes: Option<seq<Node>>, byLinks: Outcome) returns (o: Outcome)
    ensures (!hasResolver || nodes.None? || (AllWanted(nodes.value) != {} && AllFetched(nodes.value) == {})) ==>
              o == byLinks
    ensures hasResolver && nodes.Some? && (AllWanted(nodes.value) == {} || AllFetched(nodes.value) != {}) ==>
              !o.failed && o.visited == |AllFetched(nodes.value)| && o.visited + o.skipped == |nodes.value|
  {
    if hasResolver {
      o := WalkBatch(nodes);
      if !o.failed { return; }
    }
    return byLinks;
  }

  // ------------------------------------------------------- the prewarmer

  class Prewarmer {
    var active: set<Cid>
    var warmed: set<Cid>
    var stopped: bool
    var entering: multiset<Cid>
    var queue: seq<Cid>
    var running: multiset<Cid>
    var leaving: multiset<Cid>

    function View(): State
      reads this
    {
      State(active, warmed, stopped, entering, queue, running, leaving)
    }

    constructor ()
      ensures View() == State({}, {}, false, multiset{}, [], multiset{}, multiset{})
    {
      active, warmed, stopped, queue := {}, {}, false, [];
      entering, running, leaving := multiset{}, multiset{}, multiset{};
    }

    /** The locked half of Submit. */
    method SubmitRoot(c: Cid) returns (taken: bool)
      modifies this`active, this`entering
      ensures View() == Next(old(View()), Submit(c)) && (taken <==> c !in old(active))
    {
      if c in active { return false; }
      active := active + {c};
      entering := entering + multiset{c};
      return true;
    }

    /** The locked half of SubmitPath. */
    method SubmitSubPath(c: Cid) returns (taken: bool)
      modifies this`active, this`entering
      ensures View() == Next(old(View()), SubmitPath(c)) && (taken <==> c !in old(active) && c !in warmed)
    {
      if c in active { return false; }
      if c in warmed { return false; }
      active := active + {c};
      entering := entering + multiset{c};
      return true;
    }

    /** The other half: handing the walk to the pool. */
    method EnterPool(c: Cid)
      requires c in entering
      modifies this`active, this`entering, this`queue
      ensures View() == Next(old(View()), Enter(c))
    {
      entering := entering - multiset{c};
      if stopped {
        active := active - {c};
      } else {
        queue := queue + [c];
      }
    }

    method StartWalk() returns (c: Cid)
      requires queue != []
      modifies this`queue, this`running
      ensures View() == Next(old(View()), Start) && c == old(queue)[0]
    {
      c := queue[0];
      queue := queue[1..];
      running := running + multiset{c};
    }

    method FinishWalk(c: Cid, o: Outcome)
      requires c in running
      modifies this`running, this`leaving, this`warmed
      ensures View() == Next(old(View()), Finish(c, o))
    {
      running, leaving := running - multiset{c}, leaving + multiset{c};
      if o.failed { return; }
      if o.visited == 0 { return; }
      warmed := warmed + {c};
    }

    method LeavePool(c: Cid)
      requires c in leaving
      modifies this`leaving, this`active
      ensures View() == Next(old(View()), Leave(c))
    {
      leaving := leaving - multiset{c};
      active := active - {c};
    }

    method Forget(c: Cid)
      modifies this`warmed
      ensures View() == Next(old(View()), ClearWarmed(c))
    {
      warmed := warmed - {c};
    }

    method StopPool()
      modifies this`stopped
      ensures View() == Next(old(View()), Stop)
    {
      stopped := true;
    }
  }
}

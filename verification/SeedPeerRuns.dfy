/** The seed-peer worker over whole runs: identity of workers, the disconnect token,
    and when the connected flag can be trusted. */
module SeedPeerRuns {
  import opened Options
  import opened SeedPeer

  function Exec(s: Node, trace: seq<Step>): Node {
    if trace == [] then s else Next(Exec(s, trace[..|trace| - 1]), trace[|trace| - 1])
  }

  ghost predicate Legal(s: Node, trace: seq<Step>) {
    trace == [] ||
    (Legal(s, trace[..|trace| - 1]) && Enabled(Exec(s, trace[..|trace| - 1]), trace[|trace| - 1]))
  }

  lemma OneMore(s: Node, trace: seq<Step>, st: Step)
    requires Legal(s, trace) && Enabled(Exec(s, trace), st)
    ensures Legal(s, trace + [st]) && Exec(s, trace + [st]) == Next(Exec(s, trace), st)
  {
    assert (trace + [st])[..|trace|] == trace;
  }

  // ------------------------------------------------------------- identity

  /** The worker the node can still stop, if any, is the one it takes for active; all
      the others have been told to stop, or are just being told. */
  ghost predicate Identities(s: Node) {
    && (s.active <==> s.cancel.Some?)
    && (s.cancel.Some? ==>
          && s.cancel.value in s.workers && s.workers[s.cancel.value].id == s.workerID
          && s.cancel.value !in s.told && s.cancel.value !in s.telling)
    && (forall g :: g in s.workers ==>
          g < s.next && (g in s.told || g in s.telling || s.cancel == Some(g)))
    && (forall g, h :: g in s.workers && h in s.workers && s.workers[g].id == s.workers[h].id ==> g == h)
    && (forall g :: g in s.told || g in s.telling ==> g < s.next)
  }

  predicate Free(s: Node, g: nat) { g in s.workers && g !in s.told && g !in s.telling }

  lemma ExitKeepsIdentities(s: Node, g: nat)
    requires Identities(s) && g in s.workers
    ensures Identities(Exit(s, g))
  {
  }

  lemma MoveKeepsIdentities(s: Node, t: Node)
    requires Identities(s) && t.active == s.active && t.cancel == s.cancel && t.workerID == s.workerID
    requires t.next == s.next && t.told == s.told && t.telling == s.telling
    requires t.workers.Keys == s.workers.Keys && forall g :: g in s.workers ==> t.workers[g].id == s.workers[g].id
    ensures Identities(t)
  {
  }

  lemma StartKeepsIdentities(s: Node, id: Option<Id>)
    requires Identities(s) && Enabled(s, Connect(id))
    ensures Identities(Start(s, id))
  {
  }

  lemma DetachKeepsIdentities(s: Node)
    requires Identities(s)
    ensures Identities(Next(s, Detach))
  {
  }

  lemma TellKeepsIdentities(s: Node, g: nat)
    requires Identities(s) && g in s.telling
    ensures Identities(Next(s, Tell(g)))
  {
  }

  lemma IdentitiesStep(s: Node, st: Step)
    requires Identities(s) && Enabled(s, st)
    ensures Identities(Next(s, st))
  {
    hide Identities;
    if st.Connect? {
      StartKeepsIdentities(s, st.id);
    } else if st.Work? {
      hide Stepped, Lowers;
      if s.workers[st.g].pc.Exiting? {
        ExitKeepsIdentities(s, st.g);
      } else {
        MoveKeepsIdentities(s, WorkerStep(s, st.g, st.ok));
      }
    } else if st.Delivered? {
      MoveKeepsIdentities(s, Next(s, st));
    } else if st.Detach? {
      DetachKeepsIdentities(s);
    } else if st.Tell? {
      TellKeepsIdentities(s, st.g);
    } else {
      MoveKeepsIdentities(s, Next(s, st));
    }
  }

  /** Over every run with distinct worker ids: at most one worker has not been told,
      or is not just being told, to stop; it is the one the node holds; and as long
      as the node counts as active, that worker is there. */
  lemma {:induction false} OneWorkerAtMost(trace: seq<Step>)
    requires Legal(START, trace)
    ensures var s := Exec(START, trace);
            && Identities(s)
            && (forall g, h :: Free(s, g) && Free(s, h) ==> g == h)
  {
    if trace != [] {
      OneWorkerAtMost(trace[..|trace| - 1]);
      IdentitiesStep(Exec(START, trace[..|trace| - 1]), trace[|trace| - 1]);
    }
  }

  /** A disconnect reaches every worker: once its locked half is done, each worker that is
      there has been told to stop or is just being told, and its call tells it; and the
      node's own shutdown tells all of them. */
  lemma {:induction false} DisconnectTellsAll(trace: seq<Step>)
    requires Legal(START, trace)
    ensures var s := Exec(START, trace);
            var d := Next(s, Detach);
            && !d.active && d.cancel == None && d.workers == s.workers
            && (forall g :: g in d.workers ==> g in d.told || g in d.telling)
            && (forall g :: g in d.telling ==> Done(Next(d, Tell(g)), g))
            && (forall g :: Done(Next(s, Shutdown), g))
  {
    OneWorkerAtMost(trace);
    DetachKeepsIdentities(Exec(START, trace));
  }

  lemma StepKeepsAddress(s: Node, st: Step)
    ensures Next(s, st).hasAddr == s.hasAddr
  {
    hide Stepped, Lowers, Registered, Fire;
  }

  lemma {:induction false} AddressStays(trace: seq<Step>)
    ensures Exec(START, trace).hasAddr
  {
    if trace != [] {
      AddressStays(trace[..|trace| - 1]);
      StepKeepsAddress(Exec(START, trace[..|trace| - 1]), trace[|trace| - 1]);
      hide Next;
    }
  }

  /** And a connect leaves a worker: with an address and a fresh id the node is active
      afterwards and holds a worker that nobody has told to stop, the one it held before or
      else a new one at the head of its loop. */
  lemma {:induction false} ConnectLeavesWorker(trace: seq<Step>, id: Id)
    requires Legal(START, trace) && Enabled(Exec(START, trace), Connect(Some(id)))
    ensures var s := Exec(START, trace);
            var t := Next(s, Connect(Some(id)));
            && t.active && t.cancel.Some? && Free(t, t.cancel.value)
            && (if s.active then t == s
                else t.workers == s.workers[t.cancel.value := Worker(id, Head, false, false)]
                     && t.cancel.value !in s.workers)
  {
    OneWorkerAtMost(trace);
    AddressStays(trace);
    StartKeepsIdentities(Exec(START, trace), Some(id));
  }

  /** A worker's exit changes what the node holds if and only if it is the worker the
      node holds: a superseded worker never clears its successor's state. */
  lemma {:induction false} ExitClearsIff(trace: seq<Step>, g: nat)
    requires Legal(START, trace) && g in Exec(START, trace).workers
    ensures var s := Exec(START, trace);
            var t := Exit(s, g);
            && ((t.active, t.cancel) != (s.active, s.cancel) <==> s.cancel == Some(g))
            && (forall h :: h in s.workers && h != g ==> h in t.workers && t.workers[h] == s.workers[h])
  {
    OneWorkerAtMost(trace);
  }

  /** Runs in which an id can be drawn any number of times. */
  ghost predicate AnyIds(s: Node, trace: seq<Step>) {
    trace == [] ||
    (AnyIds(s, trace[..|trace| - 1])
     && (trace[|trace| - 1].Connect? || Enabled(Exec(s, trace[..|trace| - 1]), trace[|trace| - 1])))
  }

  /** The worker the node holds, if any, is there and carries the current id. */
  ghost predicate Held(s: Node) {
    && (forall g :: g in s.workers ==> g < s.next)
    && (s.cancel.Some? ==>
          s.active && s.cancel.value in s.workers && s.workers[s.cancel.value].id == s.workerID)
  }

  lemma HeldStep(s: Node, st: Step)
    requires Held(s) && (st.Connect? || Enabled(s, st))
    ensures Held(Next(s, st))
  {
    hide Stepped, Lowers;
  }

  lemma {:induction false} HeldAlways(trace: seq<Step>)
    requires AnyIds(START, trace)
    ensures Held(Exec(START, trace))
  {
    if trace != [] {
      HeldAlways(trace[..|trace| - 1]);
      HeldStep(Exec(START, trace[..|trace| - 1]), trace[|trace| - 1]);
    }
  }

  /** Whatever ids are drawn: while the node holds a worker, the exit of a worker clears
      the node's state if and only if the two carry the same id. */
  lemma ExitClearsSameIdIff(trace: seq<Step>, g: nat)
    requires AnyIds(START, trace) && g in Exec(START, trace).workers && Exec(START, trace).cancel.Some?
    ensures var s := Exec(START, trace);
            var t := Exit(s, g);
            && s.cancel.value in s.workers
            && (s.workers[g].id == s.workers[s.cancel.value].id ==> !t.active && t.cancel == None)
            && (s.workers[g].id != s.workers[s.cancel.value].id ==> t.active && t.cancel == s.cancel)
  {
    HeldAlways(trace);
  }

  /** With one id drawn twice this breaks: the first worker's exit makes the node
      forget the second, which runs on and can no longer be told to stop. */
  lemma SameIdForgetsSuccessor()
    ensures var s := Next(Next(Next(START, Connect(Some(1))), Detach), Connect(Some(1)));
            var t := Next(Next(Next(s, Tell(0)), Work(0, true)), Work(0, true));
            && s.active && s.cancel == Some(1)
            && !t.active && t.cancel == None && 1 in t.workers
            && 1 !in t.told && 1 !in t.telling && Next(t, Detach) == t
  {
    var s := Next(Next(Next(START, Connect(Some(1))), Detach), Connect(Some(1)));
    assert s.workers == map[0 := Worker(1, Head, false, false), 1 := Worker(1, Head, false, false)];
    var u := Next(Next(s, Tell(0)), Work(0, true));
    assert u.workers[0] == Worker(1, Exiting, false, false) && 1 in u.workers;
  }

  // ------------------------------------------------------------- stopping

  /** The most steps a worker that has been told to stop has left. */
  function Rank(pc: Pc): nat {
    match pc
    case Exiting => 1
    case Head => 2
    case Pausing => 3
    case Leaving(_) => 4
    case Monitoring => 5
    case Marked => 6
    case Noticing => 7
    case Found => 8
    case Connecting => 9
  }

  function StepsOf(trace: seq<Step>, g: nat): nat {
    if trace == [] then 0
    else StepsOf(trace[..|trace| - 1], g) + if trace[|trace| - 1].Work? && trace[|trace| - 1].g == g then 1 else 0
  }

  function RankOf(s: Node, g: nat): nat { if g in s.workers then Rank(s.workers[g].pc) else 0 }

  lemma RankFalls(w: Worker, connected: bool, ok: bool)
    requires !w.pc.Exiting?
    ensures Rank(Stepped(w, true, connected, ok).pc) < Rank(w.pc)
  {
  }

  lemma DoneStep(s: Node, st: Step, g: nat)
    requires Done(s, g) && g < s.next && Enabled(s, st)
    ensures var t := Next(s, st);
            && Done(t, g) && g < t.next
            && RankOf(t, g) + (if st.Work? && st.g == g then 1 else 0) <= RankOf(s, g)
  {
    if st.Work? && st.g == g {
      hide Stepped, Rank;
      var w := s.workers[g];
      if w.pc.Exiting? {
        assert RankOf(s, g) >= 1;
      } else {
        RankFalls(w, s.conns > 0, st.ok);
      }
    } else if st.Work? {
      hide Stepped, Rank;
    }
  }

  /** A worker that has been told to stop takes at most nine more steps, whatever the
      rest does meanwhile, and is never stuck. */
  lemma {:induction false} ToldWorkerGoes(s: Node, trace: seq<Step>, g: nat)
    requires Done(s, g) && g < s.next && Legal(s, trace)
    ensures var t := Exec(s, trace);
            && StepsOf(trace, g) + RankOf(t, g) <= RankOf(s, g) <= 9
            && Done(t, g) && g < t.next
            && (g in t.workers ==> Enabled(t, Work(g, false)))
  {
    if trace != [] {
      ToldWorkerGoes(s, trace[..|trace| - 1], g);
      DoneStep(Exec(s, trace[..|trace| - 1]), trace[|trace| - 1], g);
    }
  }

  /** A worker that has been told to stop, and hears it where it waits or once connecting
      has failed, does not come back to its loop: it is gone after its exit. */
  lemma HeardWorkerExits(s: Node, g: nat)
    requires Done(s, g) && g in s.workers
    ensures var t := Next(Next(s, Work(g, false)), Work(g, false));
            var pc := s.workers[g].pc;
            && (pc.Head? || pc.Connecting? || pc.Pausing? ==> g !in t.workers)
            && (pc.Monitoring? ==> g !in Next(t, Work(g, false)).workers)
  {
    hide Lowers;
  }

  lemma UntoldStep(s: Node, st: Step, g: nat)
    requires Enabled(s, st) && g in s.workers && g < s.next && !Done(s, g)
    requires !s.workers[g].pc.Exiting? && s.workers[g].pc != Leaving(true)
    requires st != Tell(g) && st != Shutdown
    ensures var t := Next(s, st);
            && g in t.workers && g < t.next && !Done(t, g)
            && !t.workers[g].pc.Exiting? && t.workers[g].pc != Leaving(true)
  {
    if st.Work? && st.g != g {
      hide Stepped, Lowers;
    }
  }

  /** A worker that nobody tells to stop stays. */
  lemma {:induction false} UntoldWorkerStays(s: Node, trace: seq<Step>, g: nat)
    requires Legal(s, trace) && g in s.workers && g < s.next && !Done(s, g)
    requires !s.workers[g].pc.Exiting? && s.workers[g].pc != Leaving(true)
    requires Tell(g) !in trace && Shutdown !in trace
    ensures var t := Exec(s, trace);
            && g in t.workers && g < t.next && !Done(t, g)
            && !t.workers[g].pc.Exiting? && t.workers[g].pc != Leaving(true)
  {
    if trace != [] {
      var init, last := trace[..|trace| - 1], trace[|trace| - 1];
      assert trace == init + [last] && last in trace;
      UntoldWorkerStays(s, init, g);
      UntoldStep(Exec(s, init), last, g);
    }
  }

  /** On its way out for good. */
  predicate Departs(pc: Pc) { pc.Exiting? || pc == Leaving(true) }

  /** Only a worker that has been told to stop is on its way out. */
  ghost predicate LeaversAreTold(s: Node) {
    forall g :: g in s.workers && Departs(s.workers[g].pc) ==> Done(s, g)
  }

  lemma LeavesByStep(w: Worker, done: bool, connected: bool, ok: bool)
    requires !ok && (w.pc.Monitoring? || w.pc.Pausing?) ==> done
    ensures Departs(Stepped(w, done, connected, ok).pc) ==> done || Departs(w.pc)
  {
  }

  /** What the others do leaves a worker where it stands, and told if it was. */
  lemma OthersLeavePc(s: Node, st: Step, g: nat)
    requires Enabled(s, st) && !(st.Work? && st.g == g) && g in Next(s, st).workers
    ensures Done(s, g) ==> Done(Next(s, st), g)
    ensures var pc := Next(s, st).workers[g].pc;
            pc == Head || (g in s.workers && pc == s.workers[g].pc)
  {
    hide Stepped, Lowers, Registered;
  }

  lemma LeaversStep(s: Node, st: Step, g: nat)
    requires LeaversAreTold(s) && Enabled(s, st) && g in Next(s, st).workers
    ensures Departs(Next(s, st).workers[g].pc) ==> Done(Next(s, st), g)
  {
    hide Stepped, Lowers;
    if st.Work? && st.g == g {
      LeavesByStep(s.workers[g], Done(s, g), s.conns > 0, st.ok);
    } else {
      OthersLeavePc(s, st, g);
      hide Next, Enabled;
    }
  }

  lemma {:induction false} LeaversAlways(trace: seq<Step>)
    requires Legal(START, trace)
    ensures LeaversAreTold(Exec(START, trace))
  {
    if trace != [] {
      LeaversAlways(trace[..|trace| - 1]);
      var s, last := Exec(START, trace[..|trace| - 1]), trace[|trace| - 1];
      forall g | g in Next(s, last).workers
        ensures Departs(Next(s, last).workers[g].pc) ==> Done(Next(s, last), g)
      {
        LeaversStep(s, last, g);
      }
    }
  }

  /** DisconnectSeedPeer waits for all workers, from any point of any run. A worker that
      has been told then takes at most as many steps as it has left, nine at the most,
      and is gone once it has taken them; until then it is not stuck. But a worker that
      has not been told, as one connected between the locked half and the wait, stays as
      long as nobody tells it to stop, and with it the wait. */
  lemma WaitEndsForTold(before: seq<Step>, trace: seq<Step>, g: nat)
    requires Legal(START, before) && Legal(Exec(START, before), trace) && g in Exec(START, before).workers
    ensures var s := Exec(START, before);
            var t := Exec(s, trace);
            && (Done(s, g) ==>
                  && StepsOf(trace, g) + RankOf(t, g) <= RankOf(s, g) <= 9
                  && (RankOf(t, g) == 0 <==> g !in t.workers)
                  && (g in t.workers ==> Enabled(t, Work(g, false))))
            && (!Done(s, g) && Tell(g) !in trace && Shutdown !in trace ==> g in t.workers)
  {
    OneWorkerAtMost(before);
    LeaversAlways(before);
    var s := Exec(START, before);
    if Done(s, g) {
      ToldWorkerGoes(s, trace, g);
    } else if Tell(g) !in trace && Shutdown !in trace {
      UntoldWorkerStays(s, trace, g);
    }
  }

  /** A run in which a disconnect has told its worker, and a worker connected in between
      has not been told by anyone. */
  lemma LateWorkerIsNotTold()
    ensures var s := Next(Next(Next(Next(START, Connect(Some(1))), Detach), Connect(Some(2))), Tell(0));
            && Legal(START, [Connect(Some(1)), Detach, Connect(Some(2)), Tell(0)])
            && Exec(START, [Connect(Some(1)), Detach, Connect(Some(2)), Tell(0)]) == s
            && s.told == {0} && 1 in s.workers && s.workers[1].pc == Head && !Done(s, 1)
  {
    var none: seq<Step> := [];
    assert Legal(START, none) && Exec(START, none) == START;
    OneMore(START, none, Connect(Some(1)));
    assert none + [Connect(Some(1))] == [Connect(Some(1))];
    OneMore(START, [Connect(Some(1))], Detach);
    assert [Connect(Some(1))] + [Detach] == [Connect(Some(1)), Detach];
    OneMore(START, [Connect(Some(1)), Detach], Connect(Some(2)));
    assert [Connect(Some(1)), Detach] + [Connect(Some(2))] == [Connect(Some(1)), Detach, Connect(Some(2))];
    OneMore(START, [Connect(Some(1)), Detach, Connect(Some(2))], Tell(0));
    assert [Connect(Some(1)), Detach, Connect(Some(2))] + [Tell(0)]
        == [Connect(Some(1)), Detach, Connect(Some(2)), Tell(0)];
  }

  // ------------------------------------------------------- the disconnect

  /** `gone` says that the peer is gone and every disconnection delivered. */
  predicate TokenOk(w: Worker, gone: bool) {
    && (w.pc.Head? || w.pc.Connecting? || w.pc.Found? || w.pc.Pausing? ==> !w.token)
    && (w.pc.Noticing? || w.pc.Marked? || w.pc.Monitoring? ==> (w.token <==> w.fired))
    && (w.pc == Leaving(false) ==> w.fired && !w.token)
    && (w.pc.Monitoring? && gone ==> w.token)
  }

  predicate Gone(s: Node) { s.conns == 0 && s.closings == 0 }

  ghost predicate TokensOk(s: Node) {
    forall g :: g in s.workers ==> TokenOk(s.workers[g], Gone(s))
  }

  lemma SteppedTokenOk(s: Node, w: Worker, done: bool, ok: bool)
    requires TokenOk(w, Gone(s)) && !w.pc.Exiting? && (w.pc.Monitoring? && ok ==> w.token)
    ensures TokenOk(Stepped(w, done, s.conns > 0, ok), Gone(s))
  {
  }

  lemma WorkKeepsTokens(s: Node, g: nat, ok: bool)
    requires TokensOk(s) && Enabled(s, Work(g, ok))
    ensures TokensOk(WorkerStep(s, g, ok))
  {
    hide Stepped, TokenOk;
    var w := s.workers[g];
    if !w.pc.Exiting? {
      SteppedTokenOk(s, w, Done(s, g), ok);
    }
  }

  lemma TokensStep(s: Node, st: Step)
    requires TokensOk(s) && Enabled(s, st)
    ensures TokensOk(Next(s, st))
  {
    if st.Work? {
      WorkKeepsTokens(s, st.g, st.ok);
    } else if st.Delivered? {
      forall g | g in s.workers
        ensures TokenOk(Next(s, st).workers[g], Gone(Next(s, st)))
      {
        assert TokenOk(s.workers[g], Gone(s));
      }
    }
  }

  lemma {:induction false} TokensAlways(s: Node, trace: seq<Step>)
    requires TokensOk(s) && Legal(s, trace)
    ensures TokensOk(Exec(s, trace))
  {
    if trace != [] {
      TokensAlways(s, trace[..|trace| - 1]);
      TokensStep(Exec(s, trace[..|trace| - 1]), trace[|trace| - 1]);
    }
  }

  /** No lost disconnect, over every run: the channel is empty whenever the loop comes
      round, so that the callback's send is never dropped; and as long as a worker
      waits while its peer is gone, either the token is there to be taken, or the
      disconnection is still to be delivered, and its delivery puts the token there; and
      so does any delivery to a worker that has its callback registered. */
  lemma {:induction false} NoLostDisconnect(s: Node, trace: seq<Step>, g: nat)
    requires TokensOk(s) && Legal(s, trace) && g in Exec(s, trace).workers
    ensures TokensOk(Exec(s, trace))
    ensures var t := Exec(s, trace);
            && (t.workers[g].pc.Head? ==> !t.workers[g].token)
            && (t.workers[g].pc.Monitoring? && t.conns == 0 ==>
                  || Enabled(t, Work(g, true))
                  || (Enabled(t, Delivered) && Enabled(Next(t, Delivered), Work(g, true))))
            && (t.closings > 0 && t.workers[g].pc in {Noticing, Marked, Monitoring} ==>
                  g in Next(t, Delivered).workers && Next(t, Delivered).workers[g].token)
  {
    TokensAlways(s, trace);
    var t := Exec(s, trace);
    assert TokenOk(t.workers[g], Gone(t));
  }

  // ------------------------------------------------------------- the flag

  predicate Raised(w: Worker) { w.pc.Marked? || w.pc.Monitoring? || w.pc.Leaving? }

  /** The worker has raised the connected flag and not lowered it yet. */
  predicate Watches(s: Node, g: nat) {
    g in s.workers && Raised(s.workers[g])
  }

  ghost predicate FlagExact(s: Node) {
    s.connected <==> exists g :: Watches(s, g)
  }

  lemma SteppedRaised(w: Worker, done: bool, connected: bool, ok: bool)
    requires !w.pc.Exiting?
    ensures Raised(Stepped(w, done, connected, ok)) <==> w.pc.Noticing? || (Raised(w) && !w.pc.Leaving?)
  {
  }

  lemma WatchesStep(s: Node, st: Step, h: nat)
    requires Enabled(s, st) && forall g :: g in s.workers ==> g < s.next
    ensures Watches(Next(s, st), h) <==>
            if st.Work? && st.g == h && s.workers[h].pc.Noticing? then true
            else Watches(s, h) && !(st.Work? && st.g == h && s.workers[h].pc.Leaving?)
  {
    if st.Work? {
      hide Stepped, Lowers;
      var w := s.workers[st.g];
      if !w.pc.Exiting? {
        SteppedRaised(w, Done(s, st.g), s.conns > 0, st.ok);
      }
    }
  }

  /** Whether the step lowers the flag: a worker leaves its wait for the peer to go, or has
      failed to connect and has not been told to stop. */
  predicate LowersFlag(s: Node, st: Step) {
    && st.Work? && st.g in s.workers
    && (s.workers[st.g].pc.Leaving? || (s.workers[st.g].pc.Connecting? && !st.ok && !Done(s, st.g)))
  }

  /** A step keeps the flag true to whether some worker watches the peer if and only if
      it does not lower it while another worker still does. */
  lemma StepKeepsFlagIff(s: Node, st: Step)
    requires FlagExact(s) && Enabled(s, st)
    requires forall g :: g in s.workers ==> g < s.next
    ensures FlagExact(Next(s, st)) <==> !(LowersFlag(s, st) && exists h :: h != st.g && Watches(s, h))
  {
    var t := Next(s, st);
    forall h
      ensures Watches(t, h) <==>
              if st.Work? && st.g == h && s.workers[h].pc.Noticing? then true
              else Watches(s, h) && !(st.Work? && st.g == h && s.workers[h].pc.Leaving?)
    {
      WatchesStep(s, st, h);
    }
    if LowersFlag(s, st) {
      assert !t.connected;
      assert forall h :: Watches(t, h) <==> Watches(s, h) && h != st.g;
    } else if st.Work? && s.workers[st.g].pc.Noticing? {
      assert t.connected && Watches(t, st.g);
    } else {
      assert t.connected == s.connected;
      assert forall h :: Watches(t, h) <==> Watches(s, h);
    }
  }

  /** The flag never claims a watch that nobody keeps, on any run. */
  lemma {:induction false} FlagNeverOverclaims(trace: seq<Step>)
    requires Legal(START, trace)
    ensures var s := Exec(START, trace);
            && (forall g :: g in s.workers ==> g < s.next)
            && (s.connected ==> exists g :: Watches(s, g))
  {
    if trace != [] {
      var init, last := trace[..|trace| - 1], trace[|trace| - 1];
      FlagNeverOverclaims(init);
      OneWorkerAtMost(trace);
      var s, t := Exec(START, init), Exec(START, trace);
      if t.connected {
        if s.connected {
          var g :| Watches(s, g);
          WatchesStep(s, last, g);
        } else {
          WatchesStep(s, last, last.g);
        }
      }
    }
  }

  lemma OnlyOne(m: map<nat, Worker>, g: nat)
    requires g in m && |m| <= 1
    ensures forall h :: h in m ==> h == g
  {
    assert |m.Keys - {g}| == 0;
  }

  lemma SmallMap(m: map<nat, Worker>, n: map<nat, Worker>)
    requires n.Keys <= m.Keys && |m| <= 1
    ensures |n| <= 1
  {
    assert m.Keys == n.Keys + (m.Keys - n.Keys);
  }

  ghost predicate Alone(s: Node) {
    Identities(s) && FlagExact(s) && |s.workers| <= 1
  }

  lemma AloneStep(s: Node, st: Step)
    requires Alone(s) && Enabled(s, st) && (st.Connect? ==> s.workers == map[])
    ensures Alone(Next(s, st))
  {
    hide FlagExact, Stepped;
    IdentitiesStep(s, st);
    StepKeepsFlagIff(s, st);
    if LowersFlag(s, st) {
      OnlyOne(s.workers, st.g);
    }
    if !st.Connect? {
      SmallMap(s.workers, Next(s, st).workers);
    }
  }

  /** If no worker is ever started while another one is still there, as when every
      connect waits for the disconnect before it to return, the flag is exact. */
  lemma {:induction false} FlagExactAlone(trace: seq<Step>)
    requires Legal(START, trace)
    requires forall k :: 0 <= k < |trace| && trace[k].Connect? ==> Exec(START, trace[..k]).workers == map[]
    ensures Alone(Exec(START, trace))
  {
    if trace != [] {
      var init := trace[..|trace| - 1];
      assert forall k :: 0 <= k < |init| ==> init[..k] == trace[..k] && init[k] == trace[k];
      FlagExactAlone(init);
      AloneStep(Exec(START, init), trace[|trace| - 1]);
    }
  }

  /** The state is reached by a run. */
  ghost predicate Reached(s: Node) {
    exists trace :: Legal(START, trace) && Exec(START, trace) == s
  }

  lemma ReachesNext(s: Node, st: Step)
    requires Reached(s) && Enabled(s, st)
    ensures Reached(Next(s, st))
  {
    var trace :| Legal(START, trace) && Exec(START, trace) == s;
    OneMore(START, trace, st);
    assert Legal(START, trace + [st]) && Exec(START, trace + [st]) == Next(s, st);
  }

  /** The worker `g` at some point of its loop, with a fresh channel. */
  function With(s: Node, g: nat, id: Id, pc: Pc): Node {
    s.(workers := s.workers[g := Worker(id, pc, false, false)])
  }

  lemma UpOne(s: Node, g: nat, id: Id, pc: Pc, up: Pc)
    requires Reached(With(s, g, id, pc)) && !Done(s, g) && s.conns > 0
    requires (pc, up) in {(Head, Connecting), (Connecting, Found), (Found, Noticing), (Noticing, Marked),
                          (Marked, Monitoring)}
    ensures Reached(With(s, g, id, up).(connected := s.connected || pc == Noticing))
  {
    hide Reached;
    var t := With(s, g, id, pc);
    ReachesNext(t, Work(g, true));
    assert Next(t, Work(g, true)).workers == With(s, g, id, up).workers;
  }

  /** A worker at its loop's head, with the peer there, comes to watch it. */
  lemma Climbs(s: Node, g: nat, id: Id)
    requires Reached(With(s, g, id, Head)) && !Done(s, g) && s.conns > 0
    ensures Reached(With(s, g, id, Monitoring).(connected := true))
  {
    hide Reached;
    UpOne(s, g, id, Head, Connecting);
    UpOne(s, g, id, Connecting, Found);
    UpOne(s, g, id, Found, Noticing);
    UpOne(s, g, id, Noticing, Marked);
    UpOne(s.(connected := true), g, id, Marked, Monitoring);
  }

  /** The node with a new worker that watches the peer. */
  function Joined(s: Node, id: Id): Node {
    With(s, s.next, id, Monitoring).(active := true, cancel := Some(s.next), workerID := id, next := s.next + 1,
                                    connected := true)
  }

  lemma Joins(s: Node, id: Id)
    requires Reached(s) && Enabled(s, Connect(Some(id))) && s.hasAddr && !s.active
    requires s.conns > 0 && !Done(s, s.next)
    ensures Reached(Joined(s, id))
  {
    hide Reached;
    ReachesNext(s, Connect(Some(id)));
    var t := Next(s, Connect(Some(id)));
    assert t == With(t, s.next, id, Head);
    Climbs(t, s.next, id);
    assert With(t, s.next, id, Monitoring).workers == Joined(s, id).workers;
  }

  /** A worker that is told to stop while it watches lowers the flag. */
  lemma Replaced(d: Node) returns (s: Node)
    requires Reached(d) && 0 in d.telling && 0 in d.workers && d.workers[0].pc.Monitoring?
    ensures Reached(s) && s == d.(telling := d.telling - {0}, told := d.told + {0}, connected := false,
                                  workers := d.workers[0 := d.workers[0].(pc := Exiting)])
  {
    hide Reached;
    var e := Next(d, Tell(0));
    ReachesNext(d, Tell(0));
    ReachesNext(e, Work(0, false));
    ReachesNext(Next(e, Work(0, false)), Work(0, true));
    s := Next(Next(e, Work(0, false)), Work(0, true));
    assert s.workers == d.workers[0 := d.workers[0].(pc := Exiting)];
  }

  /** The node once its first worker watches the peer. */
  const WATCHED := Node(true, true, Some(0), 1, map[0 := Worker(1, Monitoring, false, false)],
                        1, {}, {}, false, 1, 0, true)

  lemma FirstWorkerWatches()
    ensures Reached(WATCHED)
  {
    assert Legal(START, []) && Exec(START, []) == START;
    hide Reached, Exec, Legal, WorkerStep;
    ReachesNext(START, Opened);
    Joins(Next(START, Opened), 1);
    assert Joined(Next(START, Opened), 1).workers == WATCHED.workers;
  }

  /** Without that the flag can be wrong: a worker that has been replaced lowers it on
      its way out, although its successor is watching the connected peer. */
  lemma ReplacedWorkerLowersFlag() returns (s: Node)
    ensures Reached(s)
    ensures s.conns == 1 && s.closings == 0 && s.active && s.cancel == Some(1) && Watches(s, 1) && !s.connected
  {
    hide Reached, WorkerStep;
    FirstWorkerWatches();
    ReachesNext(WATCHED, Detach);
    var c := Next(WATCHED, Detach);
    Joins(c, 2);
    s := Replaced(Joined(c, 2));
  }
}

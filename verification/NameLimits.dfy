/** What the name cache does not promise: concrete runs beside the exact conditions of
    `NameRuns`. */
module NameLimits {
  import opened Options
  import opened Recency
  import opened IpfsPath
  import opened NameCache
  import opened NameRuns

  const NAME := Path(["ipns", "n"])
  const OLD := Result(Path(["ipfs", "c"]), 0, 0)
  const NEW := Result(Path(["ipfs", "e"]), 0, 0)
  const WINDOW := Config(10, false, false)
  const NOBODY := Names(Lru([], map[], 1), map[], {}, map[], map[], {}, 0, [])

  /** The name stands for the old root, and answers can take five units of time. */
  const FIRST := Sys(NOBODY, 0, map[Key(NAME) := OLD], map[], [], Delay(5, 0))

  /** The old root is answered, the name changes, the answer arrives at the last moment
      it can, and time passes. */
  const LATE: seq<Step> := [Sent(NAME, Request), Published(NAME, NEW), Elapse(5), Arrives(0), Elapse(9)]

  /** What the run leaves on the way. */
  const ANSWERED := FIRST.(flights := [Flight(NAME, OLD, 0, Request)])
  const CHANGED := ANSWERED.(roots := map[Key(NAME) := NEW], changed := map[Key(NAME) := 0])

  lemma NamesAreValid()
    ensures Valid(NAME.segments) && TwoSegments(OLD) && TwoSegments(NEW)
    ensures WithSub(OLD, NAME) == OLD && Uncached(OLD, NAME) == OLD && Strip(OLD) == OLD
  {
    assert OLD.path.segments + NAME.segments[2..] == OLD.path.segments;
  }

  const LATER := CHANGED.(now := 5)

  lemma NameChanges()
    ensures Next(FIRST, WINDOW, LATE[0]) == ANSWERED && Next(ANSWERED, WINDOW, LATE[1]) == CHANGED
    ensures Next(CHANGED, WINDOW, LATE[2]) == LATER
  {
    hide Valid, Key;
    assert [] + [Flight(NAME, OLD, 0, Request)] == [Flight(NAME, OLD, 0, Request)];
  }

  lemma AllEnabled()
    ensures Enabled(FIRST, LATE[0]) && Enabled(ANSWERED, LATE[1]) && Enabled(CHANGED, LATE[2])
    ensures Enabled(LATER, LATE[3]) && Enabled(Next(LATER, WINDOW, LATE[3]), LATE[4])
  {
    NamesAreValid();
    hide Valid, Key, Take;
  }

  /** The run so far is legal and has led here. */
  ghost predicate At(trace: seq<Step>, s: Sys) {
    Legal(FIRST, WINDOW, trace) && Exec(FIRST, WINDOW, trace) == s
  }

  lemma OneMore(trace: seq<Step>, s: Sys, st: Step, more: seq<Step>)
    requires At(trace, s) && Enabled(s, st) && more == trace + [st]
    ensures At(more, Next(s, WINDOW, st))
  {
    assert more[..|more| - 1] == trace;
  }

  /** Two steps more, from any point of the run. */
  lemma TwoMore(trace: seq<Step>, s: Sys, first: Step, second: Step)
    requires At(trace, s) && Enabled(s, first) && Enabled(Next(s, WINDOW, first), second)
    ensures At(trace + [first, second], Next(Next(s, WINDOW, first), WINDOW, second))
  {
    hide At, Enabled, Next;
    OneMore(trace, s, first, trace + [first]);
    assert trace + [first] + [second] == trace + [first, second];
    OneMore(trace + [first], Next(s, WINDOW, first), second, trace + [first, second]);
  }

  lemma LateBegins()
    ensures At(LATE[..3], LATER)
  {
    hide Enabled, Next, Take, Key, Text;
    assert At([], FIRST);
    hide At, Legal, Exec;
    NameChanges();
    AllEnabled();
    TwoMore([], FIRST, LATE[0], LATE[1]);
    assert LATE[..3] == [] + [LATE[0], LATE[1]] + [LATE[2]];
    OneMore([] + [LATE[0], LATE[1]], CHANGED, LATE[2], LATE[..3]);
  }

  lemma LateEnds()
    ensures At(LATE, Next(Next(LATER, WINDOW, LATE[3]), WINDOW, LATE[4]))
  {
    LateBegins();
    AllEnabled();
    hide At, Enabled, Next;
    TwoMore(LATE[..3], LATER, LATE[3], LATE[4]);
    assert LATE == LATE[..3] + [LATE[3], LATE[4]];
  }

  /** A legal run in which an answer from before a change is cached after it, and is
      served as fresh for longer after the change than the fresh window. */
  lemma OldRootOutlivesWindow()
    ensures Legal(FIRST, WINDOW, LATE) && Outdated(Exec(FIRST, WINDOW, LATE[..3]), LATE[3])
    ensures var t := Exec(FIRST, WINDOW, LATE);
            && LookUp(t.n, WINDOW, t.now, NAME).1 == Fresh(OLD)
            && Key(NAME) in t.roots && t.roots[Key(NAME)] == NEW
            && Key(NAME) in t.changed && t.now - t.changed[Key(NAME)] >= WINDOW.freshTTL
  {
    NamesAreValid();
    LateBegins();
    LateEnds();
    hide Valid, Key, Strip, WithSub, Uncached, Legal, Exec;
    var n := Learn(NOBODY, WINDOW, 5, NAME, OLD);
    assert Next(LATER, WINDOW, Arrives(0)).n == n;
    assert n.stale.vals == map[Key(NAME) := Stale(OLD, 5)];
  }

  const TWO: Redis := map["a" := Record(Text(["ipfs", "c"]), 0, 0, 0), "b" := Record(Text(["ipfs", "e"]), 0, 0, 0)]

  lemma BothParse()
    ensures forall key :: key in TWO ==> FromRecord(TWO[key]).Some?
  {
    assert Valid(["ipfs", "c"]) && Valid(["ipfs", "e"]);
    hide Valid, Text, NewPath;
    ParsesBack(["ipfs", "c"]);
    ParsesBack(["ipfs", "e"]);
  }

  /** Two stored names, both sound, and room for one: after the load, the other is in
      the persistent store only. */
  lemma OverflowingLoadKeepsNames()
    ensures var n := Open(TWO, Config(10, true, false), 1, ["a", "b"]);
            && (forall key :: key in TWO ==> FromRecord(TWO[key]).Some?)
            && n.redis == TWO && !SameNames(n)
  {
    BothParse();
    assert Distinct(["a", "b"]) && forall key :: key in ["a", "b"] <==> key in TWO;
    assert TWO.Keys == {"a", "b"};
    LoadHoldsAllIff(TWO, 1, ["a", "b"]);
  }
}

/** The portal's durable journal of website changes and the contract of one
    page of it. The journal lives in the portal; here it is the history against
    which the gateway's replay is judged. */
module Journal {

  datatype Kind = Published | Removed | Other

  /** One change. An absent CID is the empty string. */
  datatype Event = Event(id: int, kind: Kind, domain: string, cid: string) {
    /** Replaying the event drops the domain's cached status. */
    predicate Invalidates() { !kind.Other? && domain != "" }

    /** Replaying the event submits its CID for prewarming. */
    predicate Prewarms() { kind.Published? && domain != "" && cid != "" }
  }

  /** Ids grow along the journal and are positive, up to the last one given out. */
  ghost predicate Ordered(j: seq<Event>, head: int) {
    && 0 <= head
    && (forall i :: 0 <= i < |j| ==> 0 < j[i].id <= head)
    && (forall i, k :: 0 <= i < k < |j| ==> j[i].id < j[k].id)
  }

  /** The events with an id in (lo, hi], in journal order. */
  function Between(j: seq<Event>, lo: int, hi: int): seq<Event> {
    if j == [] then []
    else
      var last := j[|j| - 1];
      Between(j[..|j| - 1], lo, hi) + (if lo < last.id <= hi then [last] else [])
  }

  /** A page of the journal as the portal returns it. */
  datatype Page = Page(events: seq<Event>, mark: int, truncated: bool)

  /** A page requested after `after` holds exactly the events up to its mark,
      and the mark is an id the journal has reached. */
  ghost predicate Honest(j: seq<Event>, head: int, after: int, p: Page) {
    p.mark <= head && p.events == Between(j, after, p.mark)
  }

  /** A truncated page makes progress and an untruncated one reaches the end. */
  ghost predicate Draining(head: int, after: int, p: Page) {
    if p.truncated then p.mark > after else p.mark == head
  }

  lemma {:induction false} BetweenMembers(j: seq<Event>, lo: int, hi: int)
    ensures forall e :: e in Between(j, lo, hi) <==> e in j && lo < e.id <= hi
  {
    if j != [] {
      BetweenMembers(j[..|j| - 1], lo, hi);
      assert j == j[..|j| - 1] + [j[|j| - 1]];
    }
  }

  lemma {:induction false} BetweenEmpty(j: seq<Event>, lo: int, hi: int)
    requires forall i :: 0 <= i < |j| ==> j[i].id <= lo
    ensures Between(j, lo, hi) == []
  {
    if j != [] {
      BetweenEmpty(j[..|j| - 1], lo, hi);
    }
  }

  /** A stretch of the journal is the stretch up to any middle mark followed by
      the stretch after it: nothing is lost or repeated at a page boundary. */
  lemma {:induction false} BetweenSplits(j: seq<Event>, head: int, lo: int, mid: int, hi: int)
    requires Ordered(j, head) && lo <= mid <= hi
    ensures Between(j, lo, mid) + Between(j, mid, hi) == Between(j, lo, hi)
  {
    if j != [] {
      var init, last := j[..|j| - 1], j[|j| - 1];
      var tail := if lo < last.id <= hi then [last] else [];
      assert forall i :: 0 <= i < |init| ==> init[i] == j[i];
      BetweenSplits(init, head, lo, mid, hi);
      var a, b := Between(init, lo, mid), Between(init, mid, hi);
      if last.id <= mid {
        BetweenEmpty(init, mid, hi);
        assert Between(j, lo, mid) + Between(j, mid, hi) == a + tail;
        assert a + b == a;
      } else {
        assert Between(j, lo, mid) == a;
        assert a + (b + tail) == (a + b) + tail;
      }
    }
  }

  /** Changes journaled later, above the mark, do not disturb a replayed stretch. */
  lemma BetweenStable(j: seq<Event>, e: Event, lo: int, hi: int)
    requires hi < e.id
    ensures Between(j + [e], lo, hi) == Between(j, lo, hi)
  {
    assert (j + [e])[..|j|] == j;
  }
}

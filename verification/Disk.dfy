/** The cache directory: block files in two layouts, their total size, and what is
    freed by removing files in a given order until enough has been freed. */
module Disk {
  import opened Options
  import opened Recency

  newtype byte = x: int | 0 <= x < 256

  type Bytes = seq<byte>

  type Cid = string

  /** A block's file in the hashed directory structure or in the older flat one.
      The hashed path is taken to be injective and apart from every flat path. */
  datatype Path = Hashed(cid: Cid) | Flat(cid: Cid)

  type Files = map<Path, Bytes>

  /** The sum of all file sizes. */
  ghost function Total(d: Files): nat
    decreases |d.Keys|
  {
    if d == map[] then 0
    else
      var p :| p in d;
      assert (d - {p}).Keys == d.Keys - {p};
      |d[p]| + Total(d - {p})
  }

  lemma {:induction false} TotalRemove(d: Files, p: Path)
    requires p in d
    ensures Total(d) == |d[p]| + Total(d - {p})
    decreases |d.Keys|
  {
    var q :| q in d && Total(d) == |d[q]| + Total(d - {q});
    if q != p {
      assert (d - {q}).Keys == d.Keys - {q} && (d - {p}).Keys == d.Keys - {p};
      TotalRemove(d - {q}, p);
      TotalRemove(d - {p}, q);
      assert d - {q} - {p} == d - {p} - {q};
    }
  }

  lemma TotalWrite(d: Files, p: Path, b: Bytes)
    ensures Total(d[p := b]) == Total(d - {p}) + |b|
  {
    TotalRemove(d[p := b], p);
    assert d[p := b] - {p} == d - {p};
  }

  function Elems(ps: seq<Path>): set<Path> {
    set p | p in ps
  }

  // -------------------------------------------------- removing in order

  /** Whether a target leads to a file that can be removed. */
  predicate Goes(d: Files, stuck: set<Path>, t: Option<Path>) {
    t.Some? && t.value in d && t.value !in stuck
  }

  /** The bytes freed by the attempt to remove each target. */
  function Sum(d: Files, stuck: set<Path>, ts: seq<Option<Path>>): nat {
    if ts == [] then 0
    else Sum(d, stuck, ts[..|ts| - 1])
         + (if Goes(d, stuck, ts[|ts| - 1]) then |d[ts[|ts| - 1].value]| else 0)
  }

  /** The files removed, in order. */
  function Gone(d: Files, stuck: set<Path>, ts: seq<Option<Path>>): seq<Path> {
    if ts == [] then []
    else Gone(d, stuck, ts[..|ts| - 1])
         + (if Goes(d, stuck, ts[|ts| - 1]) then [ts[|ts| - 1].value] else [])
  }

  /** How many targets are attempted, from the `i`-th on, until `n` bytes are
      freed: the shortest prefix that frees `n`, or all of them. */
  function CutFrom(d: Files, stuck: set<Path>, ts: seq<Option<Path>>, n: int, i: nat): (k: nat)
    requires i <= |ts|
    ensures i <= k <= |ts|
    ensures k < |ts| ==> Sum(d, stuck, ts[..k]) >= n
    ensures forall m :: i <= m < k ==> Sum(d, stuck, ts[..m]) < n
    decreases |ts| - i
  {
    if i == |ts| || Sum(d, stuck, ts[..i]) >= n then i else CutFrom(d, stuck, ts, n, i + 1)
  }

  function Cut(d: Files, stuck: set<Path>, ts: seq<Option<Path>>, n: int): nat {
    CutFrom(d, stuck, ts, n, 0)
  }

  ghost predicate Apart(ts: seq<Option<Path>>) {
    forall i, k :: 0 <= i < k < |ts| && ts[i].Some? ==> ts[i] != ts[k]
  }

  lemma SumNext(d: Files, stuck: set<Path>, ts: seq<Option<Path>>, i: nat)
    requires i < |ts|
    ensures Sum(d, stuck, ts[..i + 1])
            == Sum(d, stuck, ts[..i]) + (if Goes(d, stuck, ts[i]) then |d[ts[i].value]| else 0)
    ensures Gone(d, stuck, ts[..i + 1])
            == Gone(d, stuck, ts[..i]) + (if Goes(d, stuck, ts[i]) then [ts[i].value] else [])
  {
    assert ts[..i + 1][..i] == ts[..i];
  }

  lemma {:induction false} GoneFacts(d: Files, stuck: set<Path>, ts: seq<Option<Path>>)
    requires Apart(ts)
    ensures Distinct(Gone(d, stuck, ts))
    ensures forall p :: p in Gone(d, stuck, ts) <==> Goes(d, stuck, Some(p)) && Some(p) in ts
    ensures Total(d) == Total(d - Elems(Gone(d, stuck, ts))) + Sum(d, stuck, ts)
  {
    if ts == [] {
      assert d - Elems([]) == d;
    } else {
      var init, t := ts[..|ts| - 1], ts[|ts| - 1];
      assert ts == init + [t];
      GoneFacts(d, stuck, init);
      var g := Gone(d, stuck, init);
      if Goes(d, stuck, t) {
        var left := d - Elems(g);
        TotalRemove(left, t.value);
        assert d - Elems(g + [t.value]) == left - {t.value};
      } else {
        assert Gone(d, stuck, ts) == g;
      }
    }
  }
}

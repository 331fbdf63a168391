/** Content paths, the key a path is cached under, and taking a resolved path apart
    from the sub-path of the request and putting it back. Trailing slashes, path
    cleaning and the syntax of CIDs belong to the path library and are not modelled. */
module IpfsPath {
  import opened Options

  /** A path such as /ipns/name/a/b, by its segments. */
  datatype Path = Path(segments: seq<string>)

  predicate CleanSegment(s: string) { s != "" && '/' !in s }

  predicate Valid(segs: seq<string>) {
    && |segs| >= 2 && segs[0] in {"ipfs", "ipns", "ipld"}
    && (forall s :: s in segs ==> CleanSegment(s))
  }

  // ------------------------------------------------------ paths as text

  function Text(segs: seq<string>): string {
    if segs == [] then "" else "/" + segs[0] + Text(segs[1..])
  }

  /** The part of `s` before its first slash. */
  function Head(s: string): (h: string)
    ensures |h| <= |s|
  {
    if s == "" || s[0] == '/' then "" else [s[0]] + Head(s[1..])
  }

  /** The segments of a text that is empty or starts with a slash. */
  function Split(s: string): seq<string>
    decreases |s|
  {
    if s == "" then []
    else
      var h := Head(s[1..]);
      [h] + Split(s[1 + |h|..])
  }

  function NewPath(s: string): Option<Path> {
    if s == "" || s[0] != '/' || !Valid(Split(s)) then None else Some(Path(Split(s)))
  }

  function FromSegments(segs: seq<string>): Option<Path> {
    NewPath(Text(segs))
  }

  function Show(p: Path): string { Text(p.segments) }

  lemma {:induction false} HeadOf(a: string, rest: string)
    requires '/' !in a && (rest == "" || rest[0] == '/')
    ensures Head(a + rest) == a
  {
    if a == "" {
      assert a + rest == rest;
    } else {
      assert (a + rest)[1..] == a[1..] + rest;
      HeadOf(a[1..], rest);
      assert a == [a[0]] + a[1..];
    }
  }

  /** Reading a path's text back gives the path. */
  lemma {:induction false} SplitText(segs: seq<string>)
    requires forall s :: s in segs ==> CleanSegment(s)
    ensures Split(Text(segs)) == segs
  {
    if segs != [] {
      var t := Text(segs);
      assert segs[0] in segs;
      HeadOf(segs[0], Text(segs[1..]));
      assert t[1..] == segs[0] + Text(segs[1..]);
      assert t[1 + |segs[0]|..] == Text(segs[1..]);
      SplitText(segs[1..]);
      assert segs == [segs[0]] + segs[1..];
    }
  }

  lemma {:induction false} HeadIsPrefix(s: string)
    ensures s[..|Head(s)|] == Head(s)
    ensures |Head(s)| < |s| ==> s[|Head(s)|] == '/'
  {
    if s != "" && s[0] != '/' {
      HeadIsPrefix(s[1..]);
    }
  }

  /** The text of a path's segments is the text they were read from. */
  lemma {:induction false} TextSplit(s: string)
    requires s == "" || s[0] == '/'
    ensures Text(Split(s)) == s
    decreases |s|
  {
    if s != "" {
      var h := Head(s[1..]);
      HeadIsPrefix(s[1..]);
      assert s == "/" + (h + s[1 + |h|..]);
      TextSplit(s[1 + |h|..]);
    }
  }

  lemma ParsesBack(segs: seq<string>)
    requires Valid(segs)
    ensures FromSegments(segs) == Some(Path(segs))
  {
    SplitText(segs);
  }

  // -------------------------------------------------- keys and sub-paths

  datatype Result = Result(path: Path, ttl: int, lastMod: int)

  /** The key of a path: its namespace and name. */
  function Key(p: Path): string {
    var rp := if |p.segments| >= 2 then FromSegments(p.segments[..2]) else None;
    if rp.Some? then Show(rp.value) else Show(p)
  }

  function Strip(r: Result): Result {
    if |r.path.segments| <= 2 then r
    else
      match FromSegments(r.path.segments[..2])
      case None => r
      case Some(base) => r.(path := base)
  }

  function WithSub(r: Result, original: Path): Result {
    if |original.segments| <= 2 then r
    else
      match FromSegments(r.path.segments + original.segments[2..])
      case None => r
      case Some(joined) => r.(path := joined)
  }

  /** What uncached resolution answers for a path whose name stands for `root`. */
  function Uncached(root: Result, p: Path): Result
    requires |p.segments| >= 2
  {
    root.(path := Path(root.path.segments + p.segments[2..]))
  }

  lemma KeyIsName(p: Path)
    requires Valid(p.segments)
    ensures Key(p) == Text(p.segments[..2]) && NewPath(Key(p)) == Some(Path(p.segments[..2]))
  {
    ParsesBack(p.segments[..2]);
  }

  /** Two paths share a key exactly when they share namespace and name: nothing is
      ever served under another name. */
  lemma KeysNeverLeak(p: Path, q: Path)
    requires Valid(p.segments) && Valid(q.segments)
    ensures Key(p) == Key(q) <==> p.segments[..2] == q.segments[..2]
  {
    KeyIsName(p);
    KeyIsName(q);
  }

  /** Stripping the request's sub-path from an answer and joining it back gives the
      answer again if and only if the name stands for a path of exactly two
      segments; a longer root loses its own sub-path in the cache. */
  lemma StripThenRejoinIff(root: Result, p: Path)
    requires Valid(root.path.segments) && Valid(p.segments)
    ensures WithSub(Strip(Uncached(root, p)), p) == Uncached(root, p) <==> |root.path.segments| == 2
  {
    var rs, rest := root.path.segments, p.segments[2..];
    ParsesBack(rs[..2]);
    assert (rs + rest)[..2] == rs[..2];
    assert Valid(rs[..2] + rest);
    ParsesBack(rs[..2] + rest);
    if |rs| == 2 {
      assert rs[..2] == rs;
    }
    if rest == [] {
      assert rs + rest == rs;
    }
  }

  /** A name that stands for a directory inside a root: from the cache it is served as
      that root itself. */
  lemma LongRootLosesSubPath()
    ensures var root := Result(Path(["ipfs", "c", "a"]), 0, 0);
            var p := Path(["ipns", "n", "x"]);
            && Uncached(root, p).path == Path(["ipfs", "c", "a", "x"])
            && WithSub(Strip(Uncached(root, p)), p).path == Path(["ipfs", "c", "x"])
  {
    var root, p := Result(Path(["ipfs", "c", "a"]), 0, 0), Path(["ipns", "n", "x"]);
    assert Valid(["ipfs", "c"]) && Valid(["ipfs", "c", "x"]);
    hide Valid, NewPath, FromSegments;
    assert p.segments[2..] == ["x"] && (root.path.segments + ["x"])[..2] == ["ipfs", "c"];
    ParsesBack(["ipfs", "c"]);
    ParsesBack(["ipfs", "c", "x"]);
    assert ["ipfs", "c"] + ["x"] == ["ipfs", "c", "x"];
  }

  /** What the cache then serves for any sub-path of the same name. */
  lemma ServesSubPath(root: Result, p: Path, q: Path)
    requires Valid(root.path.segments) && |root.path.segments| == 2
    requires Valid(p.segments) && Valid(q.segments)
    ensures Strip(Uncached(root, p)) == root && WithSub(root, q) == Uncached(root, q)
  {
    var rs := root.path.segments;
    ParsesBack(rs);
    assert (rs + p.segments[2..])[..2] == rs;
    if |p.segments| == 2 {
      assert rs + p.segments[2..] == rs;
    }
    if |q.segments| == 2 {
      assert rs + q.segments[2..] == rs;
    } else {
      ParsesBack(rs + q.segments[2..]);
    }
  }
}

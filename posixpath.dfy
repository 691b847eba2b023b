/**
 * The POSIX flavour of Node's `path` module, as far as `safeJoinPath` and the
 * static-path setter use it: `normalize`, `join` and `resolve` over
 * '/'-separated segments.
 *
 * Node's `normalizeString` scans characters; here it is the equivalent fold
 * over the segments of `path.split('/')`: empty and "." segments vanish, ".."
 * removes the segment before it when there is one (that is not itself ".."),
 * and is kept only when a relative path may climb above its start.
 */
module PosixPath {
  import opened JsStrings

  const Slash: Unit := 47
  const Dot: Unit := 46

  /** `s.split('/')`: the pieces between slashes, always at least one. */
  function Split(s: JsString): (r: seq<JsString>)
    ensures |r| >= 1
    ensures forall i :: 0 <= i < |r| ==> Slash !in r[i]
  {
    if s == [] then [[]]
    else
      var rest := Split(s[1..]);
      if s[0] == Slash then [[]] + rest
      else [[s[0]] + rest[0]] + rest[1..]
  }

  /** `segments.join('/')`. */
  function JoinSegs(segs: seq<JsString>): JsString {
    if segs == [] then []
    else if |segs| == 1 then segs[0]
    else segs[0] + [Slash] + JoinSegs(segs[1..])
  }

  /** A segment normalisation keeps as it is: not empty, not ".", not "..". */
  predicate Plain(seg: JsString) {
    seg != [] && seg != [Dot] && seg != [Dot, Dot] && Slash !in seg
  }

  predicate AllPlain(segs: seq<JsString>) {
    forall i :: 0 <= i < |segs| ==> Plain(segs[i])
  }

  /** What `normalizeString` does with one more segment. */
  function Step(stack: seq<JsString>, seg: JsString, allowAboveRoot: bool): seq<JsString> {
    if seg == [] || seg == [Dot] then stack
    else if seg == [Dot, Dot] then
      if |stack| > 0 && stack[|stack| - 1] != [Dot, Dot] then stack[..|stack| - 1]
      else if allowAboveRoot then stack + [seg]
      else stack
    else stack + [seg]
  }

  /** The segments left after processing `segs`, left to right, on top of `stack`. */
  function NormFrom(stack: seq<JsString>, segs: seq<JsString>, allowAboveRoot: bool): seq<JsString>
    decreases |segs|
  {
    if segs == [] then stack else NormFrom(Step(stack, segs[0], allowAboveRoot), segs[1..], allowAboveRoot)
  }

  /** `normalizeString(path, allowAboveRoot)`. */
  function NormalizeString(p: JsString, allowAboveRoot: bool): JsString {
    JoinSegs(NormFrom([], Split(p), allowAboveRoot))
  }

  predicate IsAbsolute(p: JsString) {
    |p| > 0 && p[0] == Slash
  }

  /** `path.normalize(p)`. */
  function Normalize(p: JsString): (r: JsString)
    ensures |r| > 0
    ensures IsAbsolute(p) ==> IsAbsolute(r)
  {
    if p == [] then [Dot]
    else
      var absolute := p[0] == Slash;
      var trailingSeparator := p[|p| - 1] == Slash;
      var n := NormalizeString(p, !absolute);
      if n == [] then
        if absolute then [Slash] else if trailingSeparator then [Dot, Slash] else [Dot]
      else
        (if absolute then [Slash] else []) + n + (if trailingSeparator then [Slash] else [])
  }

  /** `path.join(a, b)`: the non-empty arguments joined with '/', then normalised. */
  function Join(a: JsString, b: JsString): (r: JsString)
    ensures IsAbsolute(a) ==> IsAbsolute(r)
  {
    if a == [] && b == [] then [Dot]
    else Normalize(if a == [] then b else if b == [] then a else a + [Slash] + b)
  }

  /** `path.resolve(p)` in the working directory `cwd`, which is absolute. */
  function Resolve(cwd: JsString, p: JsString): (r: JsString)
    requires IsAbsolute(cwd)
  {
    var full := if IsAbsolute(p) then p else cwd + [Slash] + p;
    [Slash] + NormalizeString(full, false)
  }

  /** An absolute path in the form `resolve` returns: "/" or "/" followed by plain segments. */
  predicate CanonicalAbs(p: JsString) {
    IsAbsolute(p) && (|p| == 1 || AllPlain(Split(p[1..])))
  }

  // ----- lemmas -----

  /** Joining a segment in front of at least one more. */
  lemma JoinSegsCons(head: JsString, rest: seq<JsString>)
    requires |rest| >= 1
    ensures JoinSegs([head] + rest) == head + [Slash] + JoinSegs(rest)
  {
    assert ([head] + rest)[1..] == rest;
  }

  /** Joining undoes splitting. */
  lemma {:induction false} JoinSplit(s: JsString)
    ensures JoinSegs(Split(s)) == s
  {
    if s != [] {
      JoinSplit(s[1..]);
      var rest := Split(s[1..]);
      if s[0] == Slash {
        JoinSegsCons([], rest);
      } else if |rest| == 1 {
        assert Split(s) == [[s[0]] + rest[0]];
      } else {
        JoinSegsCons(rest[0], rest[1..]);
        assert rest == [rest[0]] + rest[1..];
        JoinSegsCons([s[0]] + rest[0], rest[1..]);
      }
    }
  }

  /** Splitting a slash-free piece, a slash, and the rest. */
  lemma {:induction false} SplitAfter(a: JsString, b: JsString)
    requires Slash !in a
    ensures Split(a + [Slash] + b) == [a] + Split(b)
  {
    if a != [] {
      SplitAfter(a[1..], b);
      assert (a + [Slash] + b)[1..] == a[1..] + [Slash] + b;
      assert [a[0]] + a[1..] == a;
    } else {
      assert [] + [Slash] + b == [Slash] + b;
    }
  }

  /** Joining undoes splitting, for slash-free segments. */
  lemma {:induction false} SplitJoin(segs: seq<JsString>)
    requires |segs| >= 1
    requires forall i :: 0 <= i < |segs| ==> Slash !in segs[i]
    ensures Split(JoinSegs(segs)) == segs
  {
    if |segs| == 1 {
      SplitNoSlash(segs[0]);
    } else {
      SplitJoin(segs[1..]);
      SplitAfter(segs[0], JoinSegs(segs[1..]));
    }
  }

  /** A slash-free string is a single segment. */
  lemma {:induction false} SplitNoSlash(s: JsString)
    requires Slash !in s
    ensures Split(s) == [s]
  {
    if s != [] {
      SplitNoSlash(s[1..]);
      assert [s[0]] + s[1..] == s;
    }
  }

  /** Plain segments pass through normalisation untouched. */
  lemma {:induction false} NormFromPlain(stack: seq<JsString>, segs: seq<JsString>, allowAboveRoot: bool)
    requires AllPlain(segs)
    ensures NormFrom(stack, segs, allowAboveRoot) == stack + segs
    decreases |segs|
  {
    if segs != [] {
      NormFromPlain(stack + [segs[0]], segs[1..], allowAboveRoot);
      assert stack + [segs[0]] + segs[1..] == stack + segs;
    }
  }

  /** Without climbing above the start, normalisation leaves only plain segments. */
  lemma {:induction false} NormFromIsPlain(stack: seq<JsString>, segs: seq<JsString>)
    requires AllPlain(stack)
    requires forall i :: 0 <= i < |segs| ==> Slash !in segs[i]
    ensures AllPlain(NormFrom(stack, segs, false))
    decreases |segs|
  {
    if segs != [] {
      NormFromIsPlain(Step(stack, segs[0], false), segs[1..]);
    }
  }

  /** Normalising in two parts is normalising the whole. */
  lemma {:induction false} NormFromAppend(stack: seq<JsString>, a: seq<JsString>, b: seq<JsString>, allowAboveRoot: bool)
    ensures NormFrom(stack, a + b, allowAboveRoot) == NormFrom(NormFrom(stack, a, allowAboveRoot), b, allowAboveRoot)
    decreases |a|
  {
    if a != [] {
      assert (a + b)[1..] == a[1..] + b;
      NormFromAppend(Step(stack, a[0], allowAboveRoot), a[1..], b, allowAboveRoot);
    } else {
      assert a + b == b;
    }
  }

  /** `resolve` always returns a canonical absolute path. */
  lemma ResolveIsCanonical(cwd: JsString, p: JsString)
    requires IsAbsolute(cwd)
    ensures CanonicalAbs(Resolve(cwd, p))
  {
    var full := if IsAbsolute(p) then p else cwd + [Slash] + p;
    var n := NormFrom([], Split(full), false);
    NormFromIsPlain([], Split(full));
    var r := Resolve(cwd, p);
    assert r[1..] == JoinSegs(n);
    if n != [] {
      SplitJoin(n);
    }
  }

  /** The segments of a canonical absolute path normalise to themselves. */
  lemma CanonicalSegments(p: JsString)
    requires CanonicalAbs(p)
    ensures NormalizeString(p, false) == p[1..]
  {
    assert p == [Slash] + p[1..];
    assert Split(p) == [[]] + Split(p[1..]);
    if |p| == 1 {
      assert Split(p) == [[], []];
      assert NormFrom([], [[]], false) == [];
    } else {
      var segs := Split(p[1..]);
      NormFromPlain([], segs, false);
      assert NormFrom([], Split(p), false) == segs;
      JoinSplit(p[1..]);
    }
  }

  /** `resolve` leaves a canonical absolute path as it is. */
  lemma ResolveCanonical(cwd: JsString, p: JsString)
    requires IsAbsolute(cwd) && CanonicalAbs(p)
    ensures Resolve(cwd, p) == p
  {
    CanonicalSegments(p);
    assert p == [Slash] + p[1..];
  }

  /** So resolving twice is resolving once. */
  lemma ResolveIdempotent(cwd: JsString, p: JsString)
    requires IsAbsolute(cwd)
    ensures Resolve(cwd, Resolve(cwd, p)) == Resolve(cwd, p)
  {
    ResolveIsCanonical(cwd, p);
    ResolveCanonical(cwd, Resolve(cwd, p));
  }

  /** A canonical path other than "/" does not end with a slash. */
  lemma CanonicalNoTrailingSlash(p: JsString)
    requires CanonicalAbs(p) && |p| > 1
    ensures p[|p| - 1] != Slash
  {
    var segs := Split(p[1..]);
    JoinSplit(p[1..]);
    LastSegmentEnds(segs);
  }

  /** A join of plain segments ends with the last segment's last character. */
  lemma {:induction false} LastSegmentEnds(segs: seq<JsString>)
    requires |segs| >= 1 && AllPlain(segs)
    ensures |JoinSegs(segs)| > 0 && JoinSegs(segs)[|JoinSegs(segs)| - 1] != Slash
  {
    if |segs| > 1 {
      LastSegmentEnds(segs[1..]);
    } else {
      assert segs[0][|segs[0]| - 1] in segs[0];
    }
  }

  /** `normalize` leaves a canonical absolute path as it is. */
  lemma NormalizeCanonical(p: JsString)
    requires CanonicalAbs(p)
    ensures Normalize(p) == p
  {
    CanonicalSegments(p);
    if |p| > 1 {
      CanonicalNoTrailingSlash(p);
      assert p == [Slash] + p[1..];
    }
  }

  /** Splitting a string given by its first unit and the rest. */
  lemma SplitCons(c: Unit, t: JsString)
    ensures Split([c] + t) == if c == Slash then [[]] + Split(t) else [[c] + Split(t)[0]] + Split(t)[1..]
  {
    assert ([c] + t)[1..] == t;
  }

  /** Splitting at a slash splits each side. */
  lemma {:induction false} SplitConcat(a: JsString, b: JsString)
    ensures Split(a + [Slash] + b) == Split(a) + Split(b)
  {
    if a == [] {
      assert [] + [Slash] + b == [Slash] + b;
      SplitCons(Slash, b);
    } else {
      var t := a[1..] + [Slash] + b;
      assert a + [Slash] + b == [a[0]] + t;
      assert a == [a[0]] + a[1..];
      SplitConcat(a[1..], b);
      SplitCons(a[0], t);
      SplitCons(a[0], a[1..]);
    }
  }

  /** "/" followed by one plain segment is canonical. */
  lemma CanonicalSingle(seg: JsString)
    requires Plain(seg)
    ensures CanonicalAbs([Slash] + seg)
  {
    assert ([Slash] + seg)[1..] == seg;
    SplitNoSlash(seg);
  }

  /** Joining a plain segment onto a canonical directory other than "/" appends it. */
  lemma JoinPlain(dir: JsString, seg: JsString)
    requires CanonicalAbs(dir) && |dir| > 1 && Plain(seg)
    ensures CanonicalAbs(dir + [Slash] + seg)
    ensures Join(dir, seg) == dir + [Slash] + seg
  {
    var p := dir + [Slash] + seg;
    assert p[1..] == dir[1..] + [Slash] + seg;
    SplitConcat(dir[1..], seg);
    SplitNoSlash(seg);
    NormalizeCanonical(p);
  }
}

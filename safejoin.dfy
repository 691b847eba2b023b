/**
 * `safeJoinPath(...args)`: join request-supplied pieces onto the site root
 * without leaving it.
 *
 * The base is `resolve(args[0])` when that string starts with `root` (the
 * first argument is then used up), otherwise `resolve(root)`. Each remaining
 * argument has every ".." (left to right, without overlap) turned into "."
 * and every '%' removed, and is joined on; a step that leaves the path as it
 * was, or whose result does not start with the previous path as a string,
 * makes the whole call return `null` (`None`).
 */
module SafeJoin {
  import opened JsStrings
  import opened PosixPath

  const Percent: Unit := 37

  /** `s.replace(/\.\./g, '.')`. */
  function CollapseDots(s: JsString): (r: JsString)
    ensures |r| <= |s|
  {
    if |s| >= 2 && s[0] == Dot && s[1] == Dot then [Dot] + CollapseDots(s[2..])
    else if s == [] then []
    else [s[0]] + CollapseDots(s[1..])
  }

  predicate NotPercent(u: Unit) {
    u != Percent
  }

  /** The rewrite applied to each argument: collapse "..", then `replace(/%/g, '')`. */
  function Rewrite(s: JsString): (r: JsString)
    ensures Percent !in r
  {
    var c := CollapseDots(s);
    FilterMembers(c, NotPercent);
    Filter(c, NotPercent)
  }

  /** One pass of the loop: `None` when the step stays put or leaves the current path's string prefix. */
  function JoinStep(path: JsString, arg: JsString): Option<JsString> {
    var newPath := Join(path, Rewrite(arg));
    if newPath == path || !StartsWith(newPath, path) then None else Some(newPath)
  }

  /** The loop from `path` over the arguments `args`, in order. */
  function JoinAll(path: JsString, args: seq<JsString>): Option<JsString>
    decreases |args|
  {
    if args == [] then Some(path)
    else
      var next := JoinStep(path, args[0]);
      if next.None? then None else JoinAll(next.value, args[1..])
  }

  /** One turn of the loop over `args[i..]`. */
  lemma JoinAllAt(path: JsString, args: seq<JsString>, i: nat)
    requires i < |args|
    ensures JoinAll(path, args[i..]) ==
      var next := JoinStep(path, args[i]);
      if next.None? then None else JoinAll(next.value, args[i + 1..])
  {
    assert args[i..][1..] == args[i + 1..];
  }

  /** The path the loop starts from. */
  function Base(cwd: JsString, root: JsString, args: seq<JsString>): JsString
    requires IsAbsolute(cwd) && |args| > 0
  {
    var arg0 := Resolve(cwd, args[0]);
    if StartsWith(arg0, root) then arg0 else Resolve(cwd, root)
  }

  /** The arguments the loop joins: all of them, or all but the first when it became the base. */
  function Joined(cwd: JsString, root: JsString, args: seq<JsString>): seq<JsString>
    requires IsAbsolute(cwd) && |args| > 0
  {
    if StartsWith(Resolve(cwd, args[0]), root) then args[1..] else args
  }

  /** What `safeJoinPath(...args)` returns, `root` being the site root and `cwd` the process's working directory. */
  function SafeJoin(cwd: JsString, root: JsString, args: seq<JsString>): Option<JsString>
    requires IsAbsolute(cwd) && |args| > 0
  {
    JoinAll(Base(cwd, root, args), Joined(cwd, root, args))
  }

  /** Where the loop starts: from the first argument when it starts with the root, else from the root. */
  lemma SafeJoinFrom(cwd: JsString, root: JsString, args: seq<JsString>)
    requires IsAbsolute(cwd) && |args| > 0
    ensures SafeJoin(cwd, root, args) ==
      if StartsWith(Resolve(cwd, args[0]), root) then JoinAll(Resolve(cwd, args[0]), args[1..])
      else JoinAll(Resolve(cwd, root), args[0..])
  {
    assert args[0..] == args;
  }

  /** `safeJoinPath`, with its loop. Called without arguments the source throws; it is never called so. */
  method SafeJoinPath(cwd: JsString, root: JsString, args: seq<JsString>) returns (r: Option<JsString>)
    requires IsAbsolute(cwd) && |args| > 0
    ensures r == SafeJoin(cwd, root, args)
  {
    var path := Resolve(cwd, root);
    var arg0 := Resolve(cwd, args[0]);
    var iStart := 0;
    if StartsWith(arg0, root) {
      path := arg0;
      iStart := 1;
    }
    SafeJoinFrom(cwd, root, args);
    var i := iStart;
    while i < |args|
      invariant iStart <= i <= |args|
      invariant JoinAll(path, args[i..]) == SafeJoin(cwd, root, args)
    {
      JoinAllAt(path, args, i);
      var newPath := Join(path, Rewrite(args[i]));
      if newPath == path || !StartsWith(newPath, path) {
        return None;
      }
      path := newPath;
      i := i + 1;
    }
    assert args[i..] == [];
    return Some(path);
  }

  // ----- what the checks guarantee -----

  /** Every accepted step extends the path it started from, by at least one character. */
  lemma {:induction false} JoinAllExtends(path: JsString, args: seq<JsString>)
    requires JoinAll(path, args).Some?
    ensures StartsWith(JoinAll(path, args).value, path)
    ensures |JoinAll(path, args).value| >= |path| + |args|
    decreases |args|
  {
    if args != [] {
      var next := JoinStep(path, args[0]).value;
      JoinAllExtends(next, args[1..]);
      StartsWithTrans(JoinAll(path, args).value, next, path);
    }
  }

  /** A non-null result starts with the base and is longer than it by at least the number of joined arguments. */
  lemma SafeJoinExtendsBase(cwd: JsString, root: JsString, args: seq<JsString>)
    requires IsAbsolute(cwd) && |args| > 0
    requires SafeJoin(cwd, root, args).Some?
    ensures StartsWith(SafeJoin(cwd, root, args).value, Base(cwd, root, args))
    ensures |SafeJoin(cwd, root, args).value| >= |Base(cwd, root, args)| + |Joined(cwd, root, args)|
  {
    JoinAllExtends(Base(cwd, root, args), Joined(cwd, root, args));
  }

  /** "..." is rewritten to "..": the rewrite alone does not stop a step upwards. */
  lemma TripleDotClimbs()
    ensures Rewrite([Dot, Dot, Dot]) == [Dot, Dot]
    ensures Rewrite([Dot, Dot]) == [Dot]
  {
    assert CollapseDots([Dot, Dot, Dot]) == [Dot] + CollapseDots([Dot]);
    assert CollapseDots([Dot]) == [Dot] + CollapseDots([]);
    FilterOne(Dot, NotPercent);
    assert [Dot, Dot] == [Dot] + [Dot];
    FilterAppend([Dot], [Dot], NotPercent);
    assert CollapseDots([Dot, Dot]) == [Dot] + CollapseDots([]);
  }

  // ----- the sibling-directory escape, and the containment test that closes it -----

  /** `p` is `dir` itself or lies inside the directory `dir`. */
  predicate Within(p: JsString, dir: JsString) {
    StartsWith(p, dir) && (|p| == |dir| || (|dir| > 0 && dir[|dir| - 1] == Slash) || p[|dir|] == Slash)
  }

  lemma WithinTrans(a: JsString, b: JsString, c: JsString)
    requires Within(a, b) && Within(b, c)
    ensures Within(a, c)
  {
    StartsWithTrans(a, b, c);
    if |b| > |c| {
      assert a[|c|] == a[..|b|][|c|] == b[|c|];
    }
  }

  /**
   * The string-prefix test lets a sibling through: with the root a canonical
   * path such as "/srv/app", the argument "/srv/app2" passes the base test
   * and is returned, although it is not inside the root.
   */
  lemma SiblingPrefixAccepted(cwd: JsString, root: JsString, x: JsString)
    requires IsAbsolute(cwd) && CanonicalAbs(root) && |root| > 1
    requires x != [] && x[0] != Slash && CanonicalAbs(root + x)
    ensures SafeJoin(cwd, root, [root + x]) == Some(root + x)
    ensures !Within(root + x, Resolve(cwd, root))
  {
    ResolveCanonical(cwd, root + x);
    ResolveCanonical(cwd, root);
    assert (root + x)[..|root|] == root;
    assert [root + x][1..] == [];
    CanonicalNoTrailingSlash(root);
    assert (root + x)[|root|] == x[0];
  }

  /** "/srv/app" and "/srv/app2" are canonical. */
  lemma SiblingPaths(app: JsString, app2: JsString)
    requires app == [47, 115, 114, 118, 47, 97, 112, 112]
    requires app2 == app + [50]
    ensures CanonicalAbs(app) && CanonicalAbs(app2)
  {
    var srv: JsString := [115, 114, 118];
    var name: JsString := [97, 112, 112];
    var name2: JsString := [97, 112, 112, 50];
    CanonicalSingle(srv);
    JoinPlain([Slash] + srv, name);
    JoinPlain([Slash] + srv, name2);
    assert app == [Slash] + srv + [Slash] + name;
    assert app2 == [Slash] + srv + [Slash] + name2;
  }

  /** `safeJoinPath("/srv/app2")` with the root "/srv/app" returns "/srv/app2". */
  lemma SiblingExample(cwd: JsString)
    requires IsAbsolute(cwd)
    ensures SafeJoin(cwd, [47, 115, 114, 118, 47, 97, 112, 112], [[47, 115, 114, 118, 47, 97, 112, 112, 50]])
      == Some([47, 115, 114, 118, 47, 97, 112, 112, 50])
  {
    var app: JsString := [47, 115, 114, 118, 47, 97, 112, 112];
    SiblingPaths(app, app + [50]);
    SiblingPrefixAccepted(cwd, app, [50]);
    assert app + [50] == [47, 115, 114, 118, 47, 97, 112, 112, 50];
  }

  /** The loop step with a directory-containment test in place of the string-prefix test. */
  function JoinStepWithin(path: JsString, arg: JsString): Option<JsString> {
    var newPath := Join(path, Rewrite(arg));
    if newPath == path || !Within(newPath, path) then None else Some(newPath)
  }

  function JoinAllWithin(path: JsString, args: seq<JsString>): Option<JsString>
    decreases |args|
  {
    if args == [] then Some(path)
    else
      var next := JoinStepWithin(path, args[0]);
      if next.None? then None else JoinAllWithin(next.value, args[1..])
  }

  /** `safeJoinPath` with both tests asking for containment in a directory rather than a string prefix. */
  function SafeJoinWithin(cwd: JsString, root: JsString, args: seq<JsString>): Option<JsString>
    requires IsAbsolute(cwd) && |args| > 0
  {
    var home := Resolve(cwd, root);
    var arg0 := Resolve(cwd, args[0]);
    if Within(arg0, home) then JoinAllWithin(arg0, args[1..]) else JoinAllWithin(home, args)
  }

  lemma {:induction false} JoinAllWithinStays(path: JsString, args: seq<JsString>)
    requires JoinAllWithin(path, args).Some?
    ensures Within(JoinAllWithin(path, args).value, path)
    decreases |args|
  {
    if args != [] {
      var next := JoinStepWithin(path, args[0]).value;
      JoinAllWithinStays(next, args[1..]);
      WithinTrans(JoinAllWithin(path, args).value, next, path);
    } else {
      assert path[..|path|] == path;
    }
  }

  /** With the containment test, a non-null result always lies inside the resolved root. */
  lemma SafeJoinWithinConfined(cwd: JsString, root: JsString, args: seq<JsString>)
    requires IsAbsolute(cwd) && |args| > 0
    requires SafeJoinWithin(cwd, root, args).Some?
    ensures Within(SafeJoinWithin(cwd, root, args).value, Resolve(cwd, root))
  {
    var home := Resolve(cwd, root);
    var arg0 := Resolve(cwd, args[0]);
    assert home[..|home|] == home;
    if Within(arg0, home) {
      JoinAllWithinStays(arg0, args[1..]);
      WithinTrans(SafeJoinWithin(cwd, root, args).value, arg0, home);
    } else {
      JoinAllWithinStays(home, args);
    }
  }

  /** The containment test only refuses more: whatever the corrected loop accepts, the loop as written accepts too. */
  lemma {:induction false} WithinLoopIsStricter(path: JsString, args: seq<JsString>)
    requires JoinAllWithin(path, args).Some?
    ensures JoinAll(path, args) == JoinAllWithin(path, args)
    decreases |args|
  {
    if args != [] {
      JoinAllWithinStays(path, args[..1]);
      WithinLoopIsStricter(JoinStepWithin(path, args[0]).value, args[1..]);
    }
  }
}

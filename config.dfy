/**
 * The site's configuration: the module-level variables the exported setters
 * write (`viewEngine`, `pages`, `static`, `pwa`, `limit`, `minify`,
 * `extended`, `setRoot`) and that `start` reads, as the fields of one
 * `Config` object.
 *
 * What each setter stores is given by a function of its arguments
 * (`StaticPathFor`, `PwaOptsFor`, ...); the methods are proved to store
 * exactly that and to leave every other field alone, and the lemmas say
 * what the stored values are.
 */
module SiteConfig {
  import opened JsStrings
  import opened JsValues
  import opened Sanitizer
  import opened PosixPath
  import SanitizerProperties
  import Ports

  /** What `pages` holds: the handler given, or the module `require(path)` loads for a string. */
  datatype Pages = Handler(handler: Value) | Required(path: JsString)

  /** Every configuration variable at once. */
  datatype Settings = Settings(
    root: JsString,
    viewEngine: Value,
    viewEngineOpts: Value,
    pages: Pages,
    staticPath: Value,
    pwaOpts: Value,
    expressLimit: Value,
    minifyOpts: Value,
    expressExtended: Value,
    bodyParserExtended: Value)

  /** "1mb". */
  const DefaultLimit: JsString := [49, 109, 98]
  /** "mb". */
  const Megabytes: JsString := [109, 98]
  /** "public". */
  const Public: JsString := [112, 117, 98, 108, 105, 99]
  /** "js" and "css". */
  const DefaultMinify: seq<Value> := [Str([106, 115]), Str([99, 115, 115])]

  /** The state before any setter runs, `root` being the directory found at load time. */
  function Initial(root: JsString): Settings {
    Settings(root, Undefined, Undefined, Handler(Undefined), Undefined, Undefined,
      Str(DefaultLimit), Undefined, Bool(false), Bool(false))
  }

  // ----- what each setter stores -----

  /** `setPages(handler)`. */
  function PagesFor(handler: Value): Pages {
    if VarType(handler) == "string" then Required(handler.s) else Handler(handler)
  }

  /**
   * `setStaticPath(path = true, path2)`: two strings make a one-entry route
   * map `{clean(path): clean(path2)}`; otherwise a truthy `path` is stored
   * cleaned, and anything else becomes `join(root, 'public')`.
   */
  function StaticPathFor(root: JsString, path: Value, path2: Value): Value {
    var p := if path.Undefined? then Bool(true) else path;
    if VarType(p) == "string" && VarType(path2) == "string" then
      Obj(Put([], KeyOf(CleanedStr(p.s, false)), Cleaned(path2, false)))
    else if Truthy(p) then Cleaned(p, false)
    else Str(Join(root, Public))
  }

  /** The eight options `setPWA` defaults with `||`, and their defaults. */
  const PwaDefaultTexts: seq<(JsString, JsString)> := [
    ([110, 97, 109, 101], [65, 112, 112, 32, 78, 97, 109, 101]),                                   // name: 'App Name'
    ([115, 104, 111, 114, 116, 95, 110, 97, 109, 101], [65, 112, 112]),                            // short_name: 'App'
    ([115, 116, 97, 114, 116, 95, 117, 114, 108], [47, 63, 112, 119, 97, 61, 116, 114, 117, 101]), // start_url: '/?pwa=true'
    ([116, 104, 101, 109, 101, 95, 99, 111, 108, 111, 114], [35, 48, 48, 48, 48, 48, 48]),         // theme_color: '#000000'
    ([98, 97, 99, 107, 103, 114, 111, 117, 110, 100, 95, 99, 111, 108, 111, 114],
      [35, 102, 102, 102, 102, 102, 102]),                                                         // background_color: '#ffffff'
    ([100, 105, 115, 112, 108, 97, 121], [115, 116, 97, 110, 100, 97, 108, 111, 110, 101]),        // display: 'standalone'
    ([111, 114, 105, 101, 110, 116, 97, 116, 105, 111, 110], [97, 110, 121]),                      // orientation: 'any'
    ([105, 99, 111, 110], [102, 97, 118, 105, 99, 111, 110, 46, 105, 99, 111])                     // icon: 'favicon.ico'
  ]

  /** "icon_background", the ninth option, which has no default. */
  const IconBackground: JsString := [105, 99, 111, 110, 95, 98, 97, 99, 107, 103, 114, 111, 117, 110, 100]

  /** A destructured option: the property of `opts`, `undefined` when it has none. */
  function Field(opts: Value, k: JsString): Value {
    if opts.Obj? && k in Keys(opts.props) then Lookup(opts.props, k).value else Undefined
  }

  /** `v || text`. */
  function OrText(v: Value, text: JsString): Value {
    if Truthy(v) then v else Str(text)
  }

  /** The object literal before `...otherOpts`: the nine options in order. */
  function PwaDefaults(opts: Value): (r: Props)
    ensures |r| == 9
  {
    seq(8, i requires 0 <= i < 8 =>
      (PwaDefaultTexts[i].0, OrText(Field(opts, PwaDefaultTexts[i].0), PwaDefaultTexts[i].1)))
    + [(IconBackground, Field(opts, IconBackground))]
  }

  /** The properties `...v` spreads into an object literal: an object's own, none for `null` or `undefined`. */
  function Spread(v: Value): Props {
    if v.Obj? then v.props else []
  }

  /**
   * `setPWA(opts = {}, otherOpts = {})`: the nine options with their
   * defaults, then every property of `otherOpts` assigned over them.
   */
  function PwaOptsFor(opts: Value, otherOpts: Value): Props
    requires opts.Obj? || opts.Undefined?
    requires otherOpts.Obj? || otherOpts.Undefined? || otherOpts.Null?
  {
    Assign(PwaDefaults(opts), Spread(otherOpts))
  }

  /** `setExpressLimit(limit)`: a number `n` becomes "<n>mb", anything else is stored as it is. */
  function LimitFor(limit: Value): Value {
    if TypeOf(limit) == "number" then Str(DecimalString(limit.n) + Megabytes) else limit
  }

  /** `setMinifyOpts(type)`: an array as it is, another truthy value in a one-element array, else ['js', 'css']. */
  function MinifyFor(t: Value): (r: Value)
    ensures r.Arr?
  {
    if VarType(t) == "array" then t
    else if Truthy(t) then Arr([t])
    else Arr(DefaultMinify)
  }

  /** `extended(express = true, bodyParser = true)`: a missing argument is `true`. */
  function FlagOrTrue(v: Value): Value {
    if v.Undefined? then Bool(true) else v
  }

  // ----- setRoot -----

  /** '/' or '\'. */
  predicate IsSep(u: Unit) {
    u == 47 || u == 92
  }

  /** The index of the last separator in `t`, -1 when there is none. */
  function LastSep(t: JsString): (j: int)
    ensures -1 <= j < |t|
    ensures j >= 0 ==> IsSep(t[j])
    ensures forall k :: j < k < |t| ==> !IsSep(t[k])
  {
    if t == [] then -1
    else if IsSep(t[|t| - 1]) then |t| - 1
    else LastSep(t[..|t| - 1])
  }

  /** A last path component: a name without separators, optionally followed by one separator. */
  predicate LastComponent(x: JsString) {
    |x| > 0 && !IsSep(x[0]) && forall k :: 0 <= k < |x| - 1 ==> !IsSep(x[k])
  }

  /** `.replace(/[\\\/][^\\\/]+[\\\/]?$/, '')`: the last component and the separator before it go. */
  function DropLastComponent(s: JsString): (r: JsString)
    ensures StartsWith(s, r)
    ensures r != s ==> IsSep(s[|r|]) && LastComponent(s[|r| + 1..])
  {
    var t := if |s| > 0 && IsSep(s[|s| - 1]) then s[..|s| - 1] else s;
    var j := LastSep(t);
    if 0 <= j < |t| - 1 then
      var x := s[j + 1..];
      assert forall k :: 0 <= k < |x| - 1 ==> !IsSep(x[k]) by {
        forall k | 0 <= k < |x| - 1 ensures !IsSep(x[k]) {
          assert x[k] == t[j + 1 + k];
        }
      }
      s[..j]
    else s
  }

  /**
   * `setRoot(path)`: the resolved path, cleaned, without its last component.
   * `None` is the TypeError raised when cleaning gives `undefined`.
   */
  function RootFor(cwd: JsString, path: JsString): Option<JsString>
    requires IsAbsolute(cwd)
  {
    var c := CleanedStr(Resolve(cwd, path), false);
    if c.None? then None else Some(DropLastComponent(c.value))
  }

  // ----- what start does with the static path -----

  /** How `start` serves static files: not at all, from `dir` under the route `route`, or a TypeError. */
  datatype StaticMount = NotServed | Served(route: JsString, dir: Value, prefix: JsString) | MountError

  /** `key.replace(/[\\\/]$/, '')`. */
  function DropTrailingSep(s: JsString): JsString {
    if |s| > 0 && IsSep(s[|s| - 1]) then s[..|s| - 1] else s
  }

  /**
   * The static-path block of `start`: `true` and `undefined` serve
   * `join(root, 'public')` at "/"; a route map serves its first entry's
   * directory (joined onto the root unless it already starts with it) at its
   * key; any other truthy string is served at "/" as it is; a falsy value
   * other than `undefined` serves nothing. The route map's first value must
   * be a string (`startsWith` is called on it), and so must any other root,
   * since `express.static` throws a TypeError for a root that is not a string.
   */
  function StaticSetup(root: JsString, sp: Value): StaticMount {
    if Truthy(sp) then
      if sp == Bool(true) then Served([Slash], Str(Join(root, Public)), [])
      else if VarType(sp) == "object" then
        if sp.props == [] || !sp.props[0].1.Str? then MountError
        else
          var key := sp.props[0].0;
          var d := sp.props[0].1.s;
          Served(key, Str(if StartsWith(d, root) then d else Join(root, d)), DropTrailingSep(key))
      else if sp.Str? then Served([Slash], sp, [])
      else MountError
    else if sp.Undefined? then Served([Slash], Str(Join(root, Public)), [])
    else NotServed
  }

  // ----- the configuration object -----

  class Config {
    var root: JsString
    var viewEngine: Value
    var viewEngineOpts: Value
    var pages: Pages
    var staticPath: Value
    var pwaOpts: Value
    var expressLimit: Value
    var minifyOpts: Value
    var expressExtended: Value
    var bodyParserExtended: Value

    function Snapshot(): Settings
      reads this
    {
      Settings(root, viewEngine, viewEngineOpts, pages, staticPath, pwaOpts, expressLimit,
        minifyOpts, expressExtended, bodyParserExtended)
    }

    /** The module as loaded: `root` found, everything else at its initial value. */
    constructor(root: JsString)
      ensures Snapshot() == Initial(root)
    {
      this.root := root;
      viewEngine := Undefined;
      viewEngineOpts := Undefined;
      pages := Handler(Undefined);
      staticPath := Undefined;
      pwaOpts := Undefined;
      expressLimit := Str(DefaultLimit);
      minifyOpts := Undefined;
      expressExtended := Bool(false);
      bodyParserExtended := Bool(false);
    }

    /** `setViewEngine(callback, opts)`: the options are replaced only by a plain object. */
    method SetViewEngine(callback: Value, opts: Value)
      modifies this
      ensures Snapshot() == old(Snapshot()).(viewEngine := callback,
        viewEngineOpts := if opts.Obj? then opts else old(viewEngineOpts))
    {
      viewEngine := callback;
      if VarType(opts) == "object" {
        viewEngineOpts := opts;
      }
    }

    method SetPages(handler: Value)
      modifies this
      ensures Snapshot() == old(Snapshot()).(pages := PagesFor(handler))
    {
      if VarType(handler) == "string" {
        pages := Required(handler.s);
      } else {
        pages := Handler(handler);
      }
    }

    /** `setStaticPath(path, path2)`; `Undefined` stands for a missing argument. */
    method SetStaticPath(path: Value, path2: Value)
      modifies this
      ensures Snapshot() == old(Snapshot()).(staticPath := StaticPathFor(old(root), path, path2))
    {
      var p := path;
      if p.Undefined? {
        p := Bool(true);
      }
      if VarType(p) == "string" && VarType(path2) == "string" {
        var key := CleanStr(p.s, false);
        var value := CleanType(path2, false);
        staticPath := Obj(Put([], KeyOf(key), value));
      } else if Truthy(p) {
        staticPath := CleanType(p, false);
      } else {
        staticPath := Str(Join(root, Public));
      }
    }

    /** `setPWA(opts, otherOpts)`. */
    method SetPWA(opts: Value, otherOpts: Value)
      requires opts.Obj? || opts.Undefined?
      requires otherOpts.Obj? || otherOpts.Undefined? || otherOpts.Null?
      modifies this
      ensures Snapshot() == old(Snapshot()).(pwaOpts := Obj(PwaOptsFor(opts, otherOpts)))
    {
      pwaOpts := Obj(Assign(PwaDefaults(opts), Spread(otherOpts)));
    }

    method SetExpressLimit(limit: Value)
      modifies this
      ensures Snapshot() == old(Snapshot()).(expressLimit := LimitFor(limit))
    {
      if TypeOf(limit) == "number" {
        expressLimit := Str(DecimalString(limit.n) + Megabytes);
      } else {
        expressLimit := limit;
      }
    }

    method SetMinifyOpts(t: Value)
      modifies this
      ensures Snapshot() == old(Snapshot()).(minifyOpts := MinifyFor(t))
    {
      if VarType(t) == "array" {
        minifyOpts := t;
      } else if Truthy(t) {
        minifyOpts := Arr([t]);
      } else {
        minifyOpts := Arr(DefaultMinify);
      }
    }

    /** `extended(express, bodyParser)`. */
    method Extended(express: Value, bodyParser: Value)
      modifies this
      ensures Snapshot() == old(Snapshot()).(expressExtended := FlagOrTrue(express),
        bodyParserExtended := FlagOrTrue(bodyParser))
    {
      expressExtended := FlagOrTrue(express);
      bodyParserExtended := FlagOrTrue(bodyParser);
    }

    /** `setRoot(path)` in the working directory `cwd`; `ok` is false where the source throws, and then nothing changes. */
    method SetRoot(cwd: JsString, path: JsString) returns (ok: bool)
      requires IsAbsolute(cwd)
      modifies this
      ensures ok == RootFor(cwd, path).Some?
      ensures Snapshot() == if ok then old(Snapshot()).(root := RootFor(cwd, path).value) else old(Snapshot())
    {
      var c := CleanStr(Resolve(cwd, path), false);
      if c.None? {
        return false;
      }
      root := DropLastComponent(c.value);
      return true;
    }

    /**
     * The configuration part of `start(port, pageHandler)`: the argument
     * swap, `setPages` for a handler that is a function, object or string,
     * the static-path set-up, and the value given to `listen`, `env` being
     * the PORT environment variable. `listen` is that value provided the PWA,
     * view-engine and middleware set-up, which is not modelled, completes.
     */
    method Start(env: Value, port: Value, handler: Value) returns (listen: Option<Value>, mount: StaticMount)
      modifies this
      ensures var (p, h) := Ports.StartArgs(port, handler);
        var pages' := if Ports.LoadsPages(h) then PagesFor(h) else old(pages);
        mount == StaticSetup(old(root), old(staticPath))
        && listen == (if mount.MountError? then None else Ports.ListenPort(env, p))
        && Snapshot() == old(Snapshot()).(pages := pages', staticPath := if mount.Served? then mount.dir else old(staticPath))
    {
      var args := Ports.StartArgs(port, handler);
      if Ports.LoadsPages(args.1) {
        SetPages(args.1);
      }
      mount := StaticSetup(root, staticPath);
      if mount.MountError? {
        return None, mount;
      }
      if mount.Served? {
        staticPath := mount.dir;
      }
      listen := Ports.ListenPort(env, args.0);
    }
  }

  // ----- lemmas -----

  /** With no arguments the static path is `true`, the marker `start` turns into the public directory. */
  lemma StaticPathDefault(root: JsString)
    ensures StaticPathFor(root, Undefined, Undefined) == Bool(true)
  {
  }

  /** A clean non-empty string comes through `clean` as it is. */
  lemma CleanString(s: JsString)
    requires s != [] && AllSafe(s)
    ensures Cleaned(Str(s), false) == Str(s)
  {
    SanitizerProperties.CleanedStrUnchanged(s, false);
  }

  /** The key `clean(path)` is stored under is clean. */
  lemma CleanKey(path: JsString)
    ensures AllSafe(KeyOf(CleanedStr(path, false)))
  {
    SanitizerProperties.UndefinedKeyIsClean(false);
  }

  /** Whatever is stored from the arguments (and not built from the root) is clean: printable ASCII throughout. */
  lemma StaticPathClean(root: JsString, path: Value, path2: Value)
    requires Truthy(path) || path.Undefined?
    ensures SanitizerProperties.DeepSafe(StaticPathFor(root, path, path2))
  {
    var p := if path.Undefined? then Bool(true) else path;
    if p.Str? && path2.Str? {
      StaticRouteMapClean(root, p.s, path2.s);
    } else {
      assert StaticPathFor(root, path, path2) == Cleaned(p, false);
      SanitizerProperties.CleanedIsSafe(p, false);
    }
  }

  /** The route map `setStaticPath` builds from two strings. */
  lemma StaticRouteMap(root: JsString, route: JsString, dir: JsString)
    ensures StaticPathFor(root, Str(route), Str(dir)) == Obj([(KeyOf(CleanedStr(route, false)), Cleaned(Str(dir), false))])
  {
    assert VarType(Str(route)) == "string" && VarType(Str(dir)) == "string";
    assert Put([], KeyOf(CleanedStr(route, false)), Cleaned(Str(dir), false)) == [(KeyOf(CleanedStr(route, false)), Cleaned(Str(dir), false))];
  }

  lemma StaticRouteMapClean(root: JsString, route: JsString, dir: JsString)
    ensures SanitizerProperties.DeepSafe(StaticPathFor(root, Str(route), Str(dir)))
  {
    StaticRouteMap(root, route, dir);
    SanitizerProperties.CleanedIsSafe(Str(dir), false);
    CleanKey(route);
    SanitizerProperties.DeepSafeEntry(KeyOf(CleanedStr(route, false)), Cleaned(Str(dir), false));
  }

  /** A falsy path falls back to the public directory under a canonical root. */
  lemma StaticPathFallback(root: JsString, path: Value, path2: Value)
    requires CanonicalAbs(root) && |root| > 1
    requires !Truthy(path) && !path.Undefined? && !path.Str?
    ensures StaticPathFor(root, path, path2) == Str(root + [Slash] + Public)
  {
    assert StaticPathFor(root, path, path2) == Str(Join(root, Public));
    JoinPlain(root, Public);
  }

  /** A route map of two clean strings is served at the route, from the directory made absolute under the root. */
  lemma StaticRouteMount(root: JsString, route: JsString, dir: JsString)
    requires route != [] && AllSafe(route) && dir != [] && AllSafe(dir)
    ensures StaticSetup(root, StaticPathFor(root, Str(route), Str(dir)))
      == Served(route, Str(if StartsWith(dir, root) then dir else Join(root, dir)), DropTrailingSep(route))
  {
    SanitizerProperties.CleanedStrUnchanged(route, false);
    CleanString(dir);
    StaticRouteMap(root, route, dir);
    var sp := Obj([(route, Str(dir))]);
    assert StaticPathFor(root, Str(route), Str(dir)) == sp;
    assert Truthy(sp) && sp != Bool(true) && VarType(sp) == "object";
  }

  /** Under an absolute root, `true`, `undefined` and a route map are served from an absolute directory. */
  lemma StaticDirAbsolute(root: JsString, sp: Value)
    requires IsAbsolute(root)
    requires sp == Bool(true) || sp.Undefined? || sp.Obj?
    requires StaticSetup(root, sp).Served?
    ensures StaticSetup(root, sp).dir.Str? && IsAbsolute(StaticSetup(root, sp).dir.s)
  {
  }

  /** A truthy root that is neither `true`, a string nor an object makes `express.static` throw. */
  lemma NonStringStaticRootRejected(root: JsString, sp: Value)
    requires Truthy(sp) && sp != Bool(true) && !sp.Str? && !sp.Obj?
    ensures StaticSetup(root, sp) == MountError
  {
  }

  /** The default flow: `static()` and then `start` serve "<root>/public" at "/". */
  lemma DefaultStaticIsPublic(root: JsString)
    requires CanonicalAbs(root) && |root| > 1
    ensures StaticSetup(root, StaticPathFor(root, Undefined, Undefined)) == Served([Slash], Str(root + [Slash] + Public), [])
  {
    StaticPathDefault(root);
    assert StaticSetup(root, Bool(true)) == Served([Slash], Str(Join(root, Public)), []);
    JoinPlain(root, Public);
  }

  /** The nine option names are distinct. */
  lemma PwaDefaultsDistinct(opts: Value)
    ensures DistinctKeys(PwaDefaults(opts))
  {
  }

  /** The options `setPWA` stores: the nine names and the keys of `otherOpts`. */
  lemma PwaKeys(opts: Value, otherOpts: Value)
    requires opts.Obj? || opts.Undefined?
    requires otherOpts.Obj? || otherOpts.Undefined? || otherOpts.Null?
    ensures Keys(PwaOptsFor(opts, otherOpts)) == Keys(PwaDefaults(opts)) + Keys(Spread(otherOpts))
    ensures |PwaOptsFor(opts, otherOpts)| <= 9 + |Spread(otherOpts)|
  {
    AssignLookup(PwaDefaults(opts), Spread(otherOpts));
    AssignLength(PwaDefaults(opts), Spread(otherOpts));
  }

  /** Every key in `otherOpts` overrides, with the last value it has there. */
  lemma PwaOtherWins(opts: Value, otherOpts: Value, k: JsString)
    requires opts.Obj? || opts.Undefined?
    requires otherOpts.Obj? || otherOpts.Undefined? || otherOpts.Null?
    requires k in Keys(Spread(otherOpts))
    ensures Lookup(PwaOptsFor(opts, otherOpts), k) == LastLookup(Spread(otherOpts), k)
  {
    AssignLookup(PwaDefaults(opts), Spread(otherOpts));
  }

  /** Every default text is non-empty, hence truthy. */
  lemma DefaultTextsNonEmpty()
    ensures forall i :: 0 <= i < 8 ==> |PwaDefaultTexts[i].1| > 0
  {
  }

  /** Option `i` of the object literal, looked up by name. */
  lemma PwaDefaultAt(opts: Value, i: nat)
    requires i < 8
    ensures Lookup(PwaDefaults(opts), PwaDefaultTexts[i].0) == Some(OrText(Field(opts, PwaDefaultTexts[i].0), PwaDefaultTexts[i].1))
  {
    PwaDefaultsDistinct(opts);
    LookupAt(PwaDefaults(opts), i);
  }

  /** Each of the eight defaulted options `otherOpts` does not override is truthy: the given value when truthy, else the default text. */
  lemma PwaDefaultsTruthy(opts: Value, otherOpts: Value, i: nat)
    requires opts.Obj? || opts.Undefined?
    requires otherOpts.Obj? || otherOpts.Undefined? || otherOpts.Null?
    requires i < 8 && PwaDefaultTexts[i].0 !in Keys(Spread(otherOpts))
    ensures var v := Lookup(PwaOptsFor(opts, otherOpts), PwaDefaultTexts[i].0);
      v.Some? && Truthy(v.value)
      && (Truthy(Field(opts, PwaDefaultTexts[i].0)) ==> v.value == Field(opts, PwaDefaultTexts[i].0))
  {
    AssignLookup(PwaDefaults(opts), Spread(otherOpts));
    PwaDefaultAt(opts, i);
    DefaultTextsNonEmpty();
  }

  /** `setPWA()` with no arguments stores the defaults, in order, and `icon_background: undefined`. */
  lemma PwaNoArguments()
    ensures PwaOptsFor(Undefined, Undefined) ==
      seq(8, i requires 0 <= i < 8 => (PwaDefaultTexts[i].0, Str(PwaDefaultTexts[i].1))) + [(IconBackground, Undefined)]
  {
  }

  /** The limit stored for a number reads back as that number, and ends in "mb". */
  lemma LimitReadsBack(n: int)
    ensures LimitFor(Num(n)).Str?
    ensures Ports.ParseInt(LimitFor(Num(n)).s) == Some(n)
    ensures EndsWith(LimitFor(Num(n)).s, Megabytes)
  {
    Ports.ParseIntDecimalThen(n, Megabytes);
    var s := DecimalString(n) + Megabytes;
    assert s[|s| - 2..] == Megabytes;
  }

  /**
   * The limit is stored as given exactly when it is not a number; what is
   * stored is never a number, so setting the stored limit again keeps it.
   */
  lemma LimitStoredSettles(limit: Value)
    ensures LimitFor(limit) == limit <==> !limit.Num?
    ensures !LimitFor(limit).Num?
    ensures LimitFor(LimitFor(limit)) == LimitFor(limit)
  {
  }

  /** The minify list: an array is kept, a truthy value is wrapped, anything else gives ['js', 'css']; it is empty only when given empty. */
  lemma MinifyList(t: Value)
    ensures t.Arr? ==> MinifyFor(t) == t
    ensures !t.Arr? && Truthy(t) ==> MinifyFor(t).items == [t]
    ensures !Truthy(t) ==> MinifyFor(t).items == DefaultMinify
    ensures MinifyFor(t).items == [] <==> t == Arr([])
  {
  }

  /** Finding the last separator. */
  lemma {:induction false} LastSepIs(t: JsString, j: nat)
    requires j < |t| && IsSep(t[j])
    requires forall k :: j < k < |t| ==> !IsSep(t[k])
    ensures LastSep(t) == j
  {
    if j < |t| - 1 {
      LastSepIs(t[..|t| - 1], j);
    }
  }

  /** Conversely, a directory, a separator and a last component lose exactly the component and that separator. */
  lemma DropLastComponentOf(dir: JsString, sep: Unit, x: JsString)
    requires IsSep(sep) && LastComponent(x)
    ensures DropLastComponent(dir + [sep] + x) == dir
  {
    var s := dir + [sep] + x;
    var t := if IsSep(s[|s| - 1]) then s[..|s| - 1] else s;
    assert t[|dir|] == sep;
    forall k | |dir| < k < |t| ensures !IsSep(t[k]) {
      assert t[k] == x[k - |dir| - 1];
    }
    LastSepIs(t, |dir|);
    assert s[..|dir|] == dir;
  }

  /** `setRoot("<dir>/<file>")` for a clean canonical path makes `<dir>` the root. */
  lemma SetRootParent(cwd: JsString, dir: JsString, name: JsString)
    requires IsAbsolute(cwd)
    requires CanonicalAbs(dir + [Slash] + name) && AllSafe(dir + [Slash] + name)
    requires name != [] && forall k :: 0 <= k < |name| ==> !IsSep(name[k])
    ensures RootFor(cwd, dir + [Slash] + name) == Some(dir)
  {
    var p := dir + [Slash] + name;
    ResolveCanonical(cwd, p);
    SanitizerProperties.CleanedStrUnchanged(p, false);
    DropLastComponentOf(dir, Slash, name);
  }

  /**
   * A flag given to `extended` is stored as given unless it is missing, and
   * a missing one turns the parser on; so a stored flag is off exactly when
   * a falsy value was passed explicitly, and passing it again keeps it.
   */
  lemma ExtendedFlag(v: Value)
    ensures FlagOrTrue(v) == v <==> !v.Undefined?
    ensures Truthy(FlagOrTrue(v)) <==> v.Undefined? || Truthy(v)
    ensures FlagOrTrue(FlagOrTrue(v)) == FlagOrTrue(v)
  {
  }
}

/**
 * The request fields the per-request middleware normalises before any route
 * sees them: the host name, the client address, the URL path, and the
 * `req.data` merge of the GET and POST handlers.
 */
module Request {
  import opened JsStrings
  import opened JsValues
  import opened Sanitizer
  import SanitizerProperties

  const Colon: Unit := 58
  const Slash: Unit := 47
  const Question: Unit := 63
  const OpenBracket: Unit := 91
  const CloseBracket: Unit := 93

  // ----- host -----

  /** The units `[\w_\-./:]` matches: letters, digits, '_', '-', '.', '/' and ':'. */
  predicate HostChar(u: Unit) {
    (65 <= u <= 90) || (97 <= u <= 122) || IsDigit(u) || u == 95 || u == 45 || u == 46 || u == Slash || u == Colon
  }

  /** Upper-case ASCII letters to lower case, for the case-insensitive match. */
  function Lower(u: Unit): Unit {
    if 65 <= u <= 90 then u + 32 else u
  }

  /** The length of a match of `/https?:\/\//i` at the start of `s`, 0 when there is none. */
  function SchemeLen(s: JsString): (n: nat)
    ensures n == 0 || n == 7 || n == 8
    ensures n <= |s|
    ensures n > 0 ==> s[n - 3] == Colon
  {
    if |s| >= 7 && Lower(s[0]) == 104 && Lower(s[1]) == 116 && Lower(s[2]) == 116 && Lower(s[3]) == 112 then
      if |s| >= 8 && Lower(s[4]) == 115 && s[5] == Colon && s[6] == Slash && s[7] == Slash then 8
      else if s[4] == Colon && s[5] == Slash && s[6] == Slash then 7
      else 0
    else 0
  }

  /** `.replace(/https?:\/\//i, '')`: the leftmost match, if any, is removed. */
  function RemoveScheme(s: JsString): (r: JsString)
    ensures |r| <= |s|
    ensures forall u :: u in r ==> u in s
    decreases |s|
  {
    if s == [] then []
    else if SchemeLen(s) > 0 then s[SchemeLen(s)..]
    else [s[0]] + RemoveScheme(s[1..])
  }

  /** `.split(':', 1).join('')`: everything before the first ':'. */
  function BeforeColon(s: JsString): (r: JsString)
    ensures StartsWith(s, r) && Colon !in r
    ensures |r| < |s| ==> s[|r|] == Colon
  {
    if s == [] || s[0] == Colon then [] else [s[0]] + BeforeColon(s[1..])
  }

  /** The host clean-up: keep `[\w\-./:]`, drop the first `http://` or `https://`, cut at the first ':'. */
  function CleanHost(host: JsString): (r: JsString)
    ensures Colon !in r
    ensures forall i :: 0 <= i < |r| ==> HostChar(r[i])
  {
    var kept := Filter(host, HostChar);
    var bare := RemoveScheme(kept);
    var r := BeforeColon(bare);
    FilterMembers(host, HostChar);
    assert forall i :: 0 <= i < |r| ==> r[i] in bare by {
      forall i | 0 <= i < |r| ensures r[i] in bare {
        assert r[i] == bare[i];
      }
    }
    r
  }

  /**
   * The host a request is given: `clean(hostname || headers.host || '')`,
   * then the clean-up when that is a non-empty string; `None` is the
   * "Invalid or Missing Host" answer.
   */
  function RequestHost(hostHeader: JsString): (r: Option<JsString>)
    ensures r.Some? ==> Colon !in r.value
  {
    var c := CleanedStr(hostHeader, false);
    if c.None? || c.value == [] then None else Some(CleanHost(c.value))
  }

  /** Without a ':' followed by '/', no scheme can match anywhere. */
  lemma {:induction false} RemoveSchemeNone(s: JsString)
    requires forall i :: 0 <= i < |s| - 1 ==> !(s[i] == Colon && s[i + 1] == Slash)
    ensures RemoveScheme(s) == s
  {
    if s != [] {
      RemoveSchemeNone(s[1..]);
    }
  }

  /** A string without ':' is not cut. */
  lemma {:induction false} BeforeColonNone(s: JsString)
    requires Colon !in s
    ensures BeforeColon(s) == s
  {
    if s != [] {
      BeforeColonNone(s[1..]);
    }
  }

  /** The clean-up is idempotent. */
  lemma CleanHostIdempotent(host: JsString)
    ensures CleanHost(CleanHost(host)) == CleanHost(host)
  {
    var r := CleanHost(host);
    FilterKeepsAll(r, HostChar);
    RemoveSchemeNone(r);
    BeforeColonNone(r);
  }

  /** A port after the name is cut off. */
  lemma HostDropsPort(name: JsString, port: JsString)
    requires forall i :: 0 <= i < |name| ==> HostChar(name[i]) && name[i] != Colon
    requires AllDigits(port)
    ensures CleanHost(name + [Colon] + port) == name
  {
    var s := name + [Colon] + port;
    forall i | 0 <= i < |s| ensures HostChar(s[i]) {
      if i > |name| {
        assert s[i] == port[i - |name| - 1];
      }
    }
    FilterKeepsAll(s, HostChar);
    forall i | 0 <= i < |s| - 1 ensures !(s[i] == Colon && s[i + 1] == Slash) {
      if i == |name| {
        assert s[i + 1] == port[0];
      }
    }
    RemoveSchemeNone(s);
    BeforeColonSplit(name, port);
  }

  lemma {:induction false} BeforeColonSplit(name: JsString, rest: JsString)
    requires Colon !in name
    ensures BeforeColon(name + [Colon] + rest) == name
  {
    if name != [] {
      assert (name + [Colon] + rest)[1..] == name[1..] + [Colon] + rest;
      BeforeColonSplit(name[1..], rest);
    }
  }

  /** "https://" in any letter case. */
  predicate IsHttps(p: JsString) {
    |p| == 8 && Lower(p[0]) == 104 && Lower(p[1]) == 116 && Lower(p[2]) == 116 && Lower(p[3]) == 112
    && Lower(p[4]) == 115 && p[5] == Colon && p[6] == Slash && p[7] == Slash
  }

  /** A leading "https://" (in any letter case) is removed. */
  lemma HostDropsScheme(scheme: JsString, name: JsString)
    requires IsHttps(scheme)
    requires forall i :: 0 <= i < |name| ==> HostChar(name[i]) && name[i] != Colon
    ensures CleanHost(scheme + name) == name
  {
    var s := scheme + name;
    forall i | 0 <= i < |s| ensures HostChar(s[i]) {
      if i >= 8 {
        assert s[i] == name[i - 8];
      }
    }
    FilterKeepsAll(s, HostChar);
    assert SchemeLen(s) == 8;
    assert s[8..] == name;
    BeforeColonNone(name);
  }

  // ----- client address -----

  /** The bracket stripping applied to the client address: one '[' in front and one ']' at the end go. */
  function StripBrackets(ip: JsString): (r: JsString)
    ensures var lo := if |ip| > 0 && ip[0] == OpenBracket then 1 else 0;
      var hi := if |ip| > 0 && ip[|ip| - 1] == CloseBracket then |ip| - 1 else |ip|;
      lo <= hi && r == ip[lo..hi]
  {
    if ip == [] then []
    else if ip[0] == OpenBracket && ip[|ip| - 1] == CloseBracket then ip[1..|ip| - 1]
    else if ip[0] == OpenBracket then ip[1..]
    else if ip[|ip| - 1] == CloseBracket then ip[..|ip| - 1]
    else ip
  }

  /** An IPv6 literal in brackets comes out bare. */
  lemma BracketedAddress(a: JsString)
    ensures StripBrackets([OpenBracket] + a + [CloseBracket]) == a
  {
    var s := [OpenBracket] + a + [CloseBracket];
    assert s[1..|s| - 1] == a;
  }

  /** An address without brackets at either end is left alone. */
  lemma BareAddress(a: JsString)
    requires a == [] || (a[0] != OpenBracket && a[|a| - 1] != CloseBracket)
    ensures StripBrackets(a) == a
  {
  }

  /** Only one layer goes: "[[x]]" becomes "[x]". */
  lemma OneLayerOnly(a: JsString)
    ensures StripBrackets([OpenBracket, OpenBracket] + a + [CloseBracket, CloseBracket]) == [OpenBracket] + a + [CloseBracket]
  {
    var s := [OpenBracket, OpenBracket] + a + [CloseBracket, CloseBracket];
    assert s[1..|s| - 1] == [OpenBracket] + a + [CloseBracket];
  }

  /** "::1". */
  const Loopback6: JsString := [58, 58, 49]

  /** The addresses the middleware treats as the local machine: "127.0.0.1", "localhost", "::1". */
  predicate IsLocal(ip: JsString) {
    ip == [49, 50, 55, 46, 48, 46, 48, 46, 49] || ip == [108, 111, 99, 97, 108, 104, 111, 115, 116] || ip == Loopback6
  }

  /** "[::1]" is recognised as local once its brackets are gone. */
  lemma BracketedLoopbackIsLocal()
    ensures IsLocal(StripBrackets([OpenBracket] + Loopback6 + [CloseBracket]))
  {
    BracketedAddress(Loopback6);
  }

  // ----- URL -----

  /** The units `.` does not match. */
  predicate IsLineTerminator(u: Unit) {
    u == 10 || u == 13 || u == 0x2028 || u == 0x2029
  }

  /** The index of the first line terminator at or after `i`, or `|s|`. */
  function NextLineEnd(s: JsString, i: nat): (j: nat)
    requires i <= |s|
    ensures i <= j <= |s|
    ensures forall k :: i <= k < j ==> !IsLineTerminator(s[k])
    ensures j < |s| ==> IsLineTerminator(s[j])
    decreases |s| - i
  {
    if i == |s| || IsLineTerminator(s[i]) then i else NextLineEnd(s, i + 1)
  }

  /** The index of the first '?', or `|s|`. */
  function FirstQuestion(s: JsString): (i: nat)
    ensures i <= |s|
    ensures forall k :: 0 <= k < i ==> s[k] != Question
    ensures i < |s| ==> s[i] == Question
  {
    if s == [] || s[0] == Question then 0 else 1 + FirstQuestion(s[1..])
  }

  /** `.replace(/\?.*\/, '')`: from the first '?' up to the next line terminator. */
  function DropQuery(s: JsString): JsString {
    var i := FirstQuestion(s);
    if i == |s| then s else s[..i] + s[NextLineEnd(s, i)..]
  }

  /** `.replace(/\/$/, '')`: one trailing '/' goes. */
  function DropTrailingSlash(s: JsString): JsString {
    if |s| > 0 && s[|s| - 1] == Slash then s[..|s| - 1] else s
  }

  /**
   * `req.url` after the middleware: query dropped, cleaned, and unless it is
   * "/" one trailing slash removed. `None` is the TypeError raised when
   * cleaning gives `undefined`.
   */
  function NormalizeUrl(url: JsString): (r: Option<JsString>)
    ensures r.Some? ==> |r.value| > 0 && AllSafe(r.value)
  {
    var c := CleanedStr(DropQuery(url), false);
    if c.None? then None
    else if c.value == [Slash] then c
    else Some(DropTrailingSlash(c.value))
  }

  /** A query after the path is dropped entirely when it holds no line terminator. */
  lemma DropsQuery(path: JsString, query: JsString)
    requires Question !in path
    requires forall k :: 0 <= k < |query| ==> !IsLineTerminator(query[k])
    ensures DropQuery(path + [Question] + query) == path
  {
    var s := path + [Question] + query;
    assert s[|path|] == Question;
    assert FirstQuestion(s) == |path| by {
      FirstQuestionAfter(path, [Question] + query);
    }
    assert NextLineEnd(s, |path|) == |s| by {
      forall k | |path| <= k < |s| ensures !IsLineTerminator(s[k]) {
        if k > |path| {
          assert s[k] == query[k - |path| - 1];
        }
      }
      NextLineEndNone(s, |path|);
    }
    assert s[..|path|] == path;
  }

  /** The first '?' of `a + b`, when `a` has none, is the first '?' of `b`. */
  lemma {:induction false} FirstQuestionAfter(a: JsString, b: JsString)
    requires Question !in a
    ensures FirstQuestion(a + b) == |a| + FirstQuestion(b)
  {
    if a != [] {
      assert (a + b)[1..] == a[1..] + b;
      FirstQuestionAfter(a[1..], b);
    } else {
      assert a + b == b;
    }
  }

  /** Without a line terminator after `i`, the next line end is the end. */
  lemma {:induction false} NextLineEndNone(s: JsString, i: nat)
    requires i <= |s|
    requires forall k :: i <= k < |s| ==> !IsLineTerminator(s[k])
    ensures NextLineEnd(s, i) == |s|
    decreases |s| - i
  {
    if i < |s| {
      NextLineEndNone(s, i + 1);
    }
  }

  /** A clean path with a query: the query goes, and so does one trailing slash unless the path is "/". */
  lemma UrlWithQuery(path: JsString, query: JsString)
    requires path != [] && AllSafe(path) && Question !in path
    requires forall k :: 0 <= k < |query| ==> !IsLineTerminator(query[k])
    ensures NormalizeUrl(path + [Question] + query) == Some(if path == [Slash] then path else DropTrailingSlash(path))
  {
    DropsQuery(path, query);
    SanitizerProperties.CleanedStrUnchanged(path, false);
  }

  /** Only one slash goes: "/a//" becomes "/a/". */
  lemma OneSlashOnly(s: JsString)
    requires s == [Slash, 97, Slash, Slash]
    ensures NormalizeUrl(s) == Some([Slash, 97, Slash])
  {
    assert Question !in s;
    FirstQuestionAfter(s, []);
    assert s + [] == s;
    assert DropQuery(s) == s;
    assert AllSafe(s);
    SanitizerProperties.CleanedStrUnchanged(s, false);
    assert s[..3] == [Slash, 97, Slash];
  }

  // ----- req.data -----

  /**
   * The GET and POST handlers: `req.data` becomes `{}` unless it is an
   * object; then, when the query (GET) or body (POST) is an object,
   * `req.data = Object.assign(clean(source), req.data)`.
   */
  function MergeData(data: Value, source: Value): (r: Value)
    ensures r.Obj?
  {
    var d := if Truthy(data) && VarType(data) == "object" then data.props else [];
    if VarType(source) == "object" then Obj(Assign(CleanedObject(source.props, false), d)) else Obj(d)
  }

  /**
   * After the merge the keys are those of the cleaned source and of the
   * data; a key the data has keeps the data's value, any other key has the
   * cleaned source's value.
   */
  lemma DataWins(data: Props, source: Props)
    ensures var r := MergeData(Obj(data), Obj(source)).props;
      Keys(r) == Keys(CleanedObject(source, false)) + Keys(data)
      && (forall k :: Lookup(r, k) == (if k in Keys(data) then LastLookup(data, k) else Lookup(CleanedObject(source, false), k)))
  {
    assert Truthy(Obj(data)) && VarType(Obj(data)) == "object" && VarType(Obj(source)) == "object";
    assert MergeData(Obj(data), Obj(source)) == Obj(Assign(CleanedObject(source, false), data));
    AssignLookup(CleanedObject(source, false), data);
  }

  /** Data that is not an object is dropped, and a source that is not an object adds nothing. */
  lemma MergeDataFallbacks(data: Value, source: Value)
    ensures !data.Obj? ==> MergeData(data, source) == MergeData(Obj([]), source)
    ensures !source.Obj? ==> MergeData(data, source) == Obj(if data.Obj? then data.props else [])
  {
  }

  /** Merging keeps keys distinct when the data's keys are. */
  lemma MergeDataDistinct(data: Props, source: Props)
    requires DistinctKeys(data)
    ensures DistinctKeys(MergeData(Obj(data), Obj(source)).props)
  {
    SanitizerProperties.CleanedObjectDistinct(source, false);
    AssignDistinct(CleanedObject(source, false), data);
  }
}

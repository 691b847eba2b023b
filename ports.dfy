/**
 * Ports: `normalizePort(val)`, the argument swap at the top of
 * `start(port, pageHandler)`, and the value the server finally listens on.
 *
 * `normalizePort` goes through `parseInt(val, 10)`, which first applies the
 * ToString conversion to its argument (for an array, through
 * `Array.prototype.join`); both are modelled here on integers: an
 * optional run of white space, an optional sign, then the longest run of
 * decimal digits, `NaN` (`None`) when there is none.
 */
module Ports {
  import opened JsStrings
  import opened JsValues
  import opened Sanitizer
  import SanitizerProperties

  const Comma: Unit := 44
  const Minus: Unit := 45
  const Plus: Unit := 43
  const Slash: Unit := 47

  /** "null". */
  const NullText: JsString := [110, 117, 108, 108]
  /** "true". */
  const TrueText: JsString := [116, 114, 117, 101]
  /** "false". */
  const FalseText: JsString := [102, 97, 108, 115, 101]
  /** "[object Object]". */
  const ObjectText: JsString := [91, 111, 98, 106, 101, 99, 116, 32, 79, 98, 106, 101, 99, 116, 93]
  /** "function () {}". */
  const FunctionText: JsString := [102, 117, 110, 99, 116, 105, 111, 110, 32, 40, 41, 32, 123, 125]

  /**
   * The ToString conversion `parseInt` applies to its argument; `None` is
   * the TypeError it raises for a symbol (unlike `String(v)`, which gives
   * "Symbol(d)"), also when the symbol sits inside an array. A function's text
   * is its source, which starts with a keyword, a name or a bracket; one such
   * text stands for all of them.
   */
  function ToStr(v: Value): (r: Option<JsString>)
    ensures v.Str? ==> r == Some(v.s)
    ensures v.Sym? ==> r.None?
  {
    match v
    case Null => Some(NullText)
    case Undefined => Some(UndefinedText)
    case Num(n) => Some(DecimalString(n))
    case Bool(b) => Some(if b then TrueText else FalseText)
    case Str(s) => Some(s)
    case Arr(items) =>
      JoinParts(seq(|items|, i requires 0 <= i < |items| =>
        if items[i].Null? || items[i].Undefined? then Some([]) else ToStr(items[i])))
    case Obj(_) => Some(ObjectText)
    case Re(source, flags) => Some([Slash] + source + [Slash] + flags)
    case Sym(_) => None
    case Big(i) => Some(DecimalString(i))
    case Func => Some(FunctionText)
  }

  /** `items.join(',')` over the elements' texts; a text that could not be made fails the whole join. */
  function JoinParts(parts: seq<Option<JsString>>): Option<JsString> {
    if parts == [] then Some([])
    else if parts[0].None? then None
    else if |parts| == 1 then parts[0]
    else
      var rest := JoinParts(parts[1..]);
      if rest.None? then None else Some(parts[0].value + [Comma] + rest.value)
  }

  /** The white space and line terminators `parseInt` and `Number` skip. */
  predicate IsSpace(u: Unit) {
    u == 9 || u == 10 || u == 11 || u == 12 || u == 13 || u == 32 || u == 0xA0 || u == 0x1680
    || (0x2000 <= u <= 0x200A) || u == 0x2028 || u == 0x2029 || u == 0x202F || u == 0x205F
    || u == 0x3000 || u == 0xFEFF
  }

  /** `s` without its leading white space. */
  function TrimStart(s: JsString): (r: JsString)
    ensures |r| <= |s| && r == s[|s| - |r|..]
    ensures r != [] ==> !IsSpace(r[0])
  {
    if s != [] && IsSpace(s[0]) then TrimStart(s[1..]) else s
  }

  /** `s` without its trailing white space. */
  function TrimEnd(s: JsString): (r: JsString)
    ensures |r| <= |s| && r == s[..|r|]
    ensures r != [] ==> !IsSpace(r[|r| - 1])
  {
    if s != [] && IsSpace(s[|s| - 1]) then TrimEnd(s[..|s| - 1]) else s
  }

  /** The longest run of decimal digits `s` starts with. */
  function DigitRun(s: JsString): (r: JsString)
    ensures StartsWith(s, r) && AllDigits(r)
    ensures |r| < |s| ==> !IsDigit(s[|r|])
  {
    if s != [] && IsDigit(s[0]) then [s[0]] + DigitRun(s[1..]) else []
  }

  /** `parseInt(s, 10)`; `None` is `NaN`. */
  function ParseInt(s: JsString): Option<int> {
    var t := TrimStart(s);
    var negative := t != [] && t[0] == Minus;
    var body := if t != [] && (t[0] == Minus || t[0] == Plus) then t[1..] else t;
    var ds := DigitRun(body);
    if ds == [] then None
    else Some(if negative then -(DigitsValue(ds) as int) else DigitsValue(ds))
  }

  /** `normalizePort(val)`: the parsed port when it is not negative, `false` when it is, `val` itself when it is not a number. `None` is the TypeError the ToString conversion raises for a symbol. */
  function NormalizePort(val: Value): Option<Value> {
    var s := ToStr(val);
    if s.None? then None
    else
      var p := ParseInt(s.value);
      if p.None? then Some(val)
      else if p.value >= 0 then Some(Num(p.value))
      else Some(Bool(false))
  }

  /**
   * `Number(s)` on a string, for the integer forms: surrounding white space
   * is ignored, the empty string is 0, then an optional sign and decimal
   * digits. Every other text is taken as `NaN` (`None`).
   */
  function NumberOf(s: JsString): Option<int> {
    var t := TrimEnd(TrimStart(s));
    if t == [] then Some(0)
    else
      var body := if t[0] == Minus || t[0] == Plus then t[1..] else t;
      if body == [] || !AllDigits(body) then None
      else Some(if t[0] == Minus then -(DigitsValue(body) as int) else DigitsValue(body))
  }

  /** `Number(s)` is truthy: a number other than 0 and `NaN`. */
  predicate NumberTruthy(s: JsString) {
    var n := NumberOf(s);
    n.Some? && n.value != 0
  }

  /** `port = 3000` as a default parameter: only `undefined` takes the default. */
  function PortOrDefault(port: Value): Value {
    if port.Undefined? then Num(3000) else port
  }

  /** `pageHandler || 3000`. */
  function HandlerOrDefault(handler: Value): Value {
    if Truthy(handler) then handler else Num(3000)
  }

  /**
   * The swap at the top of `start(port, pageHandler)`, as written: when the
   * first argument is a string whose `Number` is truthy, or a function or a
   * plain object, it becomes the page handler and `pageHandler || 3000` the
   * port. Returns the (port, pageHandler) pair after the swap.
   */
  function StartArgs(port: Value, handler: Value): (Value, Value) {
    var p := PortOrDefault(port);
    if (p.Str? && NumberTruthy(p.s)) || VarType(p) == "function" || VarType(p) == "object" then
      (HandlerOrDefault(handler), p)
    else (p, handler)
  }

  /** The swap with the string test negated: a string that is not a usable number is a page module. */
  function StartArgsIntended(port: Value, handler: Value): (Value, Value) {
    var p := PortOrDefault(port);
    if (p.Str? && !NumberTruthy(p.s)) || VarType(p) == "function" || VarType(p) == "object" then
      (HandlerOrDefault(handler), p)
    else (p, handler)
  }

  /** `start` passes the handler after the swap to `setPages` when it is a function, an object or a string. */
  predicate LoadsPages(handler: Value) {
    VarType(handler) == "function" || VarType(handler) == "object" || VarType(handler) == "string"
  }

  /**
   * What `server.listen` is given: `normalizePort(clean(env || port || 3000)) || 3000`,
   * `env` being the PORT environment variable (`undefined` when unset).
   */
  function ListenPort(env: Value, port: Value): Option<Value> {
    var chosen := if Truthy(env) then env else if Truthy(port) then port else Num(3000);
    var n := NormalizePort(Cleaned(chosen, false));
    if n.None? then None
    else if Truthy(n.value) then n
    else Some(Num(3000))
  }

  // ----- lemmas -----

  /** A string that starts with a unit other than white space is not trimmed. */
  lemma TrimStartKeeps(s: JsString)
    requires s != [] && !IsSpace(s[0])
    ensures TrimStart(s) == s
  {
  }

  /** A string of digits is its own digit run. */
  lemma {:induction false} DigitRunAll(s: JsString)
    requires AllDigits(s)
    ensures DigitRun(s) == s
  {
    if s != [] {
      DigitRunAll(s[1..]);
    }
  }

  /** `parseInt` on digits. */
  lemma ParseIntDigits(ds: JsString)
    requires ds != [] && AllDigits(ds)
    ensures ParseInt(ds) == Some(DigitsValue(ds))
  {
    assert IsDigit(ds[0]);
    TrimStartKeeps(ds);
    DigitRunAll(ds);
  }

  /** `parseInt` on a minus sign and digits. */
  lemma ParseIntNegative(ds: JsString)
    requires ds != [] && AllDigits(ds)
    ensures ParseInt([Minus] + ds) == Some(-(DigitsValue(ds) as int))
  {
    var s := [Minus] + ds;
    TrimStartKeeps(s);
    assert s[1..] == ds;
    DigitRunAll(ds);
  }

  /** `parseInt(String(n))` reads back `n`. */
  lemma ParseIntDecimal(n: int)
    ensures ParseInt(DecimalString(n)) == Some(n)
  {
    var m: nat := if n < 0 then -n else n;
    DigitsRoundTrip(m);
    if n < 0 {
      ParseIntNegative(DecimalDigits(m));
    } else {
      ParseIntDigits(DecimalDigits(m));
    }
  }

  /** `parseInt(String(n) + rest)` still reads `n` when `rest` does not start with a digit. */
  lemma ParseIntDecimalThen(n: int, rest: JsString)
    requires rest != [] && !IsDigit(rest[0])
    ensures ParseInt(DecimalString(n) + rest) == Some(n)
  {
    var m: nat := if n < 0 then -n else n;
    var ds := DecimalDigits(m);
    DigitsRoundTrip(m);
    if n < 0 {
      assert DecimalString(n) + rest == [Minus] + (ds + rest);
      ParseIntMinusPrefix(ds, rest);
    } else {
      ParseIntPrefix(ds, rest);
    }
  }

  /** A minus sign, digits, then a unit that is not a digit: `parseInt` reads the negated digits. */
  lemma ParseIntMinusPrefix(ds: JsString, rest: JsString)
    requires ds != [] && AllDigits(ds)
    requires rest != [] && !IsDigit(rest[0])
    ensures ParseInt([Minus] + (ds + rest)) == Some(-(DigitsValue(ds) as int))
  {
    var s := [Minus] + (ds + rest);
    TrimStartKeeps(s);
    assert s[0] == Minus;
    assert s[1..] == ds + rest;
    DigitRunPrefix(ds, rest);
    assert DigitRun(s[1..]) == ds;
  }

  /** Digits followed by a unit that is not a digit: `parseInt` stops there. */
  lemma ParseIntPrefix(ds: JsString, rest: JsString)
    requires ds != [] && AllDigits(ds)
    requires rest != [] && !IsDigit(rest[0])
    ensures ParseInt(ds + rest) == Some(DigitsValue(ds))
  {
    DigitRunPrefix(ds, rest);
    TrimStartKeeps(ds + rest);
  }

  lemma {:induction false} DigitRunPrefix(ds: JsString, rest: JsString)
    requires AllDigits(ds)
    requires rest == [] || !IsDigit(rest[0])
    ensures DigitRun(ds + rest) == ds
  {
    if ds != [] {
      assert (ds + rest)[1..] == ds[1..] + rest;
      DigitRunPrefix(ds[1..], rest);
    } else {
      assert ds + rest == rest;
    }
  }

  /** A number comes back as itself when it is not negative and as `false` when it is. */
  lemma NormalizePortNumber(n: int)
    ensures NormalizePort(Num(n)) == Some(if n >= 0 then Num(n) else Bool(false))
  {
    ParseIntDecimal(n);
  }

  /** A string of digits becomes the number it spells. */
  lemma NormalizePortDigits(s: JsString)
    requires s != [] && AllDigits(s)
    ensures NormalizePort(Str(s)) == Some(Num(DigitsValue(s)))
  {
    ParseIntDigits(s);
  }

  /** A string that does not start, after white space and a sign, with a digit is returned unchanged. */
  lemma NormalizePortNotNumeric(s: JsString)
    requires var t := TrimStart(s);
      var body := if t != [] && (t[0] == Minus || t[0] == Plus) then t[1..] else t;
      body == [] || !IsDigit(body[0])
    ensures NormalizePort(Str(s)) == Some(Str(s))
  {
  }

  /** Every result is the input itself, `false`, or a number that is not negative; only a symbol (anywhere the ToString conversion reaches) fails. */
  lemma NormalizePortKinds(val: Value)
    ensures NormalizePort(val).None? <==> ToStr(val).None?
    ensures NormalizePort(val).Some? ==>
      var r := NormalizePort(val).value;
      r == val || r == Bool(false) || (r.Num? && r.n >= 0)
  {
    var s := ToStr(val);
    if s.Some? {
      var p := ParseInt(s.value);
      assert NormalizePort(val) == if p.None? then Some(val) else if p.value >= 0 then Some(Num(p.value)) else Some(Bool(false));
    }
  }

  /** A number `normalizePort` returns is never negative, even when it is the input itself. */
  lemma NormalizePortNonNegative(val: Value)
    requires NormalizePort(val).Some? && NormalizePort(val).value.Num?
    ensures NormalizePort(val).value.n >= 0
  {
    if val.Num? {
      NormalizePortNumber(val.n);
    }
  }

  /** "false" is not a number. */
  lemma FalseNotNumeric()
    ensures ParseInt(FalseText).None?
  {
    TrimStartKeeps(FalseText);
  }

  /** `normalizePort` is idempotent. */
  lemma NormalizePortIdempotent(val: Value)
    requires NormalizePort(val).Some?
    ensures NormalizePort(NormalizePort(val).value) == NormalizePort(val)
  {
    var r := NormalizePort(val).value;
    NormalizePortKinds(val);
    if r == val {
    } else if r.Num? {
      NormalizePortNumber(r.n);
    } else {
      assert ToStr(r) == Some(FalseText);
      FalseNotNumeric();
    }
  }

  /** A one-element array reads as its element's text. */
  lemma ToStrSingleton(x: Value)
    requires !x.Null? && !x.Undefined?
    ensures ToStr(Arr([x])) == ToStr(x)
  {
    var parts := seq(1, i requires 0 <= i < 1 => if [x][i].Null? || [x][i].Undefined? then Some([]) else ToStr([x][i]));
    assert parts == [ToStr(x)];
  }

  /** An array is read through its text: `[8080]` is port 8080. */
  lemma NormalizePortArray()
    ensures NormalizePort(Arr([Num(8080)])) == Some(Num(8080))
  {
    ToStrSingleton(Num(8080));
    ParseIntDecimal(8080);
  }

  /** The swap as written moves a numeric port string into the page handler's place. */
  lemma NumericPortBecomesHandler(s: JsString, handler: Value)
    requires NumberTruthy(s) && Truthy(handler)
    ensures StartArgs(Str(s), handler) == (handler, Str(s))
    ensures LoadsPages(StartArgs(Str(s), handler).1)
  {
  }

  /** "8080" as a number. */
  lemma Number8080(s: JsString)
    requires s == [56, 48, 56, 48]
    ensures NumberOf(s) == Some(8080)
  {
    TrimStartKeeps(s);
    assert TrimEnd(s) == s;
    assert AllDigits(s);
    var a, b, c := s[..1], s[..2], s[..3];
    assert a == [56] && b[..1] == a && c[..2] == b && s[..3] == c;
    assert DigitsValue(a) == 8;
    assert DigitsValue(b) == 80;
    assert DigitsValue(c) == 808;
  }

  /** `start("8080", handler)`: the handler becomes the port and "8080" the page module to `require`. */
  lemma PortStringExample()
    ensures StartArgs(Str([56, 48, 56, 48]), Func) == (Func, Str([56, 48, 56, 48]))
  {
    Number8080([56, 48, 56, 48]);
    NumericPortBecomesHandler([56, 48, 56, 48], Func);
  }

  /** With the test negated, a numeric port string stays the port and the handler stays the handler. */
  lemma IntendedKeepsNumericPort(s: JsString, handler: Value)
    requires NumberTruthy(s)
    ensures StartArgsIntended(Str(s), handler) == (Str(s), handler)
  {
  }

  /** With the test negated, a string that is not a usable number becomes the page handler. */
  lemma IntendedMovesModulePath(s: JsString, handler: Value)
    requires !NumberTruthy(s)
    ensures StartArgsIntended(Str(s), handler) == (HandlerOrDefault(handler), Str(s))
  {
  }

  /** The two swaps differ only on strings. */
  lemma SwapsAgreeOffStrings(port: Value, handler: Value)
    requires !port.Str?
    ensures StartArgs(port, handler) == StartArgsIntended(port, handler)
  {
  }

  /** The server listens on a truthy value: a positive number, or a value that was not numeric (a pipe name, say). */
  lemma ListenPortKinds(env: Value, port: Value)
    requires ListenPort(env, port).Some?
    ensures Truthy(ListenPort(env, port).value)
    ensures ListenPort(env, port).value.Num? ==> ListenPort(env, port).value.n > 0
  {
    var chosen := if Truthy(env) then env else if Truthy(port) then port else Num(3000);
    var c := Cleaned(chosen, false);
    if NormalizePort(c).value.Num? {
      NormalizePortNonNegative(c);
    }
  }

  /** A PORT variable made of digits, not all zero, is the port listened on, whatever `start` was given. */
  lemma ListenPortFromEnv(s: JsString, port: Value)
    requires s != [] && AllDigits(s) && DigitsValue(s) > 0
    ensures ListenPort(Str(s), port) == Some(Num(DigitsValue(s)))
  {
    CleanedDigits(s);
    NormalizePortDigits(s);
  }

  /** A string of digits comes through `clean` as it is. */
  lemma CleanedDigits(s: JsString)
    requires s != [] && AllDigits(s)
    ensures Cleaned(Str(s), false) == Str(s)
  {
    SanitizerProperties.CleanedStrUnchanged(s, false);
  }
}

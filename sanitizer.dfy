/**
 * The request sanitiser `clean(input, allowControlChars = false)`.
 *
 * Strings lose their control characters and anything outside printable
 * ASCII; a string that would still hold a non-ASCII unit afterwards becomes
 * `undefined`. Arrays, objects, regular expressions, symbols and BigInts are
 * rebuilt from cleaned parts; other scalars come back as they are, and any
 * other kind (a function) becomes `undefined`.
 *
 * `CleanedStr` and `Cleaned` say what the result is; the methods `CleanStr`,
 * `CleanArr`, `CleanObj` and `CleanType` follow the loops and the dispatch of
 * the source and are proved to compute them.
 */
module Sanitizer {
  import opened JsStrings
  import opened JsValues

  /** The code points outside Latin-1 that the slow path lets through: OE/oe, S/s with caron, Y with diaeresis, florin, dashes, quotes, daggers, bullet, ellipsis, per mille, euro, trade mark. */
  const AllowList: set<Unit> := {
    338, 339, 352, 353, 376, 402,
    8211, 8212, 8216, 8217, 8218, 8220, 8221, 8222, 8224, 8225, 8226, 8230, 8240, 8364, 8482
  }

  /** What `validator.stripLow(s, {keep_new_lines: true})` removes: 0x00-0x1F except LF and CR, and DEL. */
  predicate IsLowControl(u: Unit) {
    (u <= 0x1F && u != 10 && u != 13) || u == 0x7F
  }

  predicate NotLowControl(u: Unit) {
    !IsLowControl(u)
  }

  /** `validator.stripLow(s, {keep_new_lines: true})`. */
  function StripLow(s: JsString): JsString {
    Filter(s, NotLowControl)
  }

  /** `validator.isAscii(s)`: the library tests `/^[\x00-\x7F]+$/`, so the empty string is not ASCII. */
  predicate IsAscii(s: JsString) {
    |s| > 0 && forall i :: 0 <= i < |s| ==> s[i] < 128
  }

  /** The units the character loop keeps when control characters are not allowed. */
  predicate Kept(u: Unit) {
    (32 <= u <= 127) || (160 <= u <= 255) || u in AllowList
  }

  /** The units the character loop keeps when `allowControlChars` is set. */
  predicate KeptWithControls(u: Unit) {
    u <= 31 || Kept(u)
  }

  function KeepFor(allowControlChars: bool): Unit -> bool {
    if allowControlChars then KeptWithControls else Kept
  }

  /** The loop's test, as the source writes it. */
  lemma KeepForIs(u: Unit, allowControlChars: bool)
    ensures KeepFor(allowControlChars)(u) <==>
      (allowControlChars && 0 <= u <= 31) || (32 <= u <= 127) || (160 <= u <= 255) || u in AllowList
  {
  }

  /** Units the loop keeps that are not ASCII: a string still holding one is dropped. */
  predicate WideKept(u: Unit) {
    (160 <= u <= 255) || u in AllowList
  }

  predicate Printable(u: Unit) {
    32 <= u <= 126
  }

  predicate PrintableOrNewline(u: Unit) {
    Printable(u) || u == 10 || u == 13
  }

  /** Every unit is printable ASCII, LF or CR. */
  predicate AllSafe(s: JsString) {
    forall i :: 0 <= i < |s| ==> PrintableOrNewline(s[i])
  }

  /**
   * `cleanStr`: strip the low control characters; an ASCII result is
   * returned as it is. Otherwise keep, in order, the units the loop allows,
   * and return that if it is ASCII, else `undefined` (`None`).
   */
  function CleanedStr(s: JsString, allowControlChars: bool): (r: Option<JsString>)
    ensures r.Some? ==> IsAscii(r.value) && AllSafe(r.value)
  {
    var t := StripLow(s);
    if IsAscii(t) then
      FilterMembers(s, NotLowControl);
      Some(t)
    else
      var out := Filter(t, KeepFor(allowControlChars));
      FilterMembers(s, NotLowControl);
      FilterMembers(t, KeepFor(allowControlChars));
      if IsAscii(out) then Some(out) else None
  }

  /** "undefined". */
  const UndefinedText: JsString := [117, 110, 100, 101, 102, 105, 110, 101, 100]
  /** "Symbol(". */
  const SymbolOpen: JsString := [83, 121, 109, 98, 111, 108, 40]
  /** ")". */
  const SymbolClose: JsString := [41]

  /** The key `output[key] = ...` stores under: a string as it is, `undefined` as "undefined". */
  function KeyOf(k: Option<JsString>): JsString {
    if k.Some? then k.value else UndefinedText
  }

  /** `cleanStr(x) || ''`. */
  function OrEmpty(k: Option<JsString>): JsString {
    if k.Some? then k.value else []
  }

  /** `Symbol.prototype.toString`: "Symbol(" + description + ")". */
  function SymbolString(description: JsString): JsString {
    SymbolOpen + description + SymbolClose
  }

  /** The characters the BigInt branch keeps: `[0-9.\-+enf_]`. */
  predicate BigIntChar(u: Unit) {
    IsDigit(u) || u == 46 || u == 45 || u == 43 || u == 101 || u == 110 || u == 102 || u == 95
  }

  /**
   * `BigInt(s)` on the strings the BigInt branch can produce: empty is 0n,
   * otherwise an optional sign and decimal digits. Anything else is a
   * SyntaxError (`None`).
   */
  function ParseBigInt(s: JsString): Option<int> {
    if s == [] then Some(0)
    else if (s[0] == 45 || s[0] == 43) && |s| > 1 && AllDigits(s[1..]) then
      var n: int := DigitsValue(s[1..]);
      Some(if s[0] == 45 then -n else n)
    else if AllDigits(s) then Some(DigitsValue(s))
    else None
  }

  /** `input[key]` after `key` has been cleaned: the input's value under the cleaned key, or `undefined`. */
  function ValueAt(props: Props, k: JsString): Value {
    if k in Keys(props) then props[IndexOfKey(props, k)].1 else Undefined
  }

  /**
   * `cleanType`: the cleaned copy of a value.
   *
   * The object case follows `cleanObj`, which overwrites `key` with its
   * cleaned form before it reads `input[key]`: each output property gets the
   * cleaned value the input holds under the CLEANED key.
   */
  function Cleaned(v: Value, allowControlChars: bool): Value
    decreases v, 2
  {
    match v
    case Null => Null
    case Undefined => Undefined
    case Num(n) => Num(n)
    case Bool(b) => Bool(b)
    case Str(s) =>
      var c := CleanedStr(s, allowControlChars);
      if c.Some? then Str(c.value) else Undefined
    case Arr(items) => Arr(CleanedItems(items, allowControlChars))
    case Obj(props) => Obj(CleanedObject(props, allowControlChars))
    case Re(source, flags) =>
      var body := OrEmpty(CleanedStr(source, allowControlChars));
      if body == [] then Undefined
      else Re(body, OrEmpty(CleanedStr(flags, allowControlChars)))
    case Sym(description) =>
      var c := CleanedStr(SymbolString(description), allowControlChars);
      if c.Some? then Sym(c.value) else Undefined
    case Big(i) =>
      var p := ParseBigInt(Filter(DecimalString(i), BigIntChar));
      // `BigInt` would throw here; BigIntUnchanged shows it never does.
      if p.Some? then Big(p.value) else Undefined
    case Func => Undefined
  }

  /** `cleanArr`: every element cleaned, in place. */
  function CleanedItems(items: seq<Value>, allowControlChars: bool): (r: seq<Value>)
    ensures |r| == |items|
    decreases Arr(items), 0
  {
    seq(|items|, i requires 0 <= i < |items| => Cleaned(items[i], allowControlChars))
  }

  /** `cleanObj`: the assignments below, made one after the other into an empty object. */
  function CleanedObject(props: Props, allowControlChars: bool): Props
    decreases Obj(props), 1
  {
    Assign([], CleanedPairs(props, allowControlChars))
  }

  /** The assignments `cleanObj` makes, in `Object.keys` order: cleaned key, cleaned value read under that key. */
  function CleanedPairs(props: Props, allowControlChars: bool): (r: Props)
    ensures |r| == |props|
    decreases Obj(props), 0
  {
    seq(|props|, i requires 0 <= i < |props| =>
      var k := KeyOf(CleanedStr(props[i].0, allowControlChars));
      (k, if k in Keys(props) then Cleaned(props[IndexOfKey(props, k)].1, allowControlChars) else Undefined))
  }

  // ----- the imperative routines of the source -----

  /** `cleanStr`, with its character loop. */
  method CleanStr(input: JsString, allowControlChars: bool) returns (r: Option<JsString>)
    ensures r == CleanedStr(input, allowControlChars)
  {
    var s := StripLow(input);
    if IsAscii(s) {
      return Some(s);
    }
    var output: JsString := [];
    for i := 0 to |s|
      invariant output == Filter(s[..i], KeepFor(allowControlChars))
    {
      var charCode := s[i];
      FilterSnoc(s, i, KeepFor(allowControlChars));
      KeepForIs(charCode, allowControlChars);
      if (allowControlChars && 0 <= charCode <= 31) || (32 <= charCode <= 127) || (160 <= charCode <= 255) || charCode in AllowList {
        output := output + [charCode];
      }
    }
    assert s[..|s|] == s;
    if IsAscii(output) {
      return Some(output);
    }
    return None;
  }

  /** `cleanArr`: push the cleaned elements one by one. */
  method CleanArr(input: seq<Value>, allowControlChars: bool) returns (output: seq<Value>)
    ensures |output| == |input|
    ensures forall i :: 0 <= i < |input| ==> output[i] == Cleaned(input[i], allowControlChars)
    decreases Arr(input), 0
  {
    output := [];
    for i := 0 to |input|
      invariant |output| == i
      invariant forall j :: 0 <= j < i ==> output[j] == Cleaned(input[j], allowControlChars)
    {
      var value := CleanType(input[i], allowControlChars);
      output := output + [value];
    }
  }

  /**
   * `cleanObj`: for each key in order, clean the key (a string key goes
   * straight to `cleanStr`), then assign the cleaned `input[key]`.
   */
  method CleanObj(input: Props, allowControlChars: bool) returns (output: Props)
    ensures output == CleanedObject(input, allowControlChars)
    decreases Obj(input), 0
  {
    output := [];
    ghost var pairs := CleanedPairs(input, allowControlChars);
    for i := 0 to |input|
      invariant output == Assign([], pairs[..i])
    {
      var cleanedKey := CleanStr(input[i].0, allowControlChars);
      var key := KeyOf(cleanedKey);
      var value := Undefined;
      if key in Keys(input) {
        value := CleanType(input[IndexOfKey(input, key)].1, allowControlChars);
      }
      assert pairs[i] == (key, value);
      AssignSnoc([], pairs, i);
      output := Put(output, key, value);
    }
    assert pairs[..|input|] == pairs;
  }

  /** `cleanType`: the dispatch on `varType`. */
  method CleanType(input: Value, allowControlChars: bool) returns (r: Value)
    ensures r == Cleaned(input, allowControlChars)
    decreases input, 1
  {
    if input == Null {
      return Null;
    } else if input == Undefined {
      return Undefined;
    }
    // The source's `input === NaN` test can never succeed; numbers here are integers.
    var t := VarType(input);
    if t == "string" {
      var s := CleanStr(input.s, allowControlChars);
      r := if s.Some? then Str(s.value) else Undefined;
    } else if t == "array" {
      var items := CleanArr(input.items, allowControlChars);
      r := Arr(items);
    } else if t == "object" {
      var props := CleanObj(input.props, allowControlChars);
      r := Obj(props);
    } else if t == "number" {
      r := Num(input.n);
    } else if t == "boolean" {
      r := Bool(input.b);
    } else if t == "regex" {
      var f := CleanStr(input.flags, allowControlChars);
      var flags := OrEmpty(f);
      var b := CleanStr(input.source, allowControlChars);
      var re := OrEmpty(b);
      if re == [] {
        return Undefined;
      }
      r := Re(re, flags);
    } else if t == "symbol" {
      var s := CleanStr(SymbolString(input.description), allowControlChars);
      r := if s.Some? then Sym(s.value) else Undefined;
    } else if t == "bigint" {
      var p := ParseBigInt(Filter(DecimalString(input.i), BigIntChar));
      r := if p.Some? then Big(p.value) else Undefined;
    } else {
      r := Undefined;
    }
  }
}

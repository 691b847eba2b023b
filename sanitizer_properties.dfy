/**
 * What the sanitiser promises about its results: cleaned strings are
 * printable ASCII (plus LF/CR), a string holding a kept non-ASCII unit is
 * dropped whole, cleaning is idempotent on everything but symbols, BigInts and
 * other scalars pass through, and a cleaned object has distinct, clean keys
 * whose values are read under the cleaned key.
 */
module SanitizerProperties {
  import opened JsStrings
  import opened JsValues
  import opened Sanitizer

  // ----- strings -----

  predicate NotLowAndKept(u: Unit) {
    NotLowControl(u) && Kept(u)
  }

  predicate NotLowAndKeptWithControls(u: Unit) {
    NotLowControl(u) && KeptWithControls(u)
  }

  /** When stripping the low control characters already gives ASCII, exactly printable ASCII, LF and CR remain. */
  lemma FastPathFilters(s: JsString)
    requires IsAscii(StripLow(s))
    ensures StripLow(s) == Filter(s, PrintableOrNewline)
  {
    var t := StripLow(s);
    FilterMembers(s, NotLowControl);
    forall i | 0 <= i < |s| ensures NotLowControl(s[i]) == PrintableOrNewline(s[i]) {
      if NotLowControl(s[i]) {
        assert s[i] in t;
      }
    }
    FilterSame(s, NotLowControl, PrintableOrNewline);
  }

  /** On the slow path with control characters allowed, an ASCII result is the printable units, LF and CR. */
  lemma SlowPathWithControlsFilters(s: JsString)
    requires IsAscii(Filter(StripLow(s), KeptWithControls))
    ensures Filter(StripLow(s), KeptWithControls) == Filter(s, PrintableOrNewline)
  {
    var r := Filter(StripLow(s), KeptWithControls);
    FilterMembers(s, NotLowControl);
    FilterMembers(StripLow(s), KeptWithControls);
    FilterTwice(s, NotLowControl, KeptWithControls, NotLowAndKeptWithControls);
    forall i | 0 <= i < |s| ensures NotLowAndKeptWithControls(s[i]) == PrintableOrNewline(s[i]) {
      if NotLowAndKeptWithControls(s[i]) {
        assert s[i] in r;
      }
    }
    FilterSame(s, NotLowAndKeptWithControls, PrintableOrNewline);
  }

  /** On the slow path without control characters, an ASCII result is the printable units alone. */
  lemma SlowPathFilters(s: JsString)
    requires IsAscii(Filter(StripLow(s), Kept))
    ensures Filter(StripLow(s), Kept) == Filter(s, Printable)
  {
    var r := Filter(StripLow(s), Kept);
    FilterMembers(s, NotLowControl);
    FilterMembers(StripLow(s), Kept);
    FilterTwice(s, NotLowControl, Kept, NotLowAndKept);
    forall i | 0 <= i < |s| ensures NotLowAndKept(s[i]) == Printable(s[i]) {
      if NotLowAndKept(s[i]) {
        assert s[i] in r;
      }
    }
    FilterSame(s, NotLowAndKept, Printable);
  }

  /**
   * A cleaned string is the input with exactly the unsafe units removed:
   * printable ASCII always stays; LF and CR stay on the fast path (the
   * stripped string was already ASCII) or when control characters are
   * allowed, and go otherwise.
   */
  lemma CleanedStrFilters(s: JsString, allowControlChars: bool)
    requires CleanedStr(s, allowControlChars).Some?
    ensures allowControlChars || IsAscii(StripLow(s)) ==> CleanedStr(s, allowControlChars).value == Filter(s, PrintableOrNewline)
    ensures !allowControlChars && !IsAscii(StripLow(s)) ==> CleanedStr(s, allowControlChars).value == Filter(s, Printable)
  {
    if IsAscii(StripLow(s)) {
      FastPathFilters(s);
    } else if allowControlChars {
      SlowPathWithControlsFilters(s);
    } else {
      SlowPathFilters(s);
    }
  }

  /** A non-empty string made only of printable ASCII, LF and CR comes back unchanged. */
  lemma CleanedStrUnchanged(s: JsString, allowControlChars: bool)
    requires s != [] && AllSafe(s)
    ensures CleanedStr(s, allowControlChars) == Some(s)
  {
    FilterKeepsAll(s, NotLowControl);
  }

  /** Cleaning a cleaned string changes nothing. */
  lemma CleanedStrIdempotent(s: JsString, allowControlChars: bool)
    requires CleanedStr(s, allowControlChars).Some?
    ensures CleanedStr(CleanedStr(s, allowControlChars).value, allowControlChars) == CleanedStr(s, allowControlChars)
  {
    CleanedStrUnchanged(CleanedStr(s, allowControlChars).value, allowControlChars);
  }

  /** One accented Latin-1 letter or allow-listed typographic mark anywhere makes the whole string `undefined`. */
  lemma WideKeptDropsString(s: JsString, allowControlChars: bool, i: nat)
    requires i < |s| && WideKept(s[i])
    ensures CleanedStr(s, allowControlChars) == None
  {
    var t := StripLow(s);
    FilterMembers(s, NotLowControl);
    assert s[i] in t;
    var out := Filter(t, KeepFor(allowControlChars));
    FilterMembers(t, KeepFor(allowControlChars));
    assert s[i] in out;
  }

  /** Without such units, a string holding at least one printable character survives. */
  lemma PrintableStringSurvives(s: JsString, allowControlChars: bool, i: nat)
    requires i < |s| && Printable(s[i])
    requires forall j :: 0 <= j < |s| ==> !WideKept(s[j])
    ensures CleanedStr(s, allowControlChars).Some?
  {
    var t := StripLow(s);
    FilterMembers(s, NotLowControl);
    if !IsAscii(t) {
      assert s[i] in t;
      var out := Filter(t, KeepFor(allowControlChars));
      FilterMembers(t, KeepFor(allowControlChars));
      assert s[i] in out;
      forall j | 0 <= j < |out| ensures out[j] < 128 {
        assert out[j] in s;
      }
    }
  }

  /** A string with no printable unit, no LF or CR and no kept non-ASCII unit (the empty string among them) becomes `undefined`. */
  lemma NothingSafeIsUndefined(s: JsString, allowControlChars: bool)
    requires forall i :: 0 <= i < |s| ==> !PrintableOrNewline(s[i]) && !WideKept(s[i])
    ensures CleanedStr(s, allowControlChars) == None
  {
    var t := StripLow(s);
    FilterMembers(s, NotLowControl);
    if t != [] {
      assert t[0] in s;
    }
    var out := Filter(t, KeepFor(allowControlChars));
    FilterMembers(t, KeepFor(allowControlChars));
    if out != [] {
      assert out[0] in s;
    }
  }

  /** "café" (é is U+00E9) is dropped whole. */
  lemma AccentedWordDropped()
    ensures CleanedStr([99, 97, 102, 0xE9], false) == None
  {
    WideKeptDropsString([99, 97, 102, 0xE9], false, 3);
  }

  /** The fast path: when stripping leaves ASCII, that is the result. */
  lemma FastPathResult(s: JsString, allowControlChars: bool, out: JsString)
    requires StripLow(s) == out && IsAscii(out)
    ensures CleanedStr(s, allowControlChars) == Some(out)
  {
  }

  /** The slow path: when stripping leaves non-ASCII text, an ASCII result of the character loop is returned. */
  lemma SlowPathResult(s: JsString, allowControlChars: bool, t: JsString, out: JsString)
    requires StripLow(s) == t && !IsAscii(t)
    requires Filter(t, KeepFor(allowControlChars)) == out && IsAscii(out)
    ensures CleanedStr(s, allowControlChars) == Some(out)
  {
  }

  /** Stripping the low control characters, and the character loop, on a three-unit string. */
  lemma StripLowThree(s: JsString)
    requires |s| == 3
    ensures StripLow(s) == (if NotLowControl(s[0]) then [s[0]] else []) + (if NotLowControl(s[1]) then [s[1]] else []) + (if NotLowControl(s[2]) then [s[2]] else [])
  {
    assert s == [s[0], s[1], s[2]];
    FilterThree(s[0], s[1], s[2], NotLowControl);
  }

  lemma KeptThree(s: JsString, allowControlChars: bool)
    requires |s| == 3
    ensures var keep := KeepFor(allowControlChars);
      Filter(s, keep) == (if keep(s[0]) then [s[0]] else []) + (if keep(s[1]) then [s[1]] else []) + (if keep(s[2]) then [s[2]] else [])
  {
    assert s == [s[0], s[1], s[2]];
    FilterThree(s[0], s[1], s[2], KeepFor(allowControlChars));
  }

  /** The snowman U+2603 is kept in no mode. */
  lemma SnowmanNotKept(allowControlChars: bool)
    ensures !KeepFor(allowControlChars)(0x2603)
  {
    KeepForIs(0x2603, allowControlChars);
  }

  /** Stripping leaves a three-unit string with no low control character as it is. */
  lemma StripLowKeepsThree(s: JsString)
    requires |s| == 3 && NotLowControl(s[0]) && NotLowControl(s[1]) && NotLowControl(s[2])
    ensures StripLow(s) == s
  {
    StripLowThree(s);
  }

  /** What stripping and the character loop make of "a☃b". */
  lemma SnowmanUnits(s: JsString)
    requires s == [97, 0x2603, 98]
    ensures StripLow(s) == s && !IsAscii(s)
    ensures Filter(s, KeepFor(false)) == [97, 98]
  {
    StripLowKeepsThree(s);
    assert s[1] >= 128;
    KeepForIs(97, false);
    KeepForIs(98, false);
    SnowmanNotKept(false);
    KeptThree(s, false);
  }

  /** "a☃b": the snowman (U+2603) is outside every kept range and is removed. */
  lemma SnowmanRemoved(s: JsString)
    requires s == [97, 0x2603, 98]
    ensures CleanedStr(s, false) == Some([97, 98])
  {
    SnowmanUnits(s);
    SlowPathResult(s, false, s, [97, 98]);
  }

  /** What stripping and the character loop, with and without control characters, make of "a\n☃". */
  lemma NewlineSnowmanUnits(s: JsString)
    requires s == [97, 10, 0x2603]
    ensures StripLow(s) == s && !IsAscii(s)
    ensures Filter(s, KeepFor(false)) == [97]
    ensures Filter(s, KeepFor(true)) == [97, 10]
  {
    StripLowKeepsThree(s);
    assert s[2] >= 128;
    NewlineSnowmanKept(s, false);
    NewlineSnowmanKept(s, true);
  }

  /** The character loop on "a\n☃": the line feed stays only with control characters allowed. */
  lemma NewlineSnowmanKept(s: JsString, allowControlChars: bool)
    requires s == [97, 10, 0x2603]
    ensures Filter(s, KeepFor(allowControlChars)) == if allowControlChars then [97, 10] else [97]
  {
    KeepForIs(97, allowControlChars);
    KeepForIs(10, allowControlChars);
    SnowmanNotKept(allowControlChars);
    KeptThree(s, allowControlChars);
  }

  /** "a\n☃": on the slow path the line feed is dropped, although the fast path would have kept it. */
  lemma NewlineDroppedOnSlowPath(s: JsString)
    requires s == [97, 10, 0x2603]
    ensures CleanedStr(s, false) == Some([97])
  {
    NewlineSnowmanUnits(s);
    SlowPathResult(s, false, s, [97]);
  }

  /** "a\n☃" with control characters allowed: the line feed stays. */
  lemma NewlineKeptWithControls(s: JsString)
    requires s == [97, 10, 0x2603]
    ensures CleanedStr(s, true) == Some([97, 10])
  {
    NewlineSnowmanUnits(s);
    SlowPathResult(s, true, s, [97, 10]);
  }

  /** "a\n\x01": the control character goes and, the rest being ASCII, the line feed stays. */
  lemma ControlStrippedNewlineKept(s: JsString)
    requires s == [97, 10, 1]
    ensures CleanedStr(s, false) == Some([97, 10])
  {
    StripLowThree(s);
    assert StripLow(s) == [97, 10];
    assert IsAscii([97, 10]);
    FastPathResult(s, false, [97, 10]);
  }

  // ----- values -----

  /** Every string inside the value (keys, regex parts, symbol descriptions) is printable ASCII, LF or CR. */
  predicate DeepSafe(v: Value) {
    match v
    case Str(s) => AllSafe(s)
    case Arr(items) => forall i :: 0 <= i < |items| ==> DeepSafe(items[i])
    case Obj(props) => forall i :: 0 <= i < |props| ==> AllSafe(props[i].0) && DeepSafe(props[i].1)
    case Re(source, flags) => AllSafe(source) && AllSafe(flags)
    case Sym(description) => AllSafe(description)
    case _ => true
  }

  /** A one-property object with a safe key and a safe value is safe. */
  lemma DeepSafeEntry(k: JsString, v: Value)
    requires AllSafe(k) && DeepSafe(v)
    ensures DeepSafe(Obj([(k, v)]))
  {
  }

  /** No symbol occurs anywhere inside the value. */
  predicate SymbolFree(v: Value) {
    match v
    case Sym(_) => false
    case Arr(items) => forall i :: 0 <= i < |items| ==> SymbolFree(items[i])
    case Obj(props) => forall i :: 0 <= i < |props| ==> SymbolFree(props[i].1)
    case _ => true
  }

  /** The fixed texts `clean` adds are printable. */
  lemma FixedTextsSafe()
    ensures AllSafe(UndefinedText) && AllSafe(SymbolOpen) && AllSafe(SymbolClose)
  {
  }

  /** The key "undefined", which a dropped key turns into, cleans to itself. */
  lemma UndefinedKeyIsClean(allowControlChars: bool)
    ensures AllSafe(UndefinedText)
    ensures CleanedStr(UndefinedText, allowControlChars) == Some(UndefinedText)
  {
    FixedTextsSafe();
    CleanedStrUnchanged(UndefinedText, allowControlChars);
  }

  /** Every key `cleanObj` assigns is safe and cleans to itself. */
  lemma CleanedKeyIsFixed(k: JsString, allowControlChars: bool)
    ensures AllSafe(KeyOf(CleanedStr(k, allowControlChars)))
    ensures CleanedStr(KeyOf(CleanedStr(k, allowControlChars)), allowControlChars) == Some(KeyOf(CleanedStr(k, allowControlChars)))
  {
    if CleanedStr(k, allowControlChars).Some? {
      CleanedStrIdempotent(k, allowControlChars);
    } else {
      UndefinedKeyIsClean(allowControlChars);
    }
  }

  /** A cleaned value holds nothing but safe text, however deep. */
  lemma {:induction false} CleanedIsSafe(v: Value, allowControlChars: bool)
    ensures DeepSafe(Cleaned(v, allowControlChars))
    decreases v
  {
    match v
    case Arr(items) =>
      forall i | 0 <= i < |items| ensures DeepSafe(CleanedItems(items, allowControlChars)[i]) {
        CleanedIsSafe(items[i], allowControlChars);
      }
    case Obj(props) =>
      var pairs := CleanedPairs(props, allowControlChars);
      var out := Assign([], pairs);
      forall i | 0 <= i < |pairs| ensures AllSafe(pairs[i].0) && DeepSafe(pairs[i].1) {
        CleanedKeyIsFixed(props[i].0, allowControlChars);
        var k := pairs[i].0;
        if k in Keys(props) {
          CleanedIsSafe(props[IndexOfKey(props, k)].1, allowControlChars);
        }
      }
      AssignEntries([], pairs);
    case _ =>
  }

  /** The decimal text of a BigInt is made of characters the BigInt branch keeps. */
  lemma DecimalStringKept(i: int)
    ensures Filter(DecimalString(i), BigIntChar) == DecimalString(i)
  {
    var s := DecimalString(i);
    forall j | 0 <= j < |s| ensures BigIntChar(s[j]) {
      if i < 0 && j > 0 {
        assert s[j] == DecimalDigits(-i)[j - 1];
      }
    }
    FilterKeepsAll(s, BigIntChar);
  }

  /** Parsing the decimal text of a BigInt gives it back. */
  lemma DecimalStringParses(i: int)
    ensures ParseBigInt(DecimalString(i)) == Some(i)
  {
    var s := DecimalString(i);
    if i >= 0 {
      DigitsRoundTrip(i);
      assert s[0] != 45 && s[0] != 43;
    } else {
      var ds := DecimalDigits(-i);
      assert s[1..] == ds;
      DigitsRoundTrip(-i);
    }
  }

  /** The decimal text of a BigInt passes the character filter untouched and parses back to the same BigInt. */
  lemma BigIntTextRoundTrip(i: int)
    ensures ParseBigInt(Filter(DecimalString(i), BigIntChar)) == Some(i)
  {
    DecimalStringKept(i);
    DecimalStringParses(i);
  }

  /** A BigInt comes back as the same BigInt. */
  lemma BigIntUnchanged(i: int, allowControlChars: bool)
    ensures Cleaned(Big(i), allowControlChars) == Big(i)
  {
    BigIntTextRoundTrip(i);
  }

  /** `null`, `undefined`, numbers, booleans and BigInts pass through unchanged; a function becomes `undefined`. */
  lemma ScalarsPassThrough(v: Value, allowControlChars: bool)
    requires v.Null? || v.Undefined? || v.Num? || v.Bool? || v.Big?
    ensures Cleaned(v, allowControlChars) == v
    ensures Cleaned(Func, allowControlChars) == Undefined
  {
    if v.Big? {
      BigIntUnchanged(v.i, allowControlChars);
    }
  }

  /** A regular expression whose source holds a dropped unit is removed entirely. */
  lemma RegexWithWideSourceDropped(source: JsString, flags: JsString, allowControlChars: bool, i: nat)
    requires i < |source| && WideKept(source[i])
    ensures Cleaned(Re(source, flags), allowControlChars) == Undefined
  {
    WideKeptDropsString(source, allowControlChars, i);
  }

  /** "Symbol(" + d + ")" is safe when `d` is. */
  lemma SymbolStringSafe(d: JsString)
    requires AllSafe(d)
    ensures AllSafe(SymbolString(d)) && SymbolString(d) != []
  {
    FixedTextsSafe();
    var s := SymbolString(d);
    forall i | 0 <= i < |s|
      ensures PrintableOrNewline(s[i])
    {
      if i < |SymbolOpen| {
        assert s[i] == SymbolOpen[i];
      } else if i < |SymbolOpen| + |d| {
        assert s[i] == d[i - |SymbolOpen|];
      } else {
        assert s[i] == SymbolClose[i - |SymbolOpen| - |d|];
      }
    }
  }

  /** A symbol with a safe description becomes the symbol described by "Symbol(" + description + ")". */
  lemma SymbolDescriptionWrapped(d: JsString, allowControlChars: bool)
    requires AllSafe(d)
    ensures Cleaned(Sym(d), allowControlChars) == Sym(SymbolString(d))
  {
    var s := SymbolString(d);
    SymbolStringSafe(d);
    CleanedStrUnchanged(s, allowControlChars);
  }

  /** So cleaning is not idempotent on symbols: every pass wraps the description once more. */
  lemma SymbolGrowsEachPass(d: JsString, allowControlChars: bool)
    requires AllSafe(d)
    ensures Cleaned(Cleaned(Sym(d), allowControlChars), allowControlChars) != Cleaned(Sym(d), allowControlChars)
  {
    SymbolDescriptionWrapped(d, allowControlChars);
    var s := SymbolString(d);
    SymbolStringSafe(d);
    SymbolDescriptionWrapped(s, allowControlChars);
  }

  /** Each assignment `cleanObj` makes: the cleaned key, and the cleaned value the input holds under that key. */
  lemma PairValues(props: Props, allowControlChars: bool)
    ensures forall j :: 0 <= j < |props| ==>
      CleanedPairs(props, allowControlChars)[j] ==
        (KeyOf(CleanedStr(props[j].0, allowControlChars)), Cleaned(ValueAt(props, KeyOf(CleanedStr(props[j].0, allowControlChars))), allowControlChars))
  {
  }

  /** The cleaned forms of the keys of `props`, "undefined" standing for a key that cleans to nothing. */
  function CleanedKeys(props: Props, allowControlChars: bool): set<JsString> {
    set i | 0 <= i < |props| :: KeyOf(CleanedStr(props[i].0, allowControlChars))
  }

  /** The keys `cleanObj` assigns are the cleaned input keys. */
  lemma PairKeys(props: Props, allowControlChars: bool)
    ensures Keys(CleanedPairs(props, allowControlChars)) == CleanedKeys(props, allowControlChars)
  {
    var pairs := CleanedPairs(props, allowControlChars);
    KeysAsSet(pairs);
    var cleanedKeys := CleanedKeys(props, allowControlChars);
    forall k | k in cleanedKeys ensures k in Keys(pairs) {
      var i :| 0 <= i < |props| && KeyOf(CleanedStr(props[i].0, allowControlChars)) == k;
      assert pairs[i].0 == k;
    }
  }

  /** A cleaned object never has two properties with the same key. */
  lemma CleanedObjectDistinct(props: Props, allowControlChars: bool)
    ensures DistinctKeys(CleanedObject(props, allowControlChars))
  {
    AssignDistinct([], CleanedPairs(props, allowControlChars));
  }

  /** A cleaned object has no more properties than the input. */
  lemma CleanedObjectSize(props: Props, allowControlChars: bool)
    ensures |CleanedObject(props, allowControlChars)| <= |props|
  {
    AssignLength([], CleanedPairs(props, allowControlChars));
  }

  /** The keys of a cleaned object are the cleaned input keys. */
  lemma CleanedObjectKeys(props: Props, allowControlChars: bool)
    ensures Keys(CleanedObject(props, allowControlChars)) == CleanedKeys(props, allowControlChars)
  {
    var pairs := CleanedPairs(props, allowControlChars);
    AssignLookup([], pairs);
    PairKeys(props, allowControlChars);
  }

  /** Each key of a cleaned object holds the cleaned value the input has under that (cleaned) key. */
  lemma CleanedObjectValues(props: Props, allowControlChars: bool)
    ensures forall k :: k in Keys(CleanedObject(props, allowControlChars)) ==>
      Lookup(CleanedObject(props, allowControlChars), k) == Some(Cleaned(ValueAt(props, k), allowControlChars))
  {
    var pairs := CleanedPairs(props, allowControlChars);
    var out := Assign([], pairs);
    AssignLookup([], pairs);
    PairValues(props, allowControlChars);
    forall k | k in Keys(out) ensures Lookup(out, k) == Some(Cleaned(ValueAt(props, k), allowControlChars)) {
      var w := LastLookup(pairs, k).value;
      var j :| 0 <= j < |pairs| && pairs[j] == (k, w);
    }
  }

  /**
   * An object whose keys are already clean keeps its keys and their order;
   * only the values are cleaned.
   */
  lemma ObjectWithCleanKeys(props: Props, allowControlChars: bool)
    requires DistinctKeys(props)
    requires forall i :: 0 <= i < |props| ==> CleanedStr(props[i].0, allowControlChars) == Some(props[i].0)
    ensures |CleanedObject(props, allowControlChars)| == |props|
    ensures forall i :: 0 <= i < |props| ==> CleanedObject(props, allowControlChars)[i] == (props[i].0, Cleaned(props[i].1, allowControlChars))
  {
    var pairs := CleanedPairs(props, allowControlChars);
    forall i | 0 <= i < |props| ensures pairs[i] == (props[i].0, Cleaned(props[i].1, allowControlChars)) {
      assert IndexOfKey(props, props[i].0) == i;
    }
    assert DistinctKeys(pairs);
    AssignIntoEmpty(pairs);
  }

  /**
   * A key that changes under cleaning does not carry its value along: when
   * the cleaned name is not itself a key of the input, it ends up holding
   * `undefined`.
   */
  lemma RenamedKeyLosesValue(props: Props, allowControlChars: bool, i: nat, cleanedKey: JsString)
    requires i < |props| && CleanedStr(props[i].0, allowControlChars) == Some(cleanedKey)
    requires cleanedKey !in Keys(props)
    ensures Lookup(CleanedObject(props, allowControlChars), cleanedKey) == Some(Undefined)
  {
    CleanedObjectKeys(props, allowControlChars);
    CleanedObjectValues(props, allowControlChars);
    assert cleanedKey in CleanedKeys(props, allowControlChars);
  }

  /** Stripping the low control characters from a two-unit string. */
  lemma StripLowTwo(a: Unit, b: Unit)
    ensures StripLow([a, b]) == (if NotLowControl(a) then [a] else []) + (if NotLowControl(b) then [b] else [])
  {
    assert [a, b][..1] == [a];
    FilterOne(a, NotLowControl);
  }

  /** "a\x01" cleans to "a". */
  lemma ControlCharKey(s: JsString)
    requires s == [97, 1]
    ensures CleanedStr(s, false) == Some([97])
  {
    StripLowTwo(97, 1);
    assert StripLow(s) == [97];
    assert IsAscii([97]);
    FastPathResult(s, false, [97]);
  }

  /** `clean({"a\x01": 1})` is `{a: undefined}`. */
  lemma RenamedKeyExample()
    ensures Lookup(CleanedObject([([97, 1], Num(1))], false), [97]) == Some(Undefined)
  {
    ControlCharKey([97, 1]);
    var props: Props := [([97, 1], Num(1))];
    assert [97] !in Keys(props) by {
      NotAKey(props, [97]);
    }
    RenamedKeyLosesValue(props, false, 0, [97]);
  }

  /**
   * Cleaning twice gives what cleaning once gives, for every value without
   * symbols: strings are already clean, objects already have clean distinct
   * keys, BigInts and scalars are fixed.
   */
  lemma {:induction false} CleanedIdempotent(v: Value, allowControlChars: bool)
    requires SymbolFree(v)
    ensures Cleaned(Cleaned(v, allowControlChars), allowControlChars) == Cleaned(v, allowControlChars)
    decreases v, 2
  {
    match v
    case Str(s) =>
      if CleanedStr(s, allowControlChars).Some? {
        CleanedStrIdempotent(s, allowControlChars);
      }
    case Arr(items) =>
      ItemsIdempotent(items, allowControlChars);
    case Obj(props) =>
      ObjectIdempotent(props, allowControlChars);
    case Re(source, flags) =>
      if CleanedStr(source, allowControlChars).Some? {
        CleanedStrIdempotent(source, allowControlChars);
        if CleanedStr(flags, allowControlChars).Some? {
          CleanedStrIdempotent(flags, allowControlChars);
        }
      }
    case Big(i) =>
      BigIntUnchanged(i, allowControlChars);
    case _ =>
  }

  /** `cleanArr` is idempotent on arrays without symbols. */
  lemma {:induction false} ItemsIdempotent(items: seq<Value>, allowControlChars: bool)
    requires forall i :: 0 <= i < |items| ==> SymbolFree(items[i])
    ensures CleanedItems(CleanedItems(items, allowControlChars), allowControlChars) == CleanedItems(items, allowControlChars)
    decreases Arr(items), 0
  {
    var once := CleanedItems(items, allowControlChars);
    forall i | 0 <= i < |items| ensures CleanedItems(once, allowControlChars)[i] == once[i] {
      CleanedIdempotent(items[i], allowControlChars);
    }
  }

  /** Every property of a cleaned object has a clean key and a value cleaning leaves alone. */
  lemma {:induction false} CleanedObjectEntriesFixed(props: Props, allowControlChars: bool)
    requires forall i :: 0 <= i < |props| ==> SymbolFree(props[i].1)
    ensures forall j :: 0 <= j < |CleanedObject(props, allowControlChars)| ==>
      CleanedStr(CleanedObject(props, allowControlChars)[j].0, allowControlChars) == Some(CleanedObject(props, allowControlChars)[j].0) &&
      Cleaned(CleanedObject(props, allowControlChars)[j].1, allowControlChars) == CleanedObject(props, allowControlChars)[j].1
    decreases Obj(props), 0
  {
    var out := CleanedObject(props, allowControlChars);
    var pairs := CleanedPairs(props, allowControlChars);
    AssignEntries([], pairs);
    PairValues(props, allowControlChars);
    forall j | 0 <= j < |out|
      ensures CleanedStr(out[j].0, allowControlChars) == Some(out[j].0)
      ensures Cleaned(out[j].1, allowControlChars) == out[j].1
    {
      var i :| 0 <= i < |pairs| && pairs[i] == out[j];
      CleanedKeyIsFixed(props[i].0, allowControlChars);
      var k := pairs[i].0;
      if k in Keys(props) {
        CleanedIdempotent(props[IndexOfKey(props, k)].1, allowControlChars);
      }
    }
  }

  /** `cleanObj` is idempotent on objects without symbols. */
  lemma {:induction false} ObjectIdempotent(props: Props, allowControlChars: bool)
    requires forall i :: 0 <= i < |props| ==> SymbolFree(props[i].1)
    ensures CleanedObject(CleanedObject(props, allowControlChars), allowControlChars) == CleanedObject(props, allowControlChars)
    decreases Obj(props), 1
  {
    var out := CleanedObject(props, allowControlChars);
    CleanedObjectDistinct(props, allowControlChars);
    CleanedObjectEntriesFixed(props, allowControlChars);
    ObjectWithCleanKeys(out, allowControlChars);
  }
}

/**
 * Strings as JavaScript sees them: sequences of UTF-16 code units (what
 * `charCodeAt` returns), with the few generic string functions the rest of
 * the model shares: order-preserving filtering, prefixes, and decimal digits.
 */
module JsStrings {

  datatype Option<+T> = None | Some(value: T)

  /** One UTF-16 code unit. */
  type Unit = u: int | 0 <= u < 0x1_0000

  /** A JavaScript string. */
  type JsString = seq<Unit>

  /** The units of `s` for which `keep` holds, in their original order. */
  function Filter(s: JsString, keep: Unit -> bool): (r: JsString)
    ensures |r| <= |s|
    ensures forall i :: 0 <= i < |r| ==> keep(r[i])
  {
    if s == [] then []
    else Filter(s[..|s| - 1], keep) + (if keep(s[|s| - 1]) then [s[|s| - 1]] else [])
  }

  /** A unit survives filtering exactly when it occurs in the input and passes. */
  lemma {:induction false} FilterMembers(s: JsString, keep: Unit -> bool)
    ensures forall u :: u in Filter(s, keep) <==> u in s && keep(u)
  {
    if s != [] {
      FilterMembers(s[..|s| - 1], keep);
      assert s == s[..|s| - 1] + [s[|s| - 1]];
    }
  }

  /** Filtering keeps everything when every unit passes. */
  lemma {:induction false} FilterKeepsAll(s: JsString, keep: Unit -> bool)
    requires forall i :: 0 <= i < |s| ==> keep(s[i])
    ensures Filter(s, keep) == s
  {
    if s != [] {
      FilterKeepsAll(s[..|s| - 1], keep);
      assert s[..|s| - 1] + [s[|s| - 1]] == s;
    }
  }

  /** Filtering distributes over concatenation. */
  lemma {:induction false} FilterAppend(a: JsString, b: JsString, keep: Unit -> bool)
    ensures Filter(a + b, keep) == Filter(a, keep) + Filter(b, keep)
  {
    if b != [] {
      var b' := b[..|b| - 1];
      assert (a + b)[..|a + b| - 1] == a + b';
      FilterAppend(a, b', keep);
    } else {
      assert a + b == a;
    }
  }

  /** Filtering one unit further along. */
  lemma FilterSnoc(s: JsString, i: nat, keep: Unit -> bool)
    requires i < |s|
    ensures Filter(s[..i + 1], keep) == Filter(s[..i], keep) + (if keep(s[i]) then [s[i]] else [])
  {
    assert s[..i + 1][..i] == s[..i];
  }

  /** Filtering a three-unit string, spelled out. */
  lemma FilterThree(a: Unit, b: Unit, c: Unit, keep: Unit -> bool)
    ensures Filter([a, b, c], keep) ==
      (if keep(a) then [a] else []) + (if keep(b) then [b] else []) + (if keep(c) then [c] else [])
  {
    assert [a, b, c] == [a] + [b] + [c];
    FilterAppend([a] + [b], [c], keep);
    FilterAppend([a], [b], keep);
    FilterOne(a, keep);
    FilterOne(b, keep);
    FilterOne(c, keep);
  }

  /** Filtering a one-unit string. */
  lemma FilterOne(a: Unit, keep: Unit -> bool)
    ensures Filter([a], keep) == if keep(a) then [a] else []
  {
    assert [a][..0] == [];
  }

  /** Two predicates that agree on every unit of `s` filter it alike. */
  lemma {:induction false} FilterSame(s: JsString, p: Unit -> bool, q: Unit -> bool)
    requires forall i :: 0 <= i < |s| ==> p(s[i]) == q(s[i])
    ensures Filter(s, p) == Filter(s, q)
  {
    if s != [] {
      FilterSame(s[..|s| - 1], p, q);
    }
  }

  /** Filtering twice is filtering once with the conjunction. */
  lemma {:induction false} FilterTwice(s: JsString, p: Unit -> bool, q: Unit -> bool, both: Unit -> bool)
    requires forall u :: both(u) == (p(u) && q(u))
    ensures Filter(Filter(s, p), q) == Filter(s, both)
  {
    if s != [] {
      var s', last := s[..|s| - 1], s[|s| - 1];
      FilterTwice(s', p, q, both);
      var tail := if p(last) then [last] else [];
      FilterAppend(Filter(s', p), tail, q);
      if p(last) {
        assert Filter(tail, q) == Filter([] + tail, q);
      }
    }
  }

  /** `p` is a prefix of `s`: JavaScript's `s.startsWith(p)`. */
  predicate StartsWith(s: JsString, p: JsString) {
    |p| <= |s| && s[..|p|] == p
  }

  /** `s.endsWith(p)`. */
  predicate EndsWith(s: JsString, p: JsString) {
    |p| <= |s| && s[|s| - |p|..] == p
  }

  /** Being a prefix is transitive. */
  lemma StartsWithTrans(a: JsString, b: JsString, c: JsString)
    requires StartsWith(a, b) && StartsWith(b, c)
    ensures StartsWith(a, c)
  {
    assert a[..|c|] == a[..|b|][..|c|];
  }

  const Zero: Unit := 48

  predicate IsDigit(u: Unit) {
    48 <= u <= 57
  }

  predicate AllDigits(s: JsString) {
    forall i :: 0 <= i < |s| ==> IsDigit(s[i])
  }

  /** The decimal digits of a natural number, most significant first, without leading zeros. */
  function DecimalDigits(n: nat): (r: JsString)
    ensures |r| > 0 && AllDigits(r)
    ensures r[0] == Zero ==> n == 0
  {
    if n < 10 then [Zero + n] else DecimalDigits(n / 10) + [Zero + n % 10]
  }

  /** The value of a run of decimal digits, read most significant first. */
  function DigitsValue(ds: JsString): nat
    requires AllDigits(ds)
  {
    if ds == [] then 0 else DigitsValue(ds[..|ds| - 1]) * 10 + (ds[|ds| - 1] - Zero)
  }

  /** Reading back the digits of `n` gives `n`. */
  lemma {:induction false} DigitsRoundTrip(n: nat)
    ensures DigitsValue(DecimalDigits(n)) == n
  {
    if n >= 10 {
      DigitsRoundTrip(n / 10);
      var ds := DecimalDigits(n);
      assert ds[..|ds| - 1] == DecimalDigits(n / 10);
    }
  }

  /** `String(n)` for an integral number or a BigInt: an optional minus sign, then the digits. */
  function DecimalString(n: int): (r: JsString)
    ensures |r| > 0
    ensures n >= 0 ==> r == DecimalDigits(n)
    ensures n < 0 ==> r == [45] + DecimalDigits(-n)
  {
    if n < 0 then [45] + DecimalDigits(-n) else DecimalDigits(n)
  }
}

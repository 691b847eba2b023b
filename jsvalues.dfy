/**
 * The JavaScript values the sanitiser and the configuration setters handle,
 * the run-time type tests made on them (`typeof`, `varType`, truthiness), and
 * plain objects as ordered property lists with JavaScript's assignment rule.
 */
module JsValues {
  import opened JsStrings

  /**
   * A JavaScript value, one constructor per kind `varType` tells apart.
   * Numbers are integers (floating point is not modelled). An object is the
   * list of its own enumerable string-keyed properties in `Object.keys`
   * order. A regular expression is its source text and its flags; a symbol is
   * its description; `Func` stands for any function.
   */
  datatype Value =
    | Null
    | Undefined
    | Num(n: int)
    | Bool(b: bool)
    | Str(s: JsString)
    | Arr(items: seq<Value>)
    | Obj(props: Props)
    | Re(source: JsString, flags: JsString)
    | Sym(description: JsString)
    | Big(i: int)
    | Func

  type Props = seq<(JsString, Value)>

  /** The `typeof` operator. */
  function TypeOf(v: Value): string {
    match v
    case Null => "object"
    case Undefined => "undefined"
    case Num(_) => "number"
    case Bool(_) => "boolean"
    case Str(_) => "string"
    case Arr(_) => "object"
    case Obj(_) => "object"
    case Re(_, _) => "object"
    case Sym(_) => "symbol"
    case Big(_) => "bigint"
    case Func => "function"
  }

  /**
   * `varType`: `typeof`, except that arrays, `null` and regular expressions,
   * all of which `typeof` calls "object", get names of their own, so that
   * "object" is left for plain objects only.
   */
  function VarType(v: Value): (r: string)
    ensures TypeOf(v) != "object" ==> r == TypeOf(v)
    ensures r == "array" <==> v.Arr?
    ensures r == "null" <==> v.Null?
    ensures r == "regex" <==> v.Re?
    ensures r == "object" <==> v.Obj?
    ensures r == "string" <==> v.Str?
    ensures r == "function" <==> v.Func?
  {
    if v.Arr? then "array"
    else if v == Null then "null"
    else if v.Re? then "regex"
    else TypeOf(v)
  }

  /** JavaScript truthiness (`!!v`). */
  predicate Truthy(v: Value) {
    match v
    case Null => false
    case Undefined => false
    case Bool(b) => b
    case Num(n) => n != 0
    case Str(s) => s != []
    case Big(i) => i != 0
    case _ => true
  }

  /** The set of keys of a property list. */
  function Keys(props: Props): (r: set<JsString>)
    ensures forall i :: 0 <= i < |props| ==> props[i].0 in r
  {
    if props == [] then {} else {props[0].0} + Keys(props[1..])
  }

  /** The keys of a list with one more property at the end. */
  lemma {:induction false} KeysAppend(init: Props, last: (JsString, Value))
    ensures Keys(init + [last]) == Keys(init) + {last.0}
  {
    if init != [] {
      assert (init + [last])[1..] == init[1..] + [last];
      KeysAppend(init[1..], last);
    }
  }

  /** No key occurs twice, as in every JavaScript object. */
  predicate DistinctKeys(props: Props) {
    forall i, j :: 0 <= i < j < |props| ==> props[i].0 != props[j].0
  }

  /** Property lookup `o[k]`; `None` is a missing property. */
  function Lookup(props: Props, k: JsString): (r: Option<Value>)
    ensures r.Some? <==> k in Keys(props)
    ensures r.Some? ==> (k, r.value) in props
  {
    if props == [] then None
    else if props[0].0 == k then Some(props[0].1)
    else Lookup(props[1..], k)
  }

  /** Where `Lookup` finds a key: the first property that carries it. */
  function IndexOfKey(props: Props, k: JsString): (i: nat)
    requires k in Keys(props)
    ensures i < |props| && props[i].0 == k
    ensures Lookup(props, k) == Some(props[i].1)
  {
    if props[0].0 == k then 0 else 1 + IndexOfKey(props[1..], k)
  }

  /**
   * Property assignment `o[k] = v`: an existing property keeps its place and
   * takes the new value, a new one is appended.
   */
  function Put(props: Props, k: JsString, v: Value): (r: Props)
    ensures Lookup(r, k) == Some(v)
    ensures forall k' :: k' != k ==> Lookup(r, k') == Lookup(props, k')
    ensures Keys(r) == Keys(props) + {k}
    ensures k !in Keys(props) ==> r == props + [(k, v)]
    ensures |r| == if k in Keys(props) then |props| else |props| + 1
  {
    if props == [] then [(k, v)]
    else if props[0].0 == k then [(k, v)] + props[1..]
    else [props[0]] + Put(props[1..], k, v)
  }

  /** Assignment never creates a second property with the same key. */
  lemma {:induction false} PutDistinct(props: Props, k: JsString, v: Value)
    requires DistinctKeys(props)
    ensures DistinctKeys(Put(props, k, v))
  {
    if props != [] && props[0].0 != k {
      PutDistinct(props[1..], k, v);
      var rest := Put(props[1..], k, v);
      assert props[0].0 !in Keys(props[1..]) by {
        forall i | 0 <= i < |props[1..]| ensures props[1..][i].0 != props[0].0 {
          assert props[1..][i] == props[i + 1];
        }
        NotAKey(props[1..], props[0].0);
      }
      forall i | 0 <= i < |rest| ensures rest[i].0 != props[0].0 {
        assert rest[i].0 in Keys(rest);
      }
    }
  }

  /** Every property after an assignment is the assigned one or was there before. */
  lemma {:induction false} PutEntries(props: Props, k: JsString, v: Value)
    ensures forall i :: 0 <= i < |Put(props, k, v)| ==> Put(props, k, v)[i] == (k, v) || Put(props, k, v)[i] in props
  {
    if props != [] && props[0].0 != k {
      PutEntries(props[1..], k, v);
    }
  }

  /** The value of the last property in a list that has key `k` (the one a left-to-right copy leaves behind). */
  function LastLookup(props: Props, k: JsString): (r: Option<Value>)
    ensures r.Some? <==> k in Keys(props)
    ensures r.Some? ==> (k, r.value) in props
  {
    if props == [] then None
    else
      assert props == props[..|props| - 1] + [props[|props| - 1]];
      KeysAppend(props[..|props| - 1], props[|props| - 1]);
      if props[|props| - 1].0 == k then Some(props[|props| - 1].1)
      else LastLookup(props[..|props| - 1], k)
  }

  /**
   * `Object.assign(target, source)`: each property of `source`, in order, is
   * assigned into `target`. Keys already in `source` take its last value;
   * the other keys keep `target`'s.
   */
  function Assign(target: Props, source: Props): Props
  {
    if source == [] then target
    else Put(Assign(target, source[..|source| - 1]), source[|source| - 1].0, source[|source| - 1].1)
  }

  /** Copying one more property of `source`. */
  lemma AssignSnoc(target: Props, source: Props, i: nat)
    requires i < |source|
    ensures Assign(target, source[..i + 1]) == Put(Assign(target, source[..i]), source[i].0, source[i].1)
  {
    assert source[..i + 1][..i] == source[..i];
  }

  /**
   * After `Object.assign(target, source)` the keys are those of both; a key
   * of `source` holds the value of its last occurrence there, any other key
   * keeps `target`'s value.
   */
  lemma {:induction false} AssignLookup(target: Props, source: Props)
    ensures Keys(Assign(target, source)) == Keys(target) + Keys(source)
    ensures forall k :: Lookup(Assign(target, source), k) == if k in Keys(source) then LastLookup(source, k) else Lookup(target, k)
  {
    if source != [] {
      var init, last := source[..|source| - 1], source[|source| - 1];
      assert source == init + [last];
      KeysAppend(init, last);
      AssignLookup(target, init);
    }
  }

  /** A copy has at most as many properties as target and source together. */
  lemma {:induction false} AssignLength(target: Props, source: Props)
    ensures |Assign(target, source)| <= |target| + |source|
  {
    if source != [] {
      AssignLength(target, source[..|source| - 1]);
    }
  }

  /** The keys of a list are the first components of its entries. */
  lemma {:induction false} KeysAsSet(props: Props)
    ensures Keys(props) == set i | 0 <= i < |props| :: props[i].0
  {
    if props != [] {
      KeysAsSet(props[1..]);
      var rest := set i | 0 <= i < |props[1..]| :: props[1..][i].0;
      var all := set i | 0 <= i < |props| :: props[i].0;
      forall k | k in all ensures k in {props[0].0} + rest {
        var i :| 0 <= i < |props| && props[i].0 == k;
        if i > 0 { assert props[1..][i - 1].0 == k; }
      }
      forall k | k in rest ensures k in all {
        var i :| 0 <= i < |props[1..]| && props[1..][i].0 == k;
        assert props[i + 1].0 == k;
      }
    }
  }

  /** Copying into an object without repeated keys leaves it without repeated keys. */
  lemma {:induction false} AssignDistinct(target: Props, source: Props)
    requires DistinctKeys(target)
    ensures DistinctKeys(Assign(target, source))
  {
    if source != [] {
      var init, last := source[..|source| - 1], source[|source| - 1];
      AssignDistinct(target, init);
      PutDistinct(Assign(target, init), last.0, last.1);
    }
  }

  /** Every property after a copy comes from the target or from the source. */
  lemma {:induction false} AssignEntries(target: Props, source: Props)
    ensures forall i :: 0 <= i < |Assign(target, source)| ==> Assign(target, source)[i] in target || Assign(target, source)[i] in source
  {
    if source != [] {
      var init, last := source[..|source| - 1], source[|source| - 1];
      AssignEntries(target, init);
      PutEntries(Assign(target, init), last.0, last.1);
    }
  }

  /** A key no property carries is not among the keys. */
  lemma {:induction false} NotAKey(props: Props, k: JsString)
    requires forall i :: 0 <= i < |props| ==> props[i].0 != k
    ensures k !in Keys(props)
  {
    if props != [] {
      NotAKey(props[1..], k);
    }
  }

  /** In a list without repeated keys, the last key does not occur before it. */
  lemma LastKeyIsNew(props: Props)
    requires DistinctKeys(props) && props != []
    ensures props[|props| - 1].0 !in Keys(props[..|props| - 1])
  {
    var init := props[..|props| - 1];
    forall i | 0 <= i < |init| ensures init[i].0 != props[|props| - 1].0 {
      assert init[i] == props[i];
    }
    NotAKey(init, props[|props| - 1].0);
  }

  /** In a list without repeated keys the last match is the only match. */
  lemma {:induction false} LastLookupDistinct(props: Props, k: JsString)
    requires DistinctKeys(props)
    ensures LastLookup(props, k) == Lookup(props, k)
  {
    if props != [] {
      var init, last := props[..|props| - 1], props[|props| - 1];
      LastLookupDistinct(init, k);
      assert props == init + [last];
      LookupAppend(init, last, k);
      LastKeyIsNew(props);
    }
  }

  /** Looking a key up in a list with one more property at the end. */
  lemma {:induction false} LookupAppend(init: Props, last: (JsString, Value), k: JsString)
    ensures Lookup(init + [last], k) == if k in Keys(init) then Lookup(init, k) else if last.0 == k then Some(last.1) else None
  {
    if init != [] {
      assert (init + [last])[1..] == init[1..] + [last];
      LookupAppend(init[1..], last, k);
    } else {
      assert [last][1..] == [];
    }
  }

  /** Copying a list without repeated keys into an empty object reproduces it, order included. */
  lemma {:induction false} AssignIntoEmpty(source: Props)
    requires DistinctKeys(source)
    ensures Assign([], source) == source
  {
    if source != [] {
      var init, last := source[..|source| - 1], source[|source| - 1];
      AssignIntoEmpty(init);
      LastKeyIsNew(source);
      assert init + [last] == source;
    }
  }

  /** In a list without repeated keys, looking up the key of entry `i` finds entry `i`. */
  lemma LookupAt(props: Props, i: nat)
    requires DistinctKeys(props) && i < |props|
    ensures Lookup(props, props[i].0) == Some(props[i].1)
  {
    var j := IndexOfKey(props, props[i].0);
    assert j == i;
  }
}

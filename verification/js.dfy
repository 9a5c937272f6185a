/**
 * The slice of JavaScript value semantics the chart widgets rely on:
 * the kinds of cell a loaded record can hold, `typeof`, truthiness,
 * `String(v)`, `Number(v)`, loose equality against a string, relational
 * comparison, `Object.keys`, property read and write on a flat record,
 * `Array.prototype.filter` and `Array.from(new Set(xs))`.
 *
 * Floating-point text conversion is not modelled: `Number(s)` on a string is
 * the parameter `parse` (None stands for NaN) and `String(x)` on a number is
 * the parameter `fmt`.
 */
module Js {

  datatype Option<+T> = None | Some(value: T)

  /** A cell of a loaded record. `NotANumber` is the number NaN. */
  datatype Value =
    | Str(s: string)
    | Num(n: real)
    | NotANumber
    | Bool(b: bool)
    | Null

  type Key = string

  /** One own property of a record. */
  datatype Field = Field(key: Key, value: Value)

  /** A flat record: its own properties in `Object.keys` order. */
  type Record = seq<Field>

  /** The answer of `typeof` (`typeof null` is "object"). */
  datatype JsType = TString | TNumber | TBoolean | TObject

  function TypeOf(v: Value): (t: JsType)
    ensures t == TString <==> v.Str?
    ensures t == TObject <==> v.Null?
    ensures t == TBoolean <==> v.Bool?
  {
    match v
    case Str(_) => TString
    case Num(_) => TNumber
    case NotANumber => TNumber
    case Bool(_) => TBoolean
    case Null => TObject
  }

  /** `v ? 1 : 0` reads the truthiness of `v`. */
  predicate Truthy(v: Value)
  {
    match v
    case Str(s) => s != ""
    case Num(x) => x != 0.0
    case NotANumber => false
    case Bool(b) => b
    case Null => false
  }

  /** `String(v)`; `fmt` is the conversion of a finite number to text. */
  function Stringify(v: Value, fmt: real -> string): (r: string)
    ensures v.Str? ==> r == v.s
    ensures v.Num? ==> r == fmt(v.n)
    ensures v.Bool? ==> (r == "true" <==> v.b) && (r == "false" <==> !v.b)
    ensures v.Null? ==> r == "null"
    ensures v.NotANumber? ==> r == "NaN"
  {
    match v
    case Str(s) => s
    case Num(x) => fmt(x)
    case NotANumber => "NaN"
    case Bool(b) => if b then "true" else "false"
    case Null => "null"
  }

  /**
   * `Number(cell)` (also unary `+`); the cell is None when the property is
   * absent (undefined). The result is None for NaN.
   */
  function ToNumber(cell: Option<Value>, parse: string -> Option<real>): (r: Option<real>)
    ensures cell == None || cell == Some(NotANumber) ==> r == None
    ensures cell == Some(Null) ==> r == Some(0.0)
    ensures forall x :: cell == Some(Num(x)) ==> r == Some(x)
    ensures cell.Some? && cell.value.Bool? ==> r == Some(if cell.value.b then 1.0 else 0.0)
    ensures cell.Some? && cell.value.Str? ==> r == parse(cell.value.s)
  {
    match cell
    case None => None
    case Some(v) =>
      match v
      case Str(s) => parse(s)
      case Num(x) => Some(x)
      case NotANumber => None
      case Bool(b) => Some(if b then 1.0 else 0.0)
      case Null => Some(0.0)
  }

  /** `a >= b` between two numbers; any comparison with NaN is false. */
  predicate Ge(a: Option<real>, b: Option<real>)
  {
    a.Some? && b.Some? && a.value >= b.value
  }

  /** `a <= b` between two numbers. */
  predicate Le(a: Option<real>, b: Option<real>)
  {
    a.Some? && b.Some? && a.value <= b.value
  }

  /** `a > b` between two numbers. */
  predicate Gt(a: Option<real>, b: Option<real>)
  {
    a.Some? && b.Some? && a.value > b.value
  }

  /**
   * `cell == s` (abstract equality) where `s` is a string, as read from an
   * HTML `<select>` element's value.
   */
  predicate LooseEqString(cell: Option<Value>, s: string, parse: string -> Option<real>)
    ensures cell == None || cell == Some(Null) ==> !LooseEqString(cell, s, parse)
    ensures cell.Some? && cell.value.Str? ==> (LooseEqString(cell, s, parse) <==> cell.value.s == s)
    ensures cell.Some? && !cell.value.Str? && !cell.value.Null? ==>
      (LooseEqString(cell, s, parse) <==> ToNumber(cell, parse).Some? && ToNumber(cell, parse) == parse(s))
  {
    match cell
    case None => false
    case Some(v) =>
      match v
      case Str(t) => t == s
      case Num(x) => parse(s) == Some(x)
      case NotANumber => false
      case Bool(b) => parse(s) == Some(if b then 1.0 else 0.0)
      case Null => false
  }

  /** `Object.keys(r)`. */
  function KeysOf(r: Record): (ks: seq<Key>)
    ensures |ks| == |r|
    ensures forall i :: 0 <= i < |r| ==> ks[i] == r[i].key
  {
    if r == [] then [] else KeysOf(r[..|r| - 1]) + [r[|r| - 1].key]
  }

  /** `r[k]`: the value of property `k`, None when absent (undefined). */
  function Get(r: Record, k: Key): (cell: Option<Value>)
    ensures cell == None <==> forall i :: 0 <= i < |r| ==> r[i].key != k
    ensures cell.Some? ==> exists i :: 0 <= i < |r| && r[i] == Field(k, cell.value)
  {
    if r == [] then None
    else if r[0].key == k then Some(r[0].value)
    else Get(r[1..], k)
  }

  /** `r[k] = v`: overwrite the property in place, or append it when absent. */
  function SetField(r: Record, k: Key, v: Value): (r': Record)
    ensures Get(r', k) == Some(v)
    ensures forall k' :: k' != k ==> Get(r', k') == Get(r, k')
    ensures |r'| == if Get(r, k).Some? then |r| else |r| + 1
  {
    if r == [] then [Field(k, v)]
    else if r[0].key == k then [Field(k, v)] + r[1..]
    else [r[0]] + SetField(r[1..], k, v)
  }

  /** `xs.filter(p)`. */
  function Filter<T>(xs: seq<T>, p: T -> bool): (ys: seq<T>)
    ensures |ys| <= |xs|
  {
    if xs == [] then []
    else Filter(xs[..|xs| - 1], p) + (if p(xs[|xs| - 1]) then [xs[|xs| - 1]] else [])
  }

  /**
   * Filtering distributes over concatenation: each part keeps its own
   * matches in its own order, so the filter never reorders records.
   */
  lemma {:induction false} FilterConcat<T>(xs: seq<T>, zs: seq<T>, p: T -> bool)
    ensures Filter(xs + zs, p) == Filter(xs, p) + Filter(zs, p)
  {
    if zs == [] {
      assert xs + zs == xs;
    } else {
      var n := |zs| - 1;
      assert (xs + zs)[..|xs + zs| - 1] == xs + zs[..n];
      assert (xs + zs)[|xs + zs| - 1] == zs[n];
      FilterConcat(xs, zs[..n], p);
    }
  }

  /** Filtering one more element appends it when it matches. */
  lemma FilterSnoc<T>(xs: seq<T>, x: T, p: T -> bool)
    ensures Filter(xs + [x], p) == Filter(xs, p) + (if p(x) then [x] else [])
  {
    assert (xs + [x])[..|xs|] == xs;
  }

  /** Two neighbours that cannot both match may trade places without changing the filter. */
  lemma FilterSwap<T>(a: seq<T>, x: T, y: T, p: T -> bool)
    requires !(p(x) && p(y))
    ensures Filter(a + [x] + [y], p) == Filter(a + [y] + [x], p)
  {
    FilterSnoc(a + [x], y, p);
    FilterSnoc(a, x, p);
    FilterSnoc(a + [y], x, p);
    FilterSnoc(a, y, p);
  }

  /** The filter only drops elements: what it keeps is a sub-multiset of its input. */
  lemma FilterShrinks<T>(xs: seq<T>, p: T -> bool)
    ensures multiset(Filter(xs, p)) <= multiset(xs)
  {
    FilterMultiset(xs, p);
  }

  /** The filter keeps every matching element with its multiplicity and no other. */
  lemma {:induction false} FilterMultiset<T>(xs: seq<T>, p: T -> bool)
    ensures forall x :: multiset(Filter(xs, p))[x] == if p(x) then multiset(xs)[x] else 0
  {
    if xs != [] {
      var n := |xs| - 1;
      FilterMultiset(xs[..n], p);
      assert xs == xs[..n] + [xs[n]];
      assert multiset(xs) == multiset(xs[..n]) + multiset{xs[n]};
    }
  }

  /** The elements of `xs` have no repetition. */
  predicate Distinct<T(==)>(xs: seq<T>)
  {
    forall i, j :: 0 <= i < j < |xs| ==> xs[i] != xs[j]
  }

  /** Filtering a list without repetition gives a list without repetition. */
  lemma {:induction false} FilterDistinct<T>(xs: seq<T>, p: T -> bool)
    requires Distinct(xs)
    ensures Distinct(Filter(xs, p))
  {
    if xs != [] {
      var n := |xs| - 1;
      var pre, x := xs[..n], xs[n];
      assert xs == pre + [x];
      FilterDistinct(pre, p);
      FilterMultiset(pre, p);
      assert x !in pre;
      assert multiset(Filter(pre, p))[x] == 0;
      FilterSnoc(pre, x, p);
    }
  }

  /** Index of the first occurrence of `x` in `xs`. */
  function IndexOf<T(==)>(xs: seq<T>, x: T): (i: nat)
    requires x in xs
    ensures i < |xs| && xs[i] == x
    ensures forall j :: 0 <= j < i ==> xs[j] != x
  {
    if xs[0] == x then 0 else 1 + IndexOf(xs[1..], x)
  }

  /**
   * `Array.from(new Set(xs))`: a Set ignores a value it already holds and
   * iterates in insertion order.
   */
  function Dedup<T(==)>(xs: seq<T>): seq<T>
  {
    if xs == [] then []
    else
      var d := Dedup(xs[..|xs| - 1]);
      if xs[|xs| - 1] in d then d else d + [xs[|xs| - 1]]
  }

  /** `Array.from(new Set(xs))` holds each value of `xs` exactly once. */
  lemma {:induction false} DedupMembers<T>(xs: seq<T>)
    ensures Distinct(Dedup(xs))
    ensures forall x :: x in Dedup(xs) <==> x in xs
  {
    if xs != [] {
      var n := |xs| - 1;
      DedupMembers(xs[..n]);
      assert xs == xs[..n] + [xs[n]];
    }
  }

  /** `Array.from(new Set(xs))` lists the values in the order of their first occurrence. */
  lemma {:induction false} DedupOrder<T>(xs: seq<T>)
    ensures forall i, j :: 0 <= i < j < |Dedup(xs)| ==>
      Dedup(xs)[i] in xs && Dedup(xs)[j] in xs &&
      IndexOf(xs, Dedup(xs)[i]) < IndexOf(xs, Dedup(xs)[j])
  {
    DedupMembers(xs);
    if xs != [] {
      var n := |xs| - 1;
      var pre, x := xs[..n], xs[n];
      DedupOrder(pre);
      DedupMembers(pre);
      assert xs == pre + [x];
      var d := Dedup(pre);
      forall y | y in pre
        ensures IndexOf(xs, y) == IndexOf(pre, y)
      {
        IndexOfPrefix(pre, x, y);
      }
      if x !in d {
        assert x !in pre;
        assert IndexOf(xs, x) == n;
        forall i | 0 <= i < |d| ensures IndexOf(xs, d[i]) < n {
          assert d[i] in Dedup(pre);
        }
      }
    }
  }

  lemma {:induction false} IndexOfPrefix<T>(pre: seq<T>, x: T, y: T)
    requires y in pre
    ensures IndexOf(pre + [x], y) == IndexOf(pre, y)
  {
    if pre[0] != y {
      assert (pre + [x])[1..] == pre[1..] + [x];
      IndexOfPrefix(pre[1..], x, y);
    }
  }
}

/**
 * The brush set shared by every chart variant: a map from a column key to
 * the extent brushed on that column's axis, and the test a record must pass
 * against every entry to stay highlighted.
 *
 * An entry is the array the brush handler stored: the two inverted pixel
 * bounds for a numeric axis, or the list of band codes for a string axis.
 * The test reads it as `[min, max]`, i.e. its first two elements; an element
 * that is not there is undefined, and every comparison with it is false.
 */
module Brushes {
  import opened Js

  type BrushSet = map<Key, seq<real>>

  /** The two membership tests found in the sources. */
  datatype RangeTest =
    | SwapTolerant  // `min > max ? max <= v <= min : min <= v <= max`
    | Strict        // `min <= v && v <= max`

  /** Element `i` of an entry, undefined (None) past its end. */
  function Bound(e: seq<real>, i: nat): (b: Option<real>)
    ensures b.Some? <==> i < |e|
    ensures b.Some? ==> b.value == e[i]
  {
    if i < |e| then Some(e[i]) else None
  }

  /** Does the numeric cell value `v` lie in the range of entry `e`? */
  predicate Within(test: RangeTest, v: Option<real>, e: seq<real>)
    ensures Within(test, v, e) ==>
      v.Some? && |e| >= 2 && ((e[0] <= v.value <= e[1]) || (e[1] <= v.value <= e[0]))
    ensures Within(test, v, e) && test == Strict ==> e[0] <= e[1]
  {
    var lo, hi := Bound(e, 0), Bound(e, 1);
    match test
    case SwapTolerant =>
      if Gt(lo, hi) then Ge(v, hi) && Le(v, lo) else Ge(v, lo) && Le(v, hi)
    case Strict =>
      Ge(v, lo) && Le(v, hi)
  }

  /** `Array.from(brushes.entries()).every(...)`: the record lies in every entry's range. */
  predicate Passes(test: RangeTest, d: Record, b: BrushSet, parse: string -> Option<real>)
    ensures b == map[] ==> Passes(test, d, b, parse)
    ensures Passes(test, d, b, parse) ==> forall k :: k in b ==> Get(d, k).Some? && |b[k]| >= 2
  {
    forall k :: k in b ==> Within(test, ToNumber(Get(d, k), parse), b[k])
  }

  /**
   * The brush handler: a selection stores (or replaces) the entry of its
   * key; a cleared brush deletes that entry. No other entry changes.
   */
  function Update(b: BrushSet, key: Key, selection: Option<seq<real>>): (r: BrushSet)
    ensures selection.Some? ==> key in r && r[key] == selection.value
    ensures selection.None? ==> key !in r
    ensures forall k :: k != key ==> (k in r <==> k in b)
    ensures forall k :: k != key && k in r ==> r[k] == b[k]
  {
    match selection
    case Some(e) => b[key := e]
    case None => b - {key}
  }

  /**
   * The swap-tolerant test on a two-element entry is the closed interval
   * between the two bounds, whichever comes first.
   */
  lemma SwapTolerantIsInterval(x: real, a: real, c: real)
    ensures Within(SwapTolerant, Some(x), [a, c]) <==>
      (if a <= c then a <= x <= c else c <= x <= a)
    ensures Within(SwapTolerant, Some(x), [a, c]) <==> Within(SwapTolerant, Some(x), [c, a])
  {
  }

  /**
   * Both tests read only the first two elements of an entry: whatever
   * follows them (a third selected band, say) is ignored.
   */
  lemma FirstTwoBoundsOnly(test: RangeTest, v: Option<real>, e: seq<real>)
    requires |e| >= 2
    ensures Within(test, v, e) <==> Within(test, v, e[..2])
  {
  }

  /**
   * The strict test agrees with the swap-tolerant one on an ordered entry,
   * and rejects every value when the entry is reversed.
   */
  lemma StrictVersusSwapTolerant(v: Option<real>, a: real, c: real)
    ensures a <= c ==> (Within(Strict, v, [a, c]) <==> Within(SwapTolerant, v, [a, c]))
    ensures a > c ==> !Within(Strict, v, [a, c])
  {
  }

  /**
   * An undefined or NaN cell fails every entry, and so does any cell against
   * an entry with fewer than two elements.
   */
  lemma NoValueOrShortEntryFails(test: RangeTest, v: Option<real>, e: seq<real>)
    requires v == None || |e| < 2
    ensures !Within(test, v, e)
  {
  }

  /**
   * Multi-axis conjunction: after storing entry `e` for `key`, a record
   * passes iff it passes every other entry and lies in `e`.
   */
  lemma {:induction false} PassesAfterSet(test: RangeTest, d: Record, b: BrushSet, key: Key, e: seq<real>,
                                          parse: string -> Option<real>)
    ensures Passes(test, d, Update(b, key, Some(e)), parse) <==>
      Passes(test, d, b - {key}, parse) && Within(test, ToNumber(Get(d, key), parse), e)
  {
    var r := Update(b, key, Some(e));
    if Passes(test, d, b - {key}, parse) && Within(test, ToNumber(Get(d, key), parse), e) {
      forall k | k in r ensures Within(test, ToNumber(Get(d, k), parse), r[k]) {
        if k != key {
          assert k in b - {key};
        }
      }
    }
  }

  /** After a brush is cleared, a record passes iff it passes every other entry. */
  lemma {:induction false} PassesAfterClear(test: RangeTest, d: Record, b: BrushSet, key: Key,
                                            parse: string -> Option<real>)
    ensures Passes(test, d, Update(b, key, None), parse) <==> Passes(test, d, b - {key}, parse)
  {
    assert Update(b, key, None) == b - {key};
  }

  /**
   * Clearing a brush never hides a record; storing an entry for a key that
   * had none never reveals one.
   */
  lemma {:induction false} BrushMonotone(test: RangeTest, d: Record, b: BrushSet, key: Key, e: seq<real>,
                                         parse: string -> Option<real>)
    ensures Passes(test, d, b, parse) ==> Passes(test, d, Update(b, key, None), parse)
    ensures key !in b && Passes(test, d, Update(b, key, Some(e)), parse) ==> Passes(test, d, b, parse)
  {
    PassesAfterClear(test, d, b, key, parse);
    PassesAfterSet(test, d, b, key, e, parse);
    if Passes(test, d, b, parse) {
      forall k | k in b - {key} ensures Within(test, ToNumber(Get(d, k), parse), (b - {key})[k]) {
        assert k in b;
      }
    }
    if key !in b {
      assert b - {key} == b;
    }
  }
}

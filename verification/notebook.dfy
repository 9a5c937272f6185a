/**
 * The notebook chart: one horizontal axis per brushable column, the records
 * drawn as lines in ascending order of the colour column, and a map of
 * brush selections. Each brush event updates the map and collects, in
 * drawing order, the records that lie in every selection (the chart's
 * value).
 *
 * Its selection test is strict: `min <= v && v <= max`, with no swap of
 * reversed bounds.
 */
module Notebook {
  import opened Js
  import opened Brushes

  /** `data.columns.slice(1)`: every column but the first, in column order. */
  function BrushableKeys(columns: seq<Key>): (keys: seq<Key>)
    ensures columns != [] ==> columns == [columns[0]] + keys
    ensures columns == [] ==> keys == []
  {
    if columns == [] then [] else columns[1..]
  }

  // ---------------------------------------------------------------------
  // Drawing order: `data.slice().sort((a, b) => d3.ascending(a[keyz], b[keyz]))`

  /**
   * The number the comparator sees for a record; None when `d3.ascending`
   * answers NaN, that is for a null, undefined or NaN cell.
   */
  function SortKey(keyz: Key, parse: string -> Option<real>): Record -> Option<real>
  {
    (d: Record) => if Get(d, keyz) == Some(Null) then None else ToNumber(Get(d, keyz), parse)
  }

  /** Sort keys in ascending order; a key that is not a number sorts first. */
  predicate KeyLe(a: Option<real>, b: Option<real>)
  {
    a.None? || (b.Some? && a.value <= b.value)
  }

  /** Neighbours are in ascending order of their sort keys. */
  predicate Ascending(s: seq<Record>, key: Record -> Option<real>)
  {
    |s| <= 1 || (Ascending(s[..|s| - 1], key) && KeyLe(key(s[|s| - 2]), key(s[|s| - 1])))
  }

  /**
   * Insert `x` into the sorted `s` after every record whose key is not
   * greater, so records with equal keys keep their order.
   */
  function Insert(s: seq<Record>, x: Record, key: Record -> Option<real>): (r: seq<Record>)
    ensures |r| == |s| + 1
    ensures r[|r| - 1] == x || (s != [] && r[|r| - 1] == s[|s| - 1])
  {
    if s == [] || KeyLe(key(s[|s| - 1]), key(x)) then s + [x]
    else Insert(s[..|s| - 1], x, key) + [s[|s| - 1]]
  }

  /** The drawing order: the records sorted stably by their sort key. */
  function DrawOrder(data: seq<Record>, key: Record -> Option<real>): (r: seq<Record>)
    ensures multiset(r) == multiset(data)
  {
    if data == [] then []
    else
      var n := |data| - 1;
      InsertMultiset(DrawOrder(data[..n], key), data[n], key);
      assert data == data[..n] + [data[n]];
      Insert(DrawOrder(data[..n], key), data[n], key)
  }

  /** The records whose sort key is `v`. */
  function WithKey(key: Record -> Option<real>, v: Option<real>): Record -> bool
  {
    (d: Record) => key(d) == v
  }

  lemma {:induction false} InsertAscending(s: seq<Record>, x: Record, key: Record -> Option<real>)
    requires Ascending(s, key)
    ensures Ascending(Insert(s, x, key), key)
  {
    var r := Insert(s, x, key);
    if s != [] && !KeyLe(key(s[|s| - 1]), key(x)) {
      var pre := s[..|s| - 1];
      InsertAscending(pre, x, key);
      var r' := Insert(pre, x, key);
      assert r[..|r| - 1] == r';
      assert r[|r| - 2] == r'[|r'| - 1];
    } else if s != [] {
      assert r[..|r| - 1] == s;
    }
  }

  lemma {:induction false} InsertMultiset(s: seq<Record>, x: Record, key: Record -> Option<real>)
    ensures multiset(Insert(s, x, key)) == multiset(s) + multiset{x}
  {
    if s != [] && !KeyLe(key(s[|s| - 1]), key(x)) {
      var n := |s| - 1;
      InsertMultiset(s[..n], x, key);
      assert s == s[..n] + [s[n]];
    }
  }

  /** Inserting `x` keeps, for every key, the records with that key in the order of `s + [x]`. */
  lemma {:induction false} InsertStable(s: seq<Record>, x: Record, key: Record -> Option<real>, v: Option<real>)
    ensures Filter(Insert(s, x, key), WithKey(key, v)) == Filter(s + [x], WithKey(key, v))
  {
    var p := WithKey(key, v);
    if s != [] && !KeyLe(key(s[|s| - 1]), key(x)) {
      var n := |s| - 1;
      var pre, y := s[..n], s[n];
      assert s == pre + [y];
      var ins := Insert(pre, x, key);
      assert Insert(s, x, key) == ins + [y];
      assert key(x) != key(y);
      InsertStable(pre, x, key, v);
      FilterSnoc(ins, y, p);
      FilterSnoc(pre + [x], y, p);
      FilterSwap(pre, x, y, p);
    }
  }

  /** The drawing order is ascending in the sort key. */
  lemma {:induction false} DrawOrderAscending(data: seq<Record>, key: Record -> Option<real>)
    ensures Ascending(DrawOrder(data, key), key)
  {
    if data != [] {
      var n := |data| - 1;
      DrawOrderAscending(data[..n], key);
      InsertAscending(DrawOrder(data[..n], key), data[n], key);
    }
  }

  /** The sort is stable: records with the same key keep their relative order. */
  lemma {:induction false} DrawOrderStable(data: seq<Record>, key: Record -> Option<real>, v: Option<real>)
    ensures Filter(DrawOrder(data, key), WithKey(key, v)) == Filter(data, WithKey(key, v))
  {
    if data != [] {
      var n := |data| - 1;
      var pre, x := data[..n], data[n];
      var p := WithKey(key, v);
      var sorted := DrawOrder(pre, key);
      DrawOrderStable(pre, key, v);
      InsertStable(sorted, x, key, v);
      FilterSnoc(sorted, x, p);
      FilterSnoc(pre, x, p);
      assert data == pre + [x];
    }
  }

  /** Read pairwise: any record drawn earlier has a key that is not greater. */
  lemma {:induction false} AscendingSpec(s: seq<Record>, key: Record -> Option<real>)
    requires Ascending(s, key)
    ensures forall i, j :: 0 <= i < j < |s| ==> KeyLe(key(s[i]), key(s[j]))
  {
    if |s| > 1 {
      var n := |s| - 1;
      AscendingSpec(s[..n], key);
      assert forall i :: 0 <= i < n ==> s[..n][i] == s[i];
    }
  }

  // ---------------------------------------------------------------------
  // Brushing

  /** The test `path.each` applies: the record lies in every selection. */
  function Active(selections: BrushSet, parse: string -> Option<real>): Record -> bool
  {
    (d: Record) => Passes(Strict, d, selections, parse)
  }

  class Chart {
    /** The records bound to the line paths, in drawing order. */
    const path: seq<Record>
    var selections: BrushSet
    const parse: string -> Option<real>

    /** The chart draws `data` ordered by the colour column `keyz`, with no selection. */
    constructor (data: seq<Record>, keyz: Key, parse: string -> Option<real>)
      ensures path == DrawOrder(data, SortKey(keyz, parse))
      ensures selections == map[] && this.parse == parse
    {
      path := DrawOrder(data, SortKey(keyz, parse));
      selections := map[];
      this.parse := parse;
    }

    /**
     * `brushed`: a null selection deletes the key's entry, any other sets
     * it; then `selected` collects the active records in drawing order.
     */
    method Brushed(key: Key, selection: Option<seq<real>>) returns (selected: seq<Record>)
      modifies this
      ensures selections == Update(old(selections), key, selection)
      ensures selected == Filter(path, Active(selections, parse))
    {
      match selection {
        case None => selections := selections - {key};
        case Some(e) => selections := selections[key := e];
      }
      selected := [];
      for i := 0 to |path|
        invariant selected == Filter(path[..i], Active(selections, parse))
      {
        var d := path[i];
        var active := Passes(Strict, d, selections, parse);
        if active {
          selected := selected + [d];
        }
        assert path[..i + 1][..i] == path[..i];
      }
      assert path[..|path|] == path;
    }
  }

  /**
   * `selected` holds every active record with its multiplicity and nothing
   * else, and with no selection it is the whole drawing.
   */
  lemma SelectedExactlyActive(path: seq<Record>, selections: BrushSet, parse: string -> Option<real>)
    ensures forall d :: multiset(Filter(path, Active(selections, parse)))[d] ==
              (if Passes(Strict, d, selections, parse) then multiset(path)[d] else 0)
    ensures selections == map[] ==> Filter(path, Active(selections, parse)) == path
  {
    FilterMultiset(path, Active(selections, parse));
    if selections == map[] {
      AllPassFilter(path, Active(selections, parse));
    }
  }

  lemma {:induction false} AllPassFilter(xs: seq<Record>, p: Record -> bool)
    requires forall x :: p(x)
    ensures Filter(xs, p) == xs
  {
    if xs != [] {
      AllPassFilter(xs[..|xs| - 1], p);
      assert xs[..|xs| - 1] + [xs[|xs| - 1]] == xs;
    }
  }
}

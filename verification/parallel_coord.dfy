/**
 * The stand-alone parallel-coordinates script: it plots every column of
 * the loaded rows except "name" and "year", turns the text of those columns
 * into numbers in place (an empty cell becomes null), draws the rows in
 * ascending order of "year" and brushes them with the notebook chart's
 * strict selection test.
 */
module ParallelCoord {
  import opened Js
  import opened Notebook

  /** The columns that get no axis. */
  predicate Plotted(k: Key)
  {
    k != "name" && k != "year"
  }

  /** `Object.keys(data[0]).filter(d => d !== "name" && d !== "year")`. */
  function ChartKeys(first: Record): (keys: seq<Key>)
    ensures forall k :: k in keys <==> k in KeysOf(first) && Plotted(k)
  {
    var ks := KeysOf(first);
    FilterMultiset(ks, Plotted);
    Filter(ks, Plotted)
  }

  /** Axes of a row without repeated keys are not repeated either. */
  lemma ChartKeysDistinct(first: Record)
    requires Distinct(KeysOf(first))
    ensures Distinct(ChartKeys(first))
  {
    FilterDistinct(KeysOf(first), Plotted);
  }

  /** `d[key] === "" ? null : +d[key]` for the cell `d[key]` (None when absent). */
  function NormaliseCell(cell: Option<Value>, parse: string -> Option<real>): (v: Value)
    ensures v.Null? <==> cell == Some(Str(""))
    ensures !v.Null? ==> (v.Num? || v.NotANumber?) && ToNumber(Some(v), parse) == ToNumber(cell, parse)
  {
    if cell == Some(Str("")) then Null
    else
      match ToNumber(cell, parse)
      case Some(x) => Num(x)
      case None => NotANumber
  }

  /** `d[key] = d[key] === "" ? null : +d[key]`. */
  function NormaliseField(r: Record, key: Key, parse: string -> Option<real>): Record
  {
    SetField(r, key, NormaliseCell(Get(r, key), parse))
  }

  /** The record after `keys.forEach(key => d[key] = ...)`, key by key. */
  function NormaliseRecord(r: Record, keys: seq<Key>, parse: string -> Option<real>): (n: Record)
    ensures |r| <= |n| <= |r| + |keys|
  {
    if keys == [] then r
    else NormaliseField(NormaliseRecord(r, keys[..|keys| - 1], parse), keys[|keys| - 1], parse)
  }

  /** A column that is not normalised keeps its cell: "name" and "year" stay as loaded. */
  lemma {:induction false} NormaliseKeepsOthers(r: Record, keys: seq<Key>, parse: string -> Option<real>, k: Key)
    requires k !in keys
    ensures Get(NormaliseRecord(r, keys, parse), k) == Get(r, k)
  {
    if keys != [] {
      var n := |keys| - 1;
      assert k !in keys[..n] by {
        assert forall i :: 0 <= i < n ==> keys[..n][i] == keys[i];
      }
      NormaliseKeepsOthers(r, keys[..n], parse, k);
    }
  }

  /**
   * Each of `keys` (distinct, as object keys are) holds its normalised cell:
   * null for an empty text, the number it converts to otherwise, NaN when
   * it converts to none, including a key the row does not have.
   */
  lemma {:induction false} NormaliseSetsKeys(r: Record, keys: seq<Key>, parse: string -> Option<real>, k: Key)
    requires Distinct(keys) && k in keys
    ensures Get(NormaliseRecord(r, keys, parse), k) == Some(NormaliseCell(Get(r, k), parse))
  {
    var n := |keys| - 1;
    var pre, last := keys[..n], keys[n];
    assert keys == pre + [last];
    assert Distinct(pre) by {
      assert forall i :: 0 <= i < n ==> pre[i] == keys[i];
    }
    assert last !in pre by {
      assert forall i :: 0 <= i < n ==> pre[i] == keys[i];
    }
    if k == last {
      NormaliseKeepsOthers(r, pre, parse, k);
    } else {
      NormaliseSetsKeys(r, pre, parse, k);
    }
  }

  lemma NormaliseStep(r: Record, keys: seq<Key>, j: nat, parse: string -> Option<real>)
    requires j < |keys|
    ensures NormaliseRecord(r, keys[..j + 1], parse) == NormaliseField(NormaliseRecord(r, keys[..j], parse), keys[j], parse)
  {
    assert keys[..j + 1][..j] == keys[..j];
  }

  /** `keys.forEach(key => d[key] = ...)` on row `i`: that row is normalised, no other changes. */
  method NormaliseRow(data: array<Record>, i: nat, keys: seq<Key>, parse: string -> Option<real>)
    requires i < data.Length
    modifies data
    ensures data[i] == NormaliseRecord(old(data[i]), keys, parse)
    ensures forall p :: 0 <= p < data.Length && p != i ==> data[p] == old(data[p])
  {
    for j := 0 to |keys|
      invariant data[i] == NormaliseRecord(old(data[i]), keys[..j], parse)
      invariant forall p :: 0 <= p < data.Length && p != i ==> data[p] == old(data[p])
    {
      NormaliseStep(old(data[i]), keys, j, parse);
      data[i] := NormaliseField(data[i], keys[j], parse);
    }
    assert keys[..|keys|] == keys;
  }

  /**
   * `data.forEach(d => keys.forEach(key => d[key] = d[key] === "" ? null : +d[key]))`:
   * every row is normalised in place.
   */
  method NormaliseMissing(data: array<Record>, keys: seq<Key>, parse: string -> Option<real>)
    modifies data
    ensures forall i :: 0 <= i < data.Length ==> data[i] == NormaliseRecord(old(data[i]), keys, parse)
  {
    for i := 0 to data.Length
      invariant forall p :: 0 <= p < i ==> data[p] == NormaliseRecord(old(data[p]), keys, parse)
      invariant forall p :: i <= p < data.Length ==> data[p] == old(data[p])
    {
      NormaliseRow(data, i, keys, parse);
    }
  }

  /**
   * The script: pick the axes from the first row, normalise the rows, and
   * draw them by "year" with no selection.
   */
  method Setup(data: array<Record>, parse: string -> Option<real>) returns (keys: seq<Key>, chart: Chart)
    requires data.Length > 0
    modifies data
    ensures keys == ChartKeys(old(data[0]))
    ensures forall i :: 0 <= i < data.Length ==> data[i] == NormaliseRecord(old(data[i]), keys, parse)
    ensures fresh(chart) && chart.path == DrawOrder(data[..], SortKey("year", parse))
    ensures chart.selections == map[] && chart.parse == parse
  {
    keys := ChartKeys(data[0]);
    NormaliseMissing(data, keys, parse);
    chart := new Chart(data[..], "year", parse);
  }

  /** Normalising the rows does not change their drawing order key. */
  lemma YearUntouched(r: Record, first: Record, parse: string -> Option<real>)
    ensures SortKey("year", parse)(NormaliseRecord(r, ChartKeys(first), parse)) == SortKey("year", parse)(r)
  {
    NormaliseKeepsOthers(r, ChartKeys(first), parse, "year");
  }
}

/**
 * The variant of the widget that plots categorical columns beside numeric
 * ones. It classifies each column of the loaded records as numerical or
 * categorical, gives a categorical axis one band per distinct value, and
 * keeps a brush set with the same swap-tolerant test as the main widget.
 *
 * A brush on a categorical axis cannot be inverted (a band scale has no
 * `invert`), so the handler raises a TypeError there before it touches the
 * brush set; the model reports that as `ok == false`.
 */
module CategoricalPlot {
  import opened Js
  import opened Brushes

  datatype AxisKind = Numerical | Categorical

  /** The classifier's cell test: null, or a value `Number` does not turn into NaN. */
  predicate IsNumericCell(cell: Option<Value>, parse: string -> Option<real>)
  {
    cell == Some(Null) || ToNumber(cell, parse).Some?
  }

  /** Every record's cell for `key` passes the cell test. */
  predicate AllNumeric(data: seq<Record>, key: Key, parse: string -> Option<real>)
  {
    forall i :: 0 <= i < |data| ==> IsNumericCell(Get(data[i], key), parse)
  }

  /** The kind a column must get. */
  function KindOf(data: seq<Record>, key: Key, parse: string -> Option<real>): AxisKind
  {
    if AllNumeric(data, key, parse) then Numerical else Categorical
  }

  /**
   * The scan for one key: assume numerical, and stop at the first record
   * whose cell is neither null nor a number.
   */
  method ClassifyKey(data: seq<Record>, key: Key, parse: string -> Option<real>) returns (kind: AxisKind)
    ensures kind == Numerical <==> forall i :: 0 <= i < |data| ==> IsNumericCell(Get(data[i], key), parse)
    ensures kind == Categorical <==> exists i :: 0 <= i < |data| && !IsNumericCell(Get(data[i], key), parse)
  {
    var isNumerical := true;
    for i := 0 to |data|
      invariant isNumerical
      invariant forall j :: 0 <= j < i ==> IsNumericCell(Get(data[j], key), parse)
    {
      var cell := Get(data[i], key);
      if cell != Some(Null) && ToNumber(cell, parse).None? {
        isNumerical := false;
        break;
      }
    }
    kind := if isNumerical then Numerical else Categorical;
  }

  /** `this.keyTypes`: the kind of every key of `keys`, and no other entry. */
  method ClassifyKeys(data: seq<Record>, keys: seq<Key>, parse: string -> Option<real>)
    returns (keyTypes: map<Key, AxisKind>)
    ensures forall k :: k in keyTypes <==> k in keys
    ensures forall k :: k in keyTypes ==> keyTypes[k] == KindOf(data, k, parse)
  {
    keyTypes := map[];
    for i := 0 to |keys|
      invariant forall k :: k in keyTypes <==> k in keys[..i]
      invariant forall k :: k in keyTypes ==> keyTypes[k] == KindOf(data, k, parse)
    {
      var kind := ClassifyKey(data, keys[i], parse);
      keyTypes := keyTypes[keys[i] := kind];
      assert keys[..i + 1] == keys[..i] + [keys[i]];
    }
    assert keys[..|keys|] == keys;
  }

  /** `data.map(d => d[key])`. */
  function Column(data: seq<Record>, key: Key): (col: seq<Option<Value>>)
    ensures |col| == |data|
    ensures forall i :: 0 <= i < |data| ==> col[i] == Get(data[i], key)
  {
    if data == [] then [] else Column(data[..|data| - 1], key) + [Get(data[|data| - 1], key)]
  }

  /**
   * `Array.from(new Set(data.map(d => d[key])))`: the band domain of a
   * categorical axis holds each value of the column exactly once.
   */
  function Categories(data: seq<Record>, key: Key): (cs: seq<Option<Value>>)
    ensures Distinct(cs)
    ensures forall c :: c in cs <==> exists i :: 0 <= i < |data| && Get(data[i], key) == c
  {
    var col := Column(data, key);
    DedupMembers(col);
    assert forall c :: c in col <==> exists i :: 0 <= i < |data| && col[i] == c;
    Dedup(col)
  }

  /** The bands follow the order in which the values first occur in the data. */
  lemma CategoriesInFirstSeenOrder(data: seq<Record>, key: Key, i: nat, j: nat)
    requires i < j < |Categories(data, key)|
    ensures var cs, col := Categories(data, key), Column(data, key);
      cs[i] in col && cs[j] in col && IndexOf(col, cs[i]) < IndexOf(col, cs[j])
  {
    DedupOrder(Column(data, key));
  }

  /**
   * The opacity `updateLines` gives a path bound to datum `d`: full for a
   * line inside every brush, nearly transparent for one outside, dimmed for
   * a path without a datum.
   */
  function LineOpacity(d: Option<Record>, brushes: BrushSet, parse: string -> Option<real>): (o: real)
    ensures o == 0.8 <==> d.Some? && Passes(SwapTolerant, d.value, brushes, parse)
    ensures o == 0.03 <==> d.Some? && !Passes(SwapTolerant, d.value, brushes, parse)
    ensures o == 0.1 <==> d.None?
  {
    match d
    case None => 0.1
    case Some(r) => if Passes(SwapTolerant, r, brushes, parse) then 0.8 else 0.03
  }

  class Plot {
    const data: seq<Record>
    const keys: seq<Key>
    const keyTypes: map<Key, AxisKind>
    var brushes: BrushSet
    const parse: string -> Option<real>

    /** Only numerical axes ever hold a brush entry. */
    ghost predicate Valid()
      reads this
    {
      forall k :: k in brushes ==> k in keyTypes && keyTypes[k] == Numerical
    }

    /** The load callback: the axes are the first record's keys, each classified. */
    constructor (data: seq<Record>, parse: string -> Option<real>)
      requires |data| > 0
      ensures Valid()
      ensures this.data == data && this.parse == parse
      ensures keys == KeysOf(data[0])
      ensures forall k :: k in keyTypes <==> k in keys
      ensures forall k :: k in keyTypes ==> keyTypes[k] == KindOf(data, k, parse)
      ensures brushes == map[]
    {
      var types := ClassifyKeys(data, KeysOf(data[0]), parse);
      this.data := data;
      this.parse := parse;
      keys := KeysOf(data[0]);
      keyTypes := types;
      brushes := map[];
    }

    /**
     * `brushed`: a selection on a numerical axis stores its entry, a cleared
     * brush deletes it; a selection on any other axis raises before any
     * change (`ok` is false).
     */
    method Brushed(key: Key, selection: Option<seq<real>>) returns (ok: bool)
      requires Valid()
      modifies this
      ensures Valid()
      ensures ok <==> selection.None? || (key in keyTypes && keyTypes[key] == Numerical)
      ensures ok ==> brushes == Update(old(brushes), key, selection)
      ensures !ok ==> brushes == old(brushes)
    {
      match selection
      case None =>
        brushes := brushes - {key};
        ok := true;
      case Some(e) =>
        if key in keyTypes && keyTypes[key] == Numerical {
          brushes := brushes[key := e];
          ok := true;
        } else {
          ok := false;
        }
    }
  }
}

/**
 * The `ParallelCoordPlot` widget: it encodes its data once, keeps the
 * numeric copy (and the original copy it can return to), and keeps a brush
 * set whose entries decide which lines are highlighted. A dropdown on a
 * string axis narrows the data to one label; the reset button brings the
 * data back and drops every brush.
 *
 * Rendering is not modelled: scales, axes, colours and tooltips are d3 work.
 * The brush handler receives the entry it stores, already converted from
 * pixels (the inverted bounds on a numeric axis, the selected band codes on
 * a string axis).
 */
module ParallelCoordPlot {
  import opened Js
  import opened Brushes
  import opened Encoding

  /** The default first axis position and spacing of `getPositionForKey`. */
  const StartPosition: int := 220
  const Step: int := 100

  /** `getPositionForKey(keyIndex)`: the horizontal position of axis `keyIndex`. */
  function GetPositionForKey(keyIndex: int): (x: int)
    ensures keyIndex >= 0 ==> x >= StartPosition
    ensures keyIndex == 0 ==> x == StartPosition
  {
    StartPosition + keyIndex * Step
  }

  /**
   * Axes are laid out in key order, one step apart: a later key is always
   * further right, so no two keys share an axis position.
   */
  lemma AxesInKeyOrder(i: int, j: int)
    ensures i < j <==> GetPositionForKey(i) < GetPositionForKey(j)
    ensures GetPositionForKey(j) - GetPositionForKey(i) == (j - i) * Step
  {
  }

  /**
   * The opacity `updateLines` gives a path bound to datum `d` (None for a
   * path without one, such as an axis line).
   */
  function LineOpacity(d: Option<Record>, brushes: BrushSet, parse: string -> Option<real>): (o: real)
    ensures o == 0.8 <==> d.Some? && Passes(SwapTolerant, d.value, brushes, parse)
    ensures o == 0.8 || o == 0.1
  {
    match d
    case None => 0.1
    case Some(r) => if Passes(SwapTolerant, r, brushes, parse) then 0.8 else 0.1
  }

  /** With no brush, every line with a datum is drawn at full opacity. */
  lemma NoBrushNoDimming(r: Record, parse: string -> Option<real>)
    ensures LineOpacity(Some(r), map[], parse) == 0.8
  {
  }

  /**
   * On a string axis the stored entry is the list of selected band codes,
   * but the test reads only its first two elements as a range: a single
   * selected band hides every line, and a third selected band is ignored.
   */
  lemma BandEntryReadAsRange(k: Key, parse: string -> Option<real>)
    ensures LineOpacity(Some([Field(k, Num(0.0))]), map[k := [0.0]], parse) == 0.1
    ensures LineOpacity(Some([Field(k, Num(2.0))]), map[k := [0.0, 1.0, 2.0]], parse) == 0.1
  {
    var one, three := [Field(k, Num(0.0))], [Field(k, Num(2.0))];
    assert Get(one, k) == Some(Num(0.0)) && Get(three, k) == Some(Num(2.0));
    assert !Within(SwapTolerant, Some(0.0), [0.0]);
    assert !Within(SwapTolerant, Some(2.0), [0.0, 1.0, 2.0]);
    assert !Passes(SwapTolerant, one, map[k := [0.0]], parse);
    assert !Passes(SwapTolerant, three, map[k := [0.0, 1.0, 2.0]], parse);
  }

  /**
   * The brush test with each string axis's entry read as the set of
   * selected band codes, and every other entry as a swap-tolerant range.
   */
  predicate PassesBands(d: Record, brushes: BrushSet, keyTypes: FieldTypes, parse: string -> Option<real>)
  {
    forall k :: k in brushes ==> InEntry(d, k, brushes[k], keyTypes, parse)
  }

  predicate InEntry(d: Record, k: Key, e: seq<real>, keyTypes: FieldTypes, parse: string -> Option<real>)
  {
    var v := ToNumber(Get(d, k), parse);
    if k in keyTypes && keyTypes[k] == TString then v.Some? && v.value in e
    else Within(SwapTolerant, v, e)
  }

  /** `updateLines` with the band entries read as sets of codes. */
  function BandLineOpacity(d: Option<Record>, brushes: BrushSet, keyTypes: FieldTypes,
                           parse: string -> Option<real>): (o: real)
    ensures o == 0.8 <==> d.Some? && PassesBands(d.value, brushes, keyTypes, parse)
    ensures o == 0.8 || o == 0.1
  {
    match d
    case None => 0.1
    case Some(r) => if PassesBands(r, brushes, keyTypes, parse) then 0.8 else 0.1
  }

  /**
   * With band entries read as sets, brushing bands `e` on a string axis
   * keeps a line iff its code is one of them (however many are selected)
   * and it passes every other brush; numeric axes keep their range test.
   */
  lemma {:induction false} BandSelectionKeepsSelectedCodes(d: Record, brushes: BrushSet, keyTypes: FieldTypes,
                                                           k: Key, e: seq<real>, parse: string -> Option<real>)
    requires k in keyTypes && keyTypes[k] == TString
    ensures BandLineOpacity(Some(d), Update(brushes, k, Some(e)), keyTypes, parse) == 0.8 <==>
      PassesBands(d, brushes - {k}, keyTypes, parse) &&
      ToNumber(Get(d, k), parse).Some? && ToNumber(Get(d, k), parse).value in e
  {
    var b := Update(brushes, k, Some(e));
    if PassesBands(d, brushes - {k}, keyTypes, parse) && InEntry(d, k, e, keyTypes, parse) {
      forall k' | k' in b ensures InEntry(d, k', b[k'], keyTypes, parse) {
        if k' != k {
          assert k' in brushes - {k};
        }
      }
    }
    if PassesBands(d, b, keyTypes, parse) {
      forall k' | k' in brushes - {k} ensures InEntry(d, k', (brushes - {k})[k'], keyTypes, parse) {
        assert k' in b;
      }
      assert InEntry(d, k, b[k], keyTypes, parse);
    }
  }

  /** `d[key] == selectedValue`, the test `updateData` filters with. */
  predicate Chosen(d: Record, key: Key, selectedValue: string, parse: string -> Option<real>)
  {
    LooseEqString(Get(d, key), selectedValue, parse)
  }

  /**
   * The numeric copy of a record has exactly the keys of the record whose
   * type is not "object": those are the axes the plot draws.
   */
  lemma EncodedKeys(ft: FieldTypes, T: StringTables, r: Record, fmt: real -> string)
    requires Covers(ft, T, r, fmt)
    ensures forall k :: k in KeysOf(EncodeRecord(ft, T, r, fmt)) <==>
      Get(r, k).Some? && k in ft && ft[k] != TObject
  {
    var e := EncodeRecord(ft, T, r, fmt);
    forall k ensures k in KeysOf(e) <==> Get(r, k).Some? && k in ft && ft[k] != TObject {
      EncodeRecordGet(ft, T, r, k, fmt);
      if k in KeysOf(e) {
        var i :| 0 <= i < |e| && KeysOf(e)[i] == k;
        assert e[i].key == k;
      }
      if Get(e, k).Some? {
        var i :| 0 <= i < |e| && e[i] == Field(k, Get(e, k).value);
        assert KeysOf(e)[i] == k;
      }
    }
  }

  /**
   * Choosing a label from a string axis's dropdown (whose option values are
   * the codes) keeps exactly the records that held that label for the key.
   */
  lemma MenuChoiceKeepsLabel(ft: FieldTypes, T: StringTables, fs: seq<Field>, r: Record, k: Key,
                             l: string, s: string, fmt: real -> string, parse: string -> Option<real>)
    requires Declared(T, ft, fs, fmt) && k in T && l in T[k]
    requires Covers(ft, T, r, fmt)
    requires parse(s) == Some(T[k][l] as real)
    ensures Chosen(EncodeRecord(ft, T, r, fmt), k, s, parse) <==>
      Get(r, k).Some? && Stringify(Get(r, k).value, fmt) == l
  {
    assert k in ft && ft[k] == TString && T[k] == TableFor(fs, k, fmt);
    EncodeRecordGet(ft, T, r, k, fmt);
    if Get(r, k).Some? {
      var m := Stringify(Get(r, k).value, fmt);
      assert Get(EncodeRecord(ft, T, r, fmt), k) == Some(Num(T[k][m] as real));
      if m != l {
        TableIsDense(fs, k, fmt);
        assert T[k][m] != T[k][l];
      }
    }
  }

  class Plot {
    /** The records currently drawn. */
    var data: seq<Record>
    /** The numeric copy made at construction, restored by the reset button. */
    const originalData: seq<Record>
    const stringTables: StringTables
    const keyTypes: FieldTypes
    /** The axes: the keys of the first numeric record. */
    const keys: seq<Key>
    var brushes: BrushSet
    /** The records as loaded. */
    ghost const source: seq<Record>
    const parse: string -> Option<real>
    const fmt: real -> string

    /**
     * The tables and types are those of the loaded records, the original
     * copy is their numeric copy, and the drawn records are a selection of
     * the original copy.
     */
    ghost predicate Valid()
      reads this
    {
      && keyTypes == InferTypes(Flatten(source))
      && Declared(stringTables, keyTypes, Flatten(source), fmt)
      && CoversAll(keyTypes, stringTables, source, fmt)
      && originalData == EncodeAll(keyTypes, stringTables, source, fmt)
      && multiset(data) <= multiset(originalData)
    }

    /** The constructor with in-memory data: encode, keep both copies, no brush. */
    constructor (dataFromHtml: seq<Record>, parse: string -> Option<real>, fmt: real -> string)
      requires |dataFromHtml| > 0
      ensures Valid()
      ensures source == dataFromHtml && this.parse == parse && this.fmt == fmt
      ensures data == originalData && |data| == |dataFromHtml|
      ensures keys == KeysOf(data[0])
      ensures brushes == map[]
    {
      var dataNumbered, tables, types := TransformDataEnhanced(dataFromHtml, fmt);
      EncodeAllSpec(types, tables, dataFromHtml, fmt);
      source := dataFromHtml;
      this.parse := parse;
      this.fmt := fmt;
      originalData := dataNumbered;
      stringTables := tables;
      keyTypes := types;
      keys := KeysOf(dataNumbered[0]);
      data := dataNumbered;
      brushes := map[];
    }

    /**
     * `brushed`: a selection stores its entry for `key`, a cleared brush
     * deletes it; the data are untouched.
     */
    method Brushed(key: Key, selection: Option<seq<real>>)
      requires Valid()
      modifies this
      ensures Valid()
      ensures brushes == Update(old(brushes), key, selection)
      ensures data == old(data)
    {
      match selection
      case Some(e) => brushes := brushes[key := e];
      case None => brushes := brushes - {key};
    }

    /**
     * `updateData`: keep the drawn records whose value for `key` equals the
     * chosen value, in their order, and drop every brush.
     */
    method UpdateData(key: Key, selectedValue: string)
      requires Valid()
      modifies this
      ensures Valid()
      ensures data == Filter(old(data), (d: Record) => Chosen(d, key, selectedValue, parse))
      ensures brushes == map[]
    {
      var p := (d: Record) => Chosen(d, key, selectedValue, parse);
      FilterShrinks(data, p);
      data := Filter(data, p);
      brushes := map[];
    }

    /** The reset button: the original copy is drawn again, with no brush. */
    method Reset()
      requires Valid()
      modifies this
      ensures Valid()
      ensures data == originalData && brushes == map[]
    {
      data := originalData;
      brushes := map[];
    }
  }
}

/**
 * Column typing and categorical encoding of the chart in
 * src/ParallelCoordPlot.js (`transformDataEnhanced` and
 * `getStringForKeyAndNumber`).
 *
 * Pass one gives each key a type: "string" as soon as any record holds a
 * string for it, otherwise the `typeof` of the first value seen for it.
 * Pass two builds a numeric copy of every record: a value of a string-typed
 * key becomes its code in that key's string table (a new label gets the
 * table's current size), a number is copied, a boolean-typed value becomes
 * 1 or 0, and a key of any other type is left out of the copy.
 *
 * The specification below is declarative: the table of a key is the list of
 * its distinct labels in first-seen order, numbered from 0; the method
 * `TransformDataEnhanced` keeps the two nested-loop passes of the source and
 * is proved to compute exactly that.
 */
module Encoding {
  import opened Js

  type FieldTypes = map<Key, JsType>
  type StringTable = map<string, nat>
  type StringTables = map<Key, StringTable>

  // ---------------------------------------------------------------------
  // Visiting order

  /** All fields of all records, in the order both passes visit them. */
  function Flatten(data: seq<Record>): seq<Field>
  {
    if data == [] then [] else Flatten(data[..|data| - 1]) + data[|data| - 1]
  }

  lemma FlattenStep(data: seq<Record>, i: nat)
    requires i < |data|
    ensures Flatten(data[..i + 1]) == Flatten(data[..i]) + data[i]
  {
    assert data[..i + 1][..i] == data[..i];
  }

  /** Every field of every record is visited. */
  lemma {:induction false} FlattenHas(data: seq<Record>, i: nat, j: nat)
    requires i < |data| && j < |data[i]|
    ensures data[i][j] in Flatten(data)
  {
    var n := |data| - 1;
    if i < n {
      assert data[..n][i] == data[i];
      FlattenHas(data[..n], i, j);
    }
  }

  /** Key `k` is held by some visited field. */
  predicate Occurs(fs: seq<Field>, k: Key)
  {
    exists i :: 0 <= i < |fs| && fs[i].key == k
  }

  /** Some visited field holds a string for key `k`. */
  predicate SomeString(fs: seq<Field>, k: Key)
  {
    exists i :: 0 <= i < |fs| && fs[i].key == k && fs[i].value.Str?
  }

  lemma OccursSnoc(pre: seq<Field>, f: Field, k: Key)
    ensures Occurs(pre + [f], k) <==> Occurs(pre, k) || f.key == k
  {
    var fs := pre + [f];
    if Occurs(fs, k) && f.key != k {
      var i :| 0 <= i < |fs| && fs[i].key == k;
      assert pre[i] == fs[i];
    }
    if Occurs(pre, k) {
      var i :| 0 <= i < |pre| && pre[i].key == k;
      assert fs[i] == pre[i];
    }
    assert fs[|pre|] == f;
  }

  lemma SomeStringSnoc(pre: seq<Field>, f: Field, k: Key)
    ensures SomeString(pre + [f], k) <==> SomeString(pre, k) || (f.key == k && f.value.Str?)
  {
    var fs := pre + [f];
    if SomeString(fs, k) && !(f.key == k && f.value.Str?) {
      var i :| 0 <= i < |fs| && fs[i].key == k && fs[i].value.Str?;
      assert pre[i] == fs[i];
    }
    if SomeString(pre, k) {
      var i :| 0 <= i < |pre| && pre[i].key == k && pre[i].value.Str?;
      assert fs[i] == pre[i];
    }
    assert fs[|pre|] == f;
  }

  /** The first value visited for key `k`. */
  function FirstValue(fs: seq<Field>, k: Key): Value
    requires Occurs(fs, k)
  {
    if fs[0].key == k then fs[0].value
    else
      assert Occurs(fs[1..], k) by {
        var i :| 0 <= i < |fs| && fs[i].key == k;
        assert fs[1..][i - 1] == fs[i];
      }
      FirstValue(fs[1..], k)
  }

  lemma {:induction false} FirstValueAppend(pre: seq<Field>, f: Field, k: Key)
    requires Occurs(pre + [f], k)
    ensures Occurs(pre, k) ==> FirstValue(pre + [f], k) == FirstValue(pre, k)
    ensures !Occurs(pre, k) ==> f.key == k && FirstValue(pre + [f], k) == f.value
  {
    if pre == [] {
      assert pre + [f] == [f];
    } else if pre[0].key != k {
      assert (pre + [f])[1..] == pre[1..] + [f];
      assert Occurs(pre[1..] + [f], k) by {
        var i :| 0 <= i < |pre + [f]| && (pre + [f])[i].key == k;
        assert (pre[1..] + [f])[i - 1] == (pre + [f])[i];
      }
      assert Occurs(pre, k) <==> Occurs(pre[1..], k) by {
        if Occurs(pre, k) {
          var i :| 0 <= i < |pre| && pre[i].key == k;
          assert pre[1..][i - 1] == pre[i];
        }
        if Occurs(pre[1..], k) {
          var i :| 0 <= i < |pre[1..]| && pre[1..][i].key == k;
          assert pre[i + 1] == pre[1..][i];
        }
      }
      FirstValueAppend(pre[1..], f, k);
    } else {
      assert (pre + [f])[0] == pre[0];
    }
  }

  // ---------------------------------------------------------------------
  // Pass one: key types

  /** One step of pass one: a string wins; otherwise the first type seen stays. */
  function Observe(ft: FieldTypes, f: Field): FieldTypes
  {
    if f.value.Str? then ft[f.key := TString]
    else if f.key !in ft then ft[f.key := TypeOf(f.value)]
    else ft
  }

  /** The key types after pass one has visited the fields `fs`. */
  function InferTypes(fs: seq<Field>): FieldTypes
  {
    if fs == [] then map[] else Observe(InferTypes(fs[..|fs| - 1]), fs[|fs| - 1])
  }

  /**
   * A key gets a type iff some record holds it. Its type is "string" iff
   * some record holds a string for it; otherwise it is the `typeof` of the
   * first value seen for it, whatever non-string values follow.
   */
  lemma {:induction false} InferTypesSpec(fs: seq<Field>, k: Key)
    ensures k in InferTypes(fs) <==> Occurs(fs, k)
    ensures Occurs(fs, k) ==>
      InferTypes(fs)[k] == if SomeString(fs, k) then TString else TypeOf(FirstValue(fs, k))
  {
    if fs != [] {
      var n := |fs| - 1;
      var pre, f := fs[..n], fs[n];
      assert fs == pre + [f];
      InferTypesSpec(pre, k);
      OccursSnoc(pre, f, k);
      SomeStringSnoc(pre, f, k);
      if Occurs(fs, k) {
        FirstValueAppend(pre, f, k);
        if !Occurs(pre, k) {
          assert !SomeString(pre, k);
        }
      }
    }
  }

  // ---------------------------------------------------------------------
  // Pass two: string tables

  /** `String(v)` of every value visited for key `k`, in visiting order. */
  function Labels(fs: seq<Field>, k: Key, fmt: real -> string): seq<string>
  {
    if fs == [] then []
    else
      var f := fs[|fs| - 1];
      Labels(fs[..|fs| - 1], k, fmt) + (if f.key == k then [Stringify(f.value, fmt)] else [])
  }

  lemma {:induction false} LabelsSpec(fs: seq<Field>, k: Key, fmt: real -> string)
    ensures forall l :: l in Labels(fs, k, fmt) <==>
      exists i :: 0 <= i < |fs| && fs[i].key == k && Stringify(fs[i].value, fmt) == l
  {
    if fs != [] {
      var n := |fs| - 1;
      LabelsSpec(fs[..n], k, fmt);
      forall l ensures l in Labels(fs, k, fmt) <==>
        exists i :: 0 <= i < |fs| && fs[i].key == k && Stringify(fs[i].value, fmt) == l
      {
        if exists i :: 0 <= i < |fs| && fs[i].key == k && Stringify(fs[i].value, fmt) == l {
          var i :| 0 <= i < |fs| && fs[i].key == k && Stringify(fs[i].value, fmt) == l;
          if i < n {
            assert fs[..n][i] == fs[i];
          }
        }
        if l in Labels(fs[..n], k, fmt) {
          var i :| 0 <= i < n && fs[..n][i].key == k && Stringify(fs[..n][i].value, fmt) == l;
          assert fs[i] == fs[..n][i];
        }
      }
    }
  }

  /** The table numbering the labels of `d` by their position. */
  function IndexMap(d: seq<string>): StringTable
  {
    if d == [] then map[] else IndexMap(d[..|d| - 1])[d[|d| - 1] := |d| - 1]
  }

  /** For distinct labels, the table holds exactly them, numbered 0 .. |d| - 1. */
  lemma {:induction false} IndexMapSpec(d: seq<string>)
    requires Distinct(d)
    ensures forall l :: l in IndexMap(d) <==> l in d
    ensures |IndexMap(d)| == |d|
    ensures forall i :: 0 <= i < |d| ==> IndexMap(d)[d[i]] == i
  {
    if d != [] {
      var n := |d| - 1;
      IndexMapSpec(d[..n]);
      assert d == d[..n] + [d[n]];
      assert d[n] !in d[..n];
      assert d[n] !in IndexMap(d[..n]);
    }
  }

  /** The table of key `k`: its distinct labels, numbered in first-seen order. */
  function TableFor(fs: seq<Field>, k: Key, fmt: real -> string): StringTable
  {
    IndexMap(Dedup(Labels(fs, k, fmt)))
  }

  /**
   * The string tables after pass two has visited the fields `fs`, stated
   * outright: a table for each string-typed key seen and for no other key,
   * holding that key's distinct labels numbered in first-seen order.
   */
  ghost predicate Declared(T: StringTables, ft: FieldTypes, fs: seq<Field>, fmt: real -> string)
  {
    forall k ::
      (k in T <==> k in ft && ft[k] == TString && Occurs(fs, k)) &&
      (k in T ==> T[k] == TableFor(fs, k, fmt))
  }

  /** The table entry a pass-two step leaves for label `l` of a string-typed key. */
  function Assign(t: StringTable, l: string): StringTable
  {
    if l in t then t else t[l := |t|]
  }

  /** A key that has not been visited yet has no labels. */
  lemma NoLabelsBeforeFirstVisit(fs: seq<Field>, k: Key, fmt: real -> string)
    requires !Occurs(fs, k)
    ensures Labels(fs, k, fmt) == []
  {
    LabelsSpec(fs, k, fmt);
  }

  lemma LabelsSnoc(fs: seq<Field>, f: Field, fmt: real -> string)
    ensures Labels(fs + [f], f.key, fmt) == Labels(fs, f.key, fmt) + [Stringify(f.value, fmt)]
  {
    assert (fs + [f])[..|fs|] == fs;
  }

  lemma DedupSnoc<T>(u: seq<T>, x: T)
    ensures Dedup(u + [x]) == if x in Dedup(u) then Dedup(u) else Dedup(u) + [x]
  {
    assert (u + [x])[..|u|] == u;
  }

  lemma IndexMapSnoc(d: seq<string>, l: string)
    requires Distinct(d) && l !in d
    ensures l !in IndexMap(d) && |IndexMap(d)| == |d|
    ensures IndexMap(d + [l]) == IndexMap(d)[l := |d|]
  {
    IndexMapSpec(d);
    assert (d + [l])[..|d|] == d;
  }

  /** Visiting label `l` of key `k` assigns it the next code unless it has one. */
  lemma {:induction false} TableForStep(fs: seq<Field>, f: Field, fmt: real -> string)
    ensures TableFor(fs + [f], f.key, fmt) == Assign(TableFor(fs, f.key, fmt), Stringify(f.value, fmt))
  {
    var l := Stringify(f.value, fmt);
    var u := Labels(fs, f.key, fmt);
    LabelsSnoc(fs, f, fmt);
    DedupSnoc(u, l);
    var d := Dedup(u);
    DedupMembers(u);
    if l in d {
      IndexMapSpec(d);
    } else {
      IndexMapSnoc(d, l);
    }
  }

  lemma TablesOtherKey(fs: seq<Field>, f: Field, k: Key, fmt: real -> string)
    requires k != f.key
    ensures TableFor(fs + [f], k, fmt) == TableFor(fs, k, fmt)
  {
    assert (fs + [f])[..|fs|] == fs;
    assert Labels(fs + [f], k, fmt) == Labels(fs, k, fmt);
  }

  /** Table `t'` keeps every label of `t` with its code. */
  predicate TableExtends(t: StringTable, t': StringTable)
  {
    forall l :: l in t ==> l in t' && t'[l] == t[l]
  }

  /** Extending one table set by another keeps every existing code. */
  predicate Extends(T: StringTables, T': StringTables)
  {
    forall k :: k in T ==> k in T' && TableExtends(T[k], T'[k])
  }

  // ---------------------------------------------------------------------
  // Pass two: encoded records

  /** Field `f` has a type and, when it is string-typed, a code for its label. */
  predicate FieldCovered(ft: FieldTypes, T: StringTables, f: Field, fmt: real -> string)
  {
    f.key in ft && (ft[f.key] == TString ==> f.key in T && Stringify(f.value, fmt) in T[f.key])
  }

  /** Every field of `r` is covered. */
  predicate Covers(ft: FieldTypes, T: StringTables, r: Record, fmt: real -> string)
  {
    r == [] || (Covers(ft, T, r[..|r| - 1], fmt) && FieldCovered(ft, T, r[|r| - 1], fmt))
  }

  lemma {:induction false} CoversSpec(ft: FieldTypes, T: StringTables, r: Record, fmt: real -> string)
    ensures Covers(ft, T, r, fmt) <==> forall i :: 0 <= i < |r| ==> FieldCovered(ft, T, r[i], fmt)
  {
    if r != [] {
      var n := |r| - 1;
      CoversSpec(ft, T, r[..n], fmt);
      assert forall i :: 0 <= i < n ==> r[..n][i] == r[i];
    }
  }

  /** The numeric image of a value of key `k` whose type is `t`; None when `t` is "object". */
  function EncodeValue(t: JsType, tbl: StringTable, v: Value, fmt: real -> string): Option<Value>
    requires t == TString ==> Stringify(v, fmt) in tbl
  {
    match t
    case TString => Some(Num(tbl[Stringify(v, fmt)] as real))
    case TNumber => Some(v)
    case TBoolean => Some(Num(if Truthy(v) then 1.0 else 0.0))
    case TObject => None
  }

  function EncodeField(ft: FieldTypes, T: StringTables, f: Field, fmt: real -> string): seq<Field>
    requires FieldCovered(ft, T, f, fmt)
  {
    var tbl := if f.key in T then T[f.key] else map[];
    match EncodeValue(ft[f.key], tbl, f.value, fmt)
    case Some(v) => [Field(f.key, v)]
    case None => []
  }

  /** The numeric copy of record `r` under the key types `ft` and tables `T`. */
  function EncodeRecord(ft: FieldTypes, T: StringTables, r: Record, fmt: real -> string): Record
    requires Covers(ft, T, r, fmt)
  {
    if r == [] then [] else EncodeRecord(ft, T, r[..|r| - 1], fmt) + EncodeField(ft, T, r[|r| - 1], fmt)
  }

  lemma EncodeRecordSnoc(ft: FieldTypes, T: StringTables, r: Record, f: Field, fmt: real -> string)
    requires Covers(ft, T, r, fmt) && FieldCovered(ft, T, f, fmt)
    ensures Covers(ft, T, r + [f], fmt)
    ensures EncodeRecord(ft, T, r + [f], fmt) == EncodeRecord(ft, T, r, fmt) + EncodeField(ft, T, f, fmt)
  {
    assert (r + [f])[..|r|] == r;
  }

  lemma GetConcat(a: Record, b: Record, k: Key)
    ensures Get(a + b, k) == if Get(a, k).Some? then Get(a, k) else Get(b, k)
  {
    if a != [] {
      assert (a + b)[1..] == a[1..] + b;
    } else {
      assert a + b == b;
    }
  }

  /**
   * Reading key `k` from the numeric copy: a string-typed value reads as its
   * code, a number-typed one as itself, a boolean-typed one as 1 or 0, and a
   * key of any other type, or an absent key, reads as undefined.
   */
  lemma {:induction false} EncodeRecordGet(ft: FieldTypes, T: StringTables, r: Record, k: Key, fmt: real -> string)
    requires Covers(ft, T, r, fmt)
    ensures Get(r, k) == None ==> Get(EncodeRecord(ft, T, r, fmt), k) == None
    ensures Get(r, k).Some? ==>
      var v := Get(r, k).value;
      FieldCovered(ft, T, Field(k, v), fmt) &&
      Get(EncodeRecord(ft, T, r, fmt), k) == EncodeValue(ft[k], if k in T then T[k] else map[], v, fmt)
  {
    if r != [] {
      var n := |r| - 1;
      assert r == r[..n] + [r[n]];
      EncodeRecordGet(ft, T, r[..n], k, fmt);
      GetConcat(r[..n], [r[n]], k);
      GetConcat(EncodeRecord(ft, T, r[..n], fmt), EncodeField(ft, T, r[n], fmt), k);
    }
  }

  /** Growing the tables does not change the numeric copy of a covered record. */
  lemma {:induction false} EncodeStable(ft: FieldTypes, T: StringTables, T': StringTables, r: Record, fmt: real -> string)
    requires Covers(ft, T, r, fmt) && Extends(T, T')
    ensures Covers(ft, T', r, fmt)
    ensures EncodeRecord(ft, T', r, fmt) == EncodeRecord(ft, T, r, fmt)
  {
    if r != [] {
      EncodeStable(ft, T, T', r[..|r| - 1], fmt);
    }
  }

  // ---------------------------------------------------------------------
  // Properties of the tables

  /**
   * The table of a string-typed key holds exactly the labels seen for it;
   * its codes are exactly 0 .. n-1 and distinct labels get distinct codes.
   */
  lemma TableIsDense(fs: seq<Field>, k: Key, fmt: real -> string)
    ensures var t := TableFor(fs, k, fmt);
      && (forall l :: l in t <==> l in Labels(fs, k, fmt))
      && (forall l :: l in t ==> t[l] < |t|)
      && (forall c :: 0 <= c < |t| ==> c in t.Values)
      && Injective(t)
  {
    var u := Labels(fs, k, fmt);
    var d := Dedup(u);
    var t := IndexMap(d);
    DedupMembers(u);
    IndexMapSpec(d);
    forall l | l in t ensures exists i :: 0 <= i < |d| && d[i] == l && t[l] == i {
      var i := IndexOf(d, l);
    }
    forall c | 0 <= c < |t| ensures c in t.Values {
      assert d[c] in d;
      assert t[d[c]] == c;
    }
  }

  /** Codes follow the order in which the labels were first seen. */
  lemma TableFirstSeenOrder(fs: seq<Field>, k: Key, fmt: real -> string, l: string, l': string)
    requires l in TableFor(fs, k, fmt) && l' in TableFor(fs, k, fmt)
    ensures l in Labels(fs, k, fmt) && l' in Labels(fs, k, fmt)
    ensures var t := TableFor(fs, k, fmt);
      t[l] < t[l'] <==> IndexOf(Labels(fs, k, fmt), l) < IndexOf(Labels(fs, k, fmt), l')
  {
    var u := Labels(fs, k, fmt);
    var d := Dedup(u);
    var t := IndexMap(d);
    DedupMembers(u);
    DedupOrder(u);
    IndexMapSpec(d);
    var i, j := IndexOf(d, l), IndexOf(d, l');
    assert t[l] == i && t[l'] == j;
    if i < j {
      assert IndexOf(u, d[i]) < IndexOf(u, d[j]);
    } else if j < i {
      assert IndexOf(u, d[j]) < IndexOf(u, d[i]);
    }
  }

  // ---------------------------------------------------------------------
  // The transformation itself

  /**
   * One pass-two step on the tables, as the loop takes it: the value of a
   * string-typed key is looked up in its key's table (created empty when
   * absent) and, when new, gets the table's current size as its code.
   */
  function VisitTables(ft: FieldTypes, T: StringTables, f: Field, fmt: real -> string): StringTables
  {
    if f.key in ft && ft[f.key] == TString
    then T[f.key := Assign(if f.key in T then T[f.key] else map[], Stringify(f.value, fmt))]
    else T
  }

  /** The string tables after the loop has visited the fields `fs`, one step at a time. */
  function TablesOf(ft: FieldTypes, fs: seq<Field>, fmt: real -> string): StringTables
  {
    if fs == [] then map[] else VisitTables(ft, TablesOf(ft, fs[..|fs| - 1], fmt), fs[|fs| - 1], fmt)
  }

  lemma TablesOfSnoc(ft: FieldTypes, fs: seq<Field>, f: Field, fmt: real -> string)
    ensures TablesOf(ft, fs + [f], fmt) == VisitTables(ft, TablesOf(ft, fs, fmt), f, fmt)
  {
    assert (fs + [f])[..|fs|] == fs;
  }

  /** Key by key, the tables the loop builds are the declared ones. */
  lemma {:induction false} TablesOfAt(ft: FieldTypes, fs: seq<Field>, k: Key, fmt: real -> string)
    ensures k in TablesOf(ft, fs, fmt) <==> k in ft && ft[k] == TString && Occurs(fs, k)
    ensures k in TablesOf(ft, fs, fmt) ==> TablesOf(ft, fs, fmt)[k] == TableFor(fs, k, fmt)
  {
    if fs != [] {
      var n := |fs| - 1;
      var pre, f := fs[..n], fs[n];
      assert fs == pre + [f];
      TablesOfAt(ft, pre, k, fmt);
      OccursSnoc(pre, f, k);
      if f.key == k {
        TableForStep(pre, f, fmt);
        if !Occurs(pre, k) {
          NoLabelsBeforeFirstVisit(pre, k, fmt);
        }
      } else {
        TablesOtherKey(pre, f, k, fmt);
      }
    }
  }

  /**
   * The tables the loop builds are the declared ones: each string-typed
   * key's distinct labels, numbered in first-seen order.
   */
  lemma TablesAgree(ft: FieldTypes, fs: seq<Field>, fmt: real -> string)
    ensures Declared(TablesOf(ft, fs, fmt), ft, fs, fmt)
  {
    forall k ensures
      (k in TablesOf(ft, fs, fmt) <==> k in ft && ft[k] == TString && Occurs(fs, k)) &&
      (k in TablesOf(ft, fs, fmt) ==> TablesOf(ft, fs, fmt)[k] == TableFor(fs, k, fmt))
    {
      TablesOfAt(ft, fs, k, fmt);
    }
  }

  lemma ExtendsTransitive(T: StringTables, T': StringTables, T'': StringTables)
    requires Extends(T, T') && Extends(T', T'')
    ensures Extends(T, T'')
  {
  }

  /** Visiting further fields never changes or drops a code already given. */
  lemma {:induction false} TablesGrow(ft: FieldTypes, fs: seq<Field>, gs: seq<Field>, fmt: real -> string)
    ensures Extends(TablesOf(ft, fs, fmt), TablesOf(ft, fs + gs, fmt))
  {
    if gs == [] {
      assert fs + gs == fs;
    } else {
      var n := |gs| - 1;
      var pre, f := fs + gs[..n], gs[n];
      assert fs + gs == pre + [f];
      TablesGrow(ft, fs, gs[..n], fmt);
      TablesOfSnoc(ft, pre, f, fmt);
      var T := TablesOf(ft, pre, fmt);
      if f.key in ft && ft[f.key] == TString && f.key in T {
        assert TableExtends(T[f.key], Assign(T[f.key], Stringify(f.value, fmt)));
      }
      ExtendsTransitive(TablesOf(ft, fs, fmt), T, TablesOf(ft, fs + gs, fmt));
    }
  }

  /** `keyTypes[key] = fieldTypes[key]` for each visited field in turn, starting from `kt`. */
  function RecordTypes(ft: FieldTypes, kt: FieldTypes, fs: seq<Field>): FieldTypes
  {
    if fs == [] then kt
    else
      var f, before := fs[|fs| - 1], RecordTypes(ft, kt, fs[..|fs| - 1]);
      if f.key in ft then before[f.key := ft[f.key]] else before
  }

  lemma {:induction false} RecordTypesConcat(ft: FieldTypes, kt: FieldTypes, a: seq<Field>, b: seq<Field>)
    ensures RecordTypes(ft, kt, a + b) == RecordTypes(ft, RecordTypes(ft, kt, a), b)
  {
    if b == [] {
      assert a + b == a;
    } else {
      var n := |b| - 1;
      assert (a + b)[..|a + b| - 1] == a + b[..n];
      assert (a + b)[|a + b| - 1] == b[n];
      RecordTypesConcat(ft, kt, a, b[..n]);
    }
  }

  /**
   * The recorded types: every key visited that has a type keeps that type,
   * and any other key keeps its entry in `kt`.
   */
  lemma {:induction false} RecordTypesSpec(ft: FieldTypes, kt: FieldTypes, fs: seq<Field>, k: Key)
    ensures k in RecordTypes(ft, kt, fs) <==> (k in ft && Occurs(fs, k)) || k in kt
    ensures k in RecordTypes(ft, kt, fs) ==>
      RecordTypes(ft, kt, fs)[k] == if k in ft && Occurs(fs, k) then ft[k] else kt[k]
  {
    if fs != [] {
      var n := |fs| - 1;
      RecordTypesSpec(ft, kt, fs[..n], k);
      assert fs == fs[..n] + [fs[n]];
      OccursSnoc(fs[..n], fs[n], k);
    }
  }

  lemma InferTypesSnoc(fs: seq<Field>, r: Record, j: nat)
    requires j < |r|
    ensures InferTypes(fs + r[..j + 1]) == Observe(InferTypes(fs + r[..j]), r[j])
  {
    assert (fs + r[..j + 1])[..|fs + r[..j + 1]| - 1] == fs + r[..j];
  }

  /** Step 1 of `transformDataEnhanced`: the type of every key. */
  method InferFieldTypes(data: seq<Record>) returns (fieldTypes: FieldTypes)
    ensures fieldTypes == InferTypes(Flatten(data))
  {
    fieldTypes := map[];
    for i := 0 to |data|
      invariant fieldTypes == InferTypes(Flatten(data[..i]))
    {
      FlattenStep(data, i);
      assert Flatten(data[..i]) + data[i][..0] == Flatten(data[..i]);
      for j := 0 to |data[i]|
        invariant fieldTypes == InferTypes(Flatten(data[..i]) + data[i][..j])
      {
        var f := data[i][j];
        InferTypesSnoc(Flatten(data[..i]), data[i], j);
        if f.value.Str? {
          fieldTypes := fieldTypes[f.key := TString];
        } else if f.key !in fieldTypes {
          fieldTypes := fieldTypes[f.key := TypeOf(f.value)];
        }
      }
      assert data[i][..|data[i]|] == data[i];
    }
    assert data[..|data|] == data;
  }

  /** Every field of every record in `rs` is covered. */
  predicate CoversAll(ft: FieldTypes, T: StringTables, rs: seq<Record>, fmt: real -> string)
  {
    rs == [] || (CoversAll(ft, T, rs[..|rs| - 1], fmt) && Covers(ft, T, rs[|rs| - 1], fmt))
  }

  /** The numeric copy of every record of `rs`, in order. */
  function EncodeAll(ft: FieldTypes, T: StringTables, rs: seq<Record>, fmt: real -> string): seq<Record>
    requires CoversAll(ft, T, rs, fmt)
  {
    if rs == [] then [] else EncodeAll(ft, T, rs[..|rs| - 1], fmt) + [EncodeRecord(ft, T, rs[|rs| - 1], fmt)]
  }

  /** Read record by record: one numeric copy per input record, each of that record. */
  lemma {:induction false} EncodeAllSpec(ft: FieldTypes, T: StringTables, rs: seq<Record>, fmt: real -> string)
    requires CoversAll(ft, T, rs, fmt)
    ensures |EncodeAll(ft, T, rs, fmt)| == |rs|
    ensures forall p :: 0 <= p < |rs| ==>
      Covers(ft, T, rs[p], fmt) && EncodeAll(ft, T, rs, fmt)[p] == EncodeRecord(ft, T, rs[p], fmt)
  {
    if rs != [] {
      var n := |rs| - 1;
      EncodeAllSpec(ft, T, rs[..n], fmt);
      forall p | 0 <= p < n ensures rs[..n][p] == rs[p] { }
    }
  }

  /** Growing the tables leaves the numeric copies already made as they are. */
  lemma {:induction false} EncodeAllStable(ft: FieldTypes, T: StringTables, T': StringTables,
                                           rs: seq<Record>, fmt: real -> string)
    requires CoversAll(ft, T, rs, fmt) && Extends(T, T')
    ensures CoversAll(ft, T', rs, fmt)
    ensures EncodeAll(ft, T', rs, fmt) == EncodeAll(ft, T, rs, fmt)
  {
    if rs != [] {
      var n := |rs| - 1;
      EncodeAllStable(ft, T, T', rs[..n], fmt);
      EncodeStable(ft, T, T', rs[n], fmt);
    }
  }

  lemma EncodeAllSnoc(ft: FieldTypes, T: StringTables, rs: seq<Record>, i: nat, fmt: real -> string)
    requires i < |rs| && CoversAll(ft, T, rs[..i], fmt) && Covers(ft, T, rs[i], fmt)
    ensures CoversAll(ft, T, rs[..i + 1], fmt)
    ensures EncodeAll(ft, T, rs[..i + 1], fmt) == EncodeAll(ft, T, rs[..i], fmt) + [EncodeRecord(ft, T, rs[i], fmt)]
  {
    assert rs[..i + 1][..i] == rs[..i];
  }

  /** Pass one gives a type to the key of every field of every record. */
  lemma EveryKeyTyped(data: seq<Record>)
    ensures forall i, j :: 0 <= i < |data| && 0 <= j < |data[i]| ==> data[i][j].key in InferTypes(Flatten(data))
    ensures forall p :: 0 <= p < |Flatten(data)| ==> Flatten(data)[p].key in InferTypes(Flatten(data))
  {
    var all := Flatten(data);
    forall i, j | 0 <= i < |data| && 0 <= j < |data[i]| ensures data[i][j].key in InferTypes(all) {
      FlattenHas(data, i, j);
      var p :| 0 <= p < |all| && all[p] == data[i][j];
      InferTypesSpec(all, data[i][j].key);
    }
    forall p | 0 <= p < |all| ensures all[p].key in InferTypes(all) {
      InferTypesSpec(all, all[p].key);
    }
  }

  /** Recording the inferred type of every visited key yields exactly the inferred types. */
  lemma RecordedTypesAreInferred(fs: seq<Field>)
    ensures RecordTypes(InferTypes(fs), map[], fs) == InferTypes(fs)
  {
    var ft := InferTypes(fs);
    var kt := RecordTypes(ft, map[], fs);
    forall k | k in ft || k in kt ensures k in ft && k in kt && kt[k] == ft[k] {
      InferTypesSpec(fs, k);
      RecordTypesSpec(ft, map[], fs, k);
    }
  }

  /**
   * Visiting field `j` of `item` keeps the fields before it covered with
   * unchanged codes, covers the field itself, and appends its image.
   */
  lemma {:induction false} EncodeItemStep(ft: FieldTypes, done: seq<Field>, item: Record, j: nat, fmt: real -> string)
    requires j < |item| && item[j].key in ft
    requires Covers(ft, TablesOf(ft, done + item[..j], fmt), item[..j], fmt)
    ensures var T, T' := TablesOf(ft, done + item[..j], fmt), TablesOf(ft, done + item[..j + 1], fmt);
      T' == VisitTables(ft, T, item[j], fmt) && Covers(ft, T', item[..j + 1], fmt) &&
      EncodeRecord(ft, T', item[..j + 1], fmt) ==
        EncodeRecord(ft, T, item[..j], fmt) + EncodeField(ft, T', item[j], fmt)
  {
    var seen, f := done + item[..j], item[j];
    assert seen + [f] == done + item[..j + 1];
    TablesOfSnoc(ft, seen, f, fmt);
    TablesGrow(ft, seen, [f], fmt);
    var T, T' := TablesOf(ft, seen, fmt), TablesOf(ft, seen + [f], fmt);
    EncodeStable(ft, T, T', item[..j], fmt);
    assert FieldCovered(ft, T', f, fmt);
    EncodeRecordSnoc(ft, T', item[..j], f, fmt);
    assert item[..j + 1] == item[..j] + [f];
  }

  /** Visiting field `j` records its key's type. */
  lemma RecordTypesStep(ft: FieldTypes, kt: FieldTypes, item: Record, j: nat)
    requires j < |item| && item[j].key in ft
    ensures RecordTypes(ft, kt, item[..j + 1]) == RecordTypes(ft, kt, item[..j])[item[j].key := ft[item[j].key]]
  {
    assert item[..j + 1][..j] == item[..j];
  }

  /**
   * The switch on the key's type for one field `f`: a string is coded
   * through its key's table (a new label taking the table's size as its
   * code), a number is copied, a boolean becomes 1 or 0, and a value of any
   * other type is dropped.
   */
  method VisitField(fieldTypes: FieldTypes, stringTables: StringTables, f: Field, fmt: real -> string)
    returns (tables: StringTables, encoded: seq<Field>)
    requires f.key in fieldTypes
    ensures tables == VisitTables(fieldTypes, stringTables, f, fmt)
    ensures FieldCovered(fieldTypes, tables, f, fmt)
    ensures encoded == EncodeField(fieldTypes, tables, f, fmt)
  {
    tables := stringTables;
    var t := fieldTypes[f.key];
    if t == TString {
      var text := Stringify(f.value, fmt);
      var table: StringTable := if f.key in tables then tables[f.key] else map[];
      if text !in table {
        table := table[text := |table|];
      }
      tables := tables[f.key := table];
      encoded := [Field(f.key, Num(table[text] as real))];
    } else if t == TNumber {
      encoded := [f];
    } else if t == TBoolean {
      encoded := [Field(f.key, Num(if Truthy(f.value) then 1.0 else 0.0))];
    } else {
      encoded := [];
    }
  }

  /**
   * The body of step 2 for one record (`item`), after the fields `done`
   * have been visited: the string tables grow by the record's labels, its
   * keys get their types recorded, and its numeric copy is built.
   */
  method EncodeItem(fieldTypes: FieldTypes, stringTables: StringTables, keyTypes: FieldTypes,
                    item: Record, ghost done: seq<Field>, fmt: real -> string)
    returns (tables: StringTables, types: FieldTypes, transformedItem: Record)
    requires forall j :: 0 <= j < |item| ==> item[j].key in fieldTypes
    requires stringTables == TablesOf(fieldTypes, done, fmt)
    ensures tables == TablesOf(fieldTypes, done + item, fmt)
    ensures types == RecordTypes(fieldTypes, keyTypes, item)
    ensures Covers(fieldTypes, tables, item, fmt)
    ensures transformedItem == EncodeRecord(fieldTypes, tables, item, fmt)
  {
    tables, types, transformedItem := stringTables, keyTypes, [];
    assert done + item[..0] == done;
    for j := 0 to |item|
      invariant tables == TablesOf(fieldTypes, done + item[..j], fmt)
      invariant types == RecordTypes(fieldTypes, keyTypes, item[..j])
      invariant Covers(fieldTypes, tables, item[..j], fmt)
      invariant transformedItem == EncodeRecord(fieldTypes, tables, item[..j], fmt)
    {
      var f := item[j];
      EncodeItemStep(fieldTypes, done, item, j, fmt);
      RecordTypesStep(fieldTypes, keyTypes, item, j);
      var encoded;
      tables, encoded := VisitField(fieldTypes, tables, f, fmt);
      transformedItem := transformedItem + encoded;
      types := types[f.key := fieldTypes[f.key]];
    }
    assert item[..|item|] == item;
  }

  /**
   * `transformDataEnhanced`: the key types, the string tables and the
   * numeric copy of the data, one record per input record and in order.
   */
  method TransformDataEnhanced(data: seq<Record>, fmt: real -> string)
    returns (dataNumbered: seq<Record>, stringTables: StringTables, keyTypes: FieldTypes)
    ensures keyTypes == InferTypes(Flatten(data))
    ensures Declared(stringTables, keyTypes, Flatten(data), fmt)
    ensures CoversAll(keyTypes, stringTables, data, fmt)
    ensures dataNumbered == EncodeAll(keyTypes, stringTables, data, fmt)
  {
    // Step 1: the type of each key.
    var fieldTypes := InferFieldTypes(data);
    EveryKeyTyped(data);

    // Step 2: the numeric copy.
    dataNumbered, stringTables, keyTypes := [], map[], map[];
    for i := 0 to |data|
      invariant stringTables == TablesOf(fieldTypes, Flatten(data[..i]), fmt)
      invariant keyTypes == RecordTypes(fieldTypes, map[], Flatten(data[..i]))
      invariant CoversAll(fieldTypes, stringTables, data[..i], fmt)
      invariant dataNumbered == EncodeAll(fieldTypes, stringTables, data[..i], fmt)
    {
      FlattenStep(data, i);
      RecordTypesConcat(fieldTypes, map[], Flatten(data[..i]), data[i]);
      TablesGrow(fieldTypes, Flatten(data[..i]), data[i], fmt);
      ghost var before := stringTables;
      var transformedItem;
      stringTables, keyTypes, transformedItem :=
        EncodeItem(fieldTypes, stringTables, keyTypes, data[i], Flatten(data[..i]), fmt);
      EncodeAllStable(fieldTypes, before, stringTables, data[..i], fmt);
      EncodeAllSnoc(fieldTypes, stringTables, data, i, fmt);
      dataNumbered := dataNumbered + [transformedItem];
    }
    assert data[..|data|] == data;

    RecordedTypesAreInferred(Flatten(data));
    TablesAgree(fieldTypes, Flatten(data), fmt);
  }


  // ---------------------------------------------------------------------
  // Decoding

  /** No two labels of the table share a code. */
  ghost predicate Injective(t: StringTable)
  {
    forall l, l' :: l in t && l' in t && l != l' ==> t[l] != t[l']
  }

  /**
   * `invertedTable[number] || "Unknown"`: the label holding the code; a code
   * no label holds, or one held by the empty label, yields "Unknown".
   */
  ghost function Decode(t: StringTable, code: int): (s: string)
    ensures s == "Unknown" || (s in t && t[s] == code && s != "")
    ensures (forall l :: l in t ==> t[l] != code) ==> s == "Unknown"
    ensures Injective(t) ==> forall l :: l in t && t[l] == code ==> s == if l == "" then "Unknown" else l
  {
    if exists l :: l in t && t[l] == code then
      var l :| l in t && t[l] == code;
      if l == "" then "Unknown" else l
    else "Unknown"
  }

  /**
   * `getStringForKeyAndNumber`; None stands for the TypeError the source
   * raises when the key has no string table.
   */
  ghost function GetStringForKeyAndNumber(key: Key, number: int, stringTables: StringTables): (r: Option<string>)
    ensures r.None? <==> key !in stringTables
    ensures r.Some? ==> r.value == Decode(stringTables[key], number)
  {
    if key in stringTables then Some(Decode(stringTables[key], number)) else None
  }

  /**
   * Decoding the code the encoder gave a label returns that label (the
   * empty label reads back as "Unknown"); a code outside 0 .. n-1 decodes
   * to "Unknown".
   */
  lemma DecodeRoundTrip(T: StringTables, ft: FieldTypes, fs: seq<Field>, k: Key, fmt: real -> string,
                        l: string, code: int)
    requires Declared(T, ft, fs, fmt) && k in T
    ensures l in T[k] ==> GetStringForKeyAndNumber(k, T[k][l], T) == Some(if l == "" then "Unknown" else l)
    ensures code < 0 || code >= |T[k]| ==> GetStringForKeyAndNumber(k, code, T) == Some("Unknown")
  {
    TableIsDense(fs, k, fmt);
  }
}

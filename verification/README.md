# Brushable parallel coordinates: column encoding and brushing, in Dafny

This project models the two computing parts of the brushable-parallel-coordinates widgets. The d3 rendering around them is not modelled.

1. **Column typing and categorical encoding** (`transformDataEnhanced` and `getStringForKeyAndNumber` in `src/ParallelCoordPlot.js`).
   - Pass one gives each key a type. The type is "string" when any record holds a string for the key. Otherwise it is the `typeof` of the first value seen.
   - Pass two builds the numeric copy of the data:
     - a value of a string-typed key becomes a dense code, numbered in first-seen order;
     - numbers are copied;
     - booleans become 1 or 0;
     - keys of any other type are dropped.
   - Decoding turns a code back into its label, and gives "Unknown" for a missing or empty label.
   - The categorical variant (`src/tryingToGoTowardsAlsoPlottingWithDataINsteadOfNumerical.js`) has its own numerical/categorical classifier and a first-occurrence de-duplication of category values.
2. **Brush sets and the highlight test**, shared by all four chart variants.
   - A brush event with a selection stores the entry for its key. A cleared brush deletes that entry.
   - A record is highlighted iff it lies in the range of every entry.
   - The two widgets in `src/` tolerate reversed bounds (swap-tolerant).
   - The notebook chart (`c8f3c13694a25451@326.js`) and the script `src/parallelCoord.js` use the strict test `min <= v && v <= max`. They collect the passing records in drawing order, which is the data stably sorted by the colour column.
   - Alongside the brushes the model also covers:
     - the value filter behind the dropdown menu;
     - the reset button;
     - the choice of brushable columns;
     - the in-place normalisation of missing cells.

The modules follow the files:

| module | file | contents |
|---|---|---|
| `Js` | `js.dfy` | the JavaScript values, `typeof`, `Number`, `String`, `Object.keys`, property access, `filter` and `Array.from(new Set(...))` |
| `Brushes` | `brushes.dfy` | the brush map and both range tests |
| `Encoding` | `encoding.dfy` | `transformDataEnhanced` and its inverse |
| `ParallelCoordPlot` | `parallel_coord_plot.dfy` | the main widget, as a class |
| `CategoricalPlot` | `categorical_plot.dfy` | the categorical variant |
| `Notebook` | `notebook.dfy` | the notebook chart |
| `ParallelCoord` | `parallel_coord.dfy` | the stand-alone script |

How the model represents the source:
- A record is the sequence of its own properties in `Object.keys` order. A missing property reads as `None` (undefined).
- `Number(text)` and `String(number)` are floating-point conversions. They are the parameters `parse` (None stands for NaN) and `fmt`.
- The encoder is specified declaratively. The table of a key is the list of its distinct labels in first-seen order, numbered from 0. The method `TransformDataEnhanced` keeps the source's two nested passes and is proved to compute exactly that.

## Model

| member | source | states |
|---|---|---|
| Js.TypeOf | src/ParallelCoordPlot.js:28-33 | `typeof` is "string" exactly for strings, "boolean" exactly for booleans, "object" exactly for null |
| Js.ToNumber | src/tryingToGoTowardsAlsoPlottingWithDataINsteadOfNumerical.js:15 | `Number(cell)`: undefined and NaN give NaN, null gives 0, a number gives itself, `true`/`false` give 1/0, and a text gives its `parse` reading |
| Js.Stringify | src/ParallelCoordPlot.js:44 | `String(v)`: a text is its own label, a number's label is its `fmt` text, a boolean's label is "true" or "false" according to its value, null's label is "null" and NaN's is "NaN", so an empty typed-CSV cell under a text column gets a label and code of its own |
| Js.LooseEqString | src/ParallelCoordPlot.js:436 | `cell == s`: undefined and null equal no text, a text cell equals only the same text, and a number or boolean cell equals `s` iff `s` reads as the same number |
| Js.KeysOf | src/ParallelCoordPlot.js:103 | `Object.keys(r)` lists every property of the record, in order |
| Js.Get | src/ParallelCoordPlot.js:414 | `d[key]` is undefined iff no property has that key; otherwise it is the value of such a property |
| Js.SetField | src/parallelCoord.js:8 | `d[key] = v` makes `d[key]` read `v` and leaves every other key as it was; it adds a property only when the key was absent |
| Js.FilterMultiset | src/ParallelCoordPlot.js:436 | `filter` keeps every matching record with its multiplicity and drops every other |
| Js.FilterConcat | src/ParallelCoordPlot.js:436 | `filter` distributes over concatenation, so the kept records stay in their order |
| Js.FilterDistinct | src/parallelCoord.js:2 | filtering a list without repetition leaves none |
| Js.DedupMembers | src/tryingToGoTowardsAlsoPlottingWithDataINsteadOfNumerical.js:85 | `Array.from(new Set(xs))` holds each value of `xs` exactly once and nothing else |
| Js.DedupOrder | src/tryingToGoTowardsAlsoPlottingWithDataINsteadOfNumerical.js:85 | `Array.from(new Set(xs))` lists the values in the order of their first occurrence |
| Brushes.Within | src/ParallelCoordPlot.js:413-417 | a value passes an entry only if it is a number lying between the entry's first two elements; the strict test passes only on ordered bounds |
| Brushes.Passes | src/ParallelCoordPlot.js:412-418 | `every` over the brush entries: it holds with no brush, and a passing record holds a value for every brushed key, whose entry has two bounds |
| Brushes.Update | src/ParallelCoordPlot.js:380-401 | a selection stores its entry under the key, a cleared brush deletes it, and every other entry is unchanged |
| Brushes.SwapTolerantIsInterval | src/ParallelCoordPlot.js:415-416 | the swap-tolerant test on `[a, c]` is the closed interval between the bounds, whichever is larger, and is symmetric in them |
| Brushes.FirstTwoBoundsOnly | src/ParallelCoordPlot.js:412-413 | both tests read an entry as `[min, max]`: an entry of two or more elements passes exactly the values its first two pass, so later elements never matter |
| Brushes.StrictVersusSwapTolerant | src/parallelCoord.js:94 | the strict test agrees with the swap-tolerant one on ordered bounds and rejects every value when the bounds are reversed |
| Brushes.NoValueOrShortEntryFails | src/ParallelCoordPlot.js:413-417 | an undefined or NaN cell fails every entry, and every cell fails an entry with fewer than two elements |
| Brushes.PassesAfterSet | src/ParallelCoordPlot.js:412-418 | after a selection on `key`, a record passes iff it passes every other entry and lies in the new one |
| Brushes.PassesAfterClear | src/ParallelCoordPlot.js:399-400 | after a brush is cleared, a record passes iff it passes every remaining entry |
| Brushes.BrushMonotone | src/ParallelCoordPlot.js:380-418 | clearing a brush never hides a record, and adding an entry for a new key never reveals one |
| Encoding.InferTypesSpec | src/ParallelCoordPlot.js:25-35 | a key gets a type iff some record holds it; the type is "string" iff some record holds a string for it, otherwise the `typeof` of its first value, whatever non-string values follow |
| Encoding.EveryKeyTyped | src/ParallelCoordPlot.js:25-35 | pass one types the key of every field of every record |
| Encoding.InferFieldTypes | src/ParallelCoordPlot.js:24-35 | the nested loops of pass one compute exactly the types `InferTypesSpec` describes |
| Encoding.LabelsSpec | src/ParallelCoordPlot.js:44 | the labels of a key are exactly `String(v)` of the values held for it, so `1` and `"1"` share a label |
| Encoding.IndexMapSpec | src/ParallelCoordPlot.js:48-50 | numbering distinct labels by position gives a table holding exactly those labels, with codes 0 .. n-1 |
| Encoding.TableForStep | src/ParallelCoordPlot.js:45-50 | visiting one more value keeps the key's table when the label is known, and otherwise adds the label with the table's size as its code |
| Encoding.TablesOfAt | src/ParallelCoordPlot.js:43-51 | key by key, the tables pass two builds exist for exactly the string-typed keys seen, and each is that key's first-seen numbering |
| Encoding.TablesAgree | src/ParallelCoordPlot.js:43-51 | the tables pass two builds are the declared ones (`Declared`) |
| Encoding.TableIsDense | src/ParallelCoordPlot.js:44-51 | a key's table holds exactly its labels; the codes are exactly 0 .. n-1, and distinct labels get distinct codes |
| Encoding.TableFirstSeenOrder | src/ParallelCoordPlot.js:48-50 | one label's code is below another's iff it was first seen earlier |
| Encoding.TablesGrow | src/ParallelCoordPlot.js:45-50 | tables only grow: a code, once given, never changes |
| Encoding.EncodeStable | src/ParallelCoordPlot.js:45-51 | growing the tables leaves a record's numeric copy as it was |
| Encoding.EncodeRecordGet | src/ParallelCoordPlot.js:43-56 | in the numeric copy, a string-typed value reads as its code, a number as itself and a boolean as 1 or 0; a key of any other type, or an absent key, reads as undefined |
| Encoding.EncodeAllSpec | src/ParallelCoordPlot.js:38-61 | the numeric copy has one record per input record, in order, each the copy of that record |
| Encoding.RecordedTypesAreInferred | src/ParallelCoordPlot.js:57 | `keyTypes` ends up equal to the types of pass one, including the types of keys that are dropped from the copy |
| Encoding.VisitField | src/ParallelCoordPlot.js:43-56 | the switch on one field's type updates the tables as pass two does, gives the field a code when it is a string, and yields its image |
| Encoding.EncodeItem | src/ParallelCoordPlot.js:39-60 | the inner loop over one record's keys extends the tables by that record, records its keys' types and builds its numeric copy |
| Encoding.TransformDataEnhanced | src/ParallelCoordPlot.js:18-64 | `transformDataEnhanced` returns the inferred types, the declared first-seen tables and the numeric copy of every record, in order |
| Encoding.Decode | src/ParallelCoordPlot.js:111-116 | the inverted table yields the label holding the code, or "Unknown" when no label holds it or the label is empty |
| Encoding.GetStringForKeyAndNumber | src/ParallelCoordPlot.js:110-117 | the lookup fails iff the key has no table, and otherwise decodes the code with that key's table |
| Encoding.DecodeRoundTrip | src/ParallelCoordPlot.js:110-117 | decoding the code a label was given returns that label ("Unknown" for the empty label); a code outside 0 .. n-1 gives "Unknown" |
| ParallelCoordPlot.GetPositionForKey | src/ParallelCoordPlot.js:155-157 | the first axis sits at 220, and no axis of a listed key sits left of it |
| ParallelCoordPlot.AxesInKeyOrder | src/ParallelCoordPlot.js:155-157 | axes are laid out in key order, 100 apart, so no two keys share a position |
| ParallelCoordPlot.LineOpacity | src/ParallelCoordPlot.js:405-421 | a path is drawn at 0.8 iff it has a datum that passes the swap-tolerant test for every brush, and at 0.1 otherwise |
| ParallelCoordPlot.NoBrushNoDimming | src/ParallelCoordPlot.js:412-420 | with no brush, every line with a datum is drawn at 0.8 |
| ParallelCoordPlot.EncodedKeys | src/ParallelCoordPlot.js:103 | the axes (`Object.keys` of a numeric record) are exactly the record's keys whose type is not "object" |
| ParallelCoordPlot.MenuChoiceKeepsLabel | src/ParallelCoordPlot.js:434-436 | choosing the code of label `l` from a string axis's menu keeps exactly the records whose value for that key reads `l` |
| ParallelCoordPlot.Plot.constructor | src/ParallelCoordPlot.js:89-98 | the widget keeps the encoder's types, tables and numeric copy, draws that copy, takes its axes from the first numeric record and starts with no brush |
| ParallelCoordPlot.Plot.Brushed | src/ParallelCoordPlot.js:380-403 | `brushed` updates only the given key's entry and leaves the data as they are |
| ParallelCoordPlot.Plot.UpdateData | src/ParallelCoordPlot.js:434-445 | `updateData` keeps, in order, the drawn records whose value loosely equals the chosen one, and empties the brush map |
| ParallelCoordPlot.Plot.Reset | src/ParallelCoordPlot.js:452-457 | the reset button draws the original numeric copy again and empties the brush map |
| ParallelCoordPlot.BandEntryReadAsRange | src/ParallelCoordPlot.js:412-418 | as written, one selected band hides its own line, and a third selected band is ignored (see Findings) |
| ParallelCoordPlot.BandLineOpacity | src/ParallelCoordPlot.js:405-421 | with band entries read as sets of codes, a path is drawn at 0.8 iff it has a datum inside every brush, and at 0.1 otherwise |
| ParallelCoordPlot.BandSelectionKeepsSelectedCodes | src/ParallelCoordPlot.js:383-393 | with band entries read as sets, brushing bands on a string axis keeps a line iff its code is among them and it passes every other brush |
| CategoricalPlot.ClassifyKey | src/tryingToGoTowardsAlsoPlottingWithDataINsteadOfNumerical.js:11-20 | the scan with early `break` finds a key numerical iff every record's cell is null or converts to a number |
| CategoricalPlot.ClassifyKeys | src/tryingToGoTowardsAlsoPlottingWithDataINsteadOfNumerical.js:10-21 | `keyTypes` holds exactly the listed keys, each classified by that scan |
| CategoricalPlot.Column | src/tryingToGoTowardsAlsoPlottingWithDataINsteadOfNumerical.js:85 | `data.map(d => d[key])` has one cell per record, in order |
| CategoricalPlot.Categories | src/tryingToGoTowardsAlsoPlottingWithDataINsteadOfNumerical.js:85 | the band domain of a categorical axis holds each value of the column exactly once and nothing else |
| CategoricalPlot.CategoriesInFirstSeenOrder | src/tryingToGoTowardsAlsoPlottingWithDataINsteadOfNumerical.js:85 | the bands follow the order of the values' first occurrences |
| CategoricalPlot.LineOpacity | src/tryingToGoTowardsAlsoPlottingWithDataINsteadOfNumerical.js:207-226 | a path is drawn at 0.8 when its datum passes every brush, at 0.03 when it fails one, and at 0.1 when it has no datum |
| CategoricalPlot.Plot.constructor | src/tryingToGoTowardsAlsoPlottingWithDataINsteadOfNumerical.js:5-21 | the axes are the first record's keys, each classified, with no brush |
| CategoricalPlot.Plot.Brushed | src/tryingToGoTowardsAlsoPlottingWithDataINsteadOfNumerical.js:196-205 | a selection on a numerical axis stores its entry and a cleared brush deletes it; a selection on a categorical axis fails with no change, so only numerical axes ever hold an entry |
| Notebook.BrushableKeys | c8f3c13694a25451@326.js:127-129 | the brushable keys are every column but the first, in column order |
| Notebook.Insert | c8f3c13694a25451@326.js:62 | inserting one record lengthens the sorted list by one and puts either that record or the previous last one at the end |
| Notebook.InsertAscending | c8f3c13694a25451@326.js:62 | inserting into an ascending list keeps it ascending |
| Notebook.InsertMultiset | c8f3c13694a25451@326.js:62 | inserting adds exactly that record |
| Notebook.InsertStable | c8f3c13694a25451@326.js:62 | inserting keeps the records that share a sort key in their order |
| Notebook.DrawOrderAscending | c8f3c13694a25451@326.js:62 | the drawing order is ascending in the colour column |
| Notebook.DrawOrder | c8f3c13694a25451@326.js:62 | the drawing order is a permutation of the data |
| Notebook.DrawOrderStable | c8f3c13694a25451@326.js:62 | the sort is stable: records with equal keys keep their relative order |
| Notebook.AscendingSpec | c8f3c13694a25451@326.js:62 | in an ascending list, any record drawn earlier has a key that is not greater |
| Notebook.Chart.constructor | c8f3c13694a25451@326.js:57-63 | the paths are bound to the data in drawing order, with no selection |
| Notebook.Chart.Brushed | c8f3c13694a25451@326.js:104-117 | a null selection deletes the key's entry and any other selection sets it; `selected` is exactly the records passing the strict test for every entry, in drawing order (the handler of src/parallelCoord.js:89-102 is the same) |
| Notebook.SelectedExactlyActive | c8f3c13694a25451@326.js:107-114 | `selected` holds every active record with its multiplicity and no other; with no selection it is the whole drawing |
| ParallelCoord.ChartKeys | src/parallelCoord.js:2 | the axes are the first row's keys other than "name" and "year" |
| ParallelCoord.ChartKeysDistinct | src/parallelCoord.js:2 | no axis is listed twice |
| ParallelCoord.NormaliseRecord | src/parallelCoord.js:7-9 | normalising a row never shortens it and lengthens it by at most one property per axis key; `NormaliseKeepsOthers` and `NormaliseSetsKeys` state what each cell then holds |
| ParallelCoord.NormaliseCell | src/parallelCoord.js:8 | a cell becomes null iff it is the empty text; otherwise it becomes a number (possibly NaN) with the same numeric reading |
| ParallelCoord.NormaliseKeepsOthers | src/parallelCoord.js:6-10 | a column that is not normalised, such as "name" or "year", keeps its cell |
| ParallelCoord.NormaliseSetsKeys | src/parallelCoord.js:6-10 | every axis column holds its normalised cell, including one the row did not have |
| ParallelCoord.NormaliseRow | src/parallelCoord.js:7-9 | the inner loop normalises one row in place and changes no other row |
| ParallelCoord.NormaliseMissing | src/parallelCoord.js:6-10 | every row of the array is normalised in place |
| ParallelCoord.Setup | src/parallelCoord.js:1-10 | the script picks the axes from the first row, normalises every row, and draws them by "year" with no selection |
| ParallelCoord.YearUntouched | src/parallelCoord.js:6-10 | normalising a row does not change its "year" sort key |

## Left out

- Loading (`d3.csv`, `d3.json`, `FileAttachment`) is I/O. The model starts from the records in memory; the `csvPath` and `jsonPath` branches run the same transformation after loading.
- `Number(text)`, unary `+` and `String(number)` are floating-point conversions. They are the parameters `parse` and `fmt`. Infinity, -0 and the `Date` cells of `d3.autoType` are not distinguished.
- SVG, axes, scales, colours, tooltips, transitions, line generators, dropdown markup, `raise()` and the chart's `input` event are d3/DOM work.
- `scale.invert` and the band-overlap pixel test (src/ParallelCoordPlot.js:385-396) are not modelled. The brush handlers receive the entry they store.
- The `in` operator sees inherited properties such as "constructor" (src/ParallelCoordPlot.js:48). Tables are plain maps, so that case and keys such as `__proto__` are not modelled.
- Encoding.InferTypesSpec: a column named after an inherited `Object.prototype` property ("constructor", "toString", "valueOf", "hasOwnProperty", ...) is not modelled. In the source, `fieldTypes`, `stringTables` and `keyTypes` are plain objects, so their lookups see the inherited function. `!fieldTypes[key]` (src/ParallelCoordPlot.js:30) is then false and a non-string column never gets a type. No branch of :43-56 matches it, so the source drops that column from the numeric copy and gives it no axis; `keyTypes[key] = fieldTypes[key]` (:57) records the inherited function. For a string column of that name, `!stringTables[key]` (:45) is false and the inherited function is used as its table. The model types such a key like any other, and `EncodeRecordGet` copies or codes its value.
- `Object.keys` lists integer-like keys first. Records keep their own field order. Tables are maps, so the menu's option order is not modelled.
- Encoding.GetStringForKeyAndNumber: returns None where the source throws a TypeError (no table for the key). It is a ghost function. It takes the code as an integer, where the source takes the menu's text.
- Encoding.Decode: picks a label by choice when two labels share a code; the source takes the last in key order. Tables built by the encoder never share codes (`TableIsDense`).
- A cell holding an object, an array or an explicit `undefined` is not modelled: `Value` has none of them. The in-memory and JSON inputs of `transformDataEnhanced` can hold them. Their `typeof` is "object" or "undefined" (src/ParallelCoordPlot.js:32), and under a string-typed key their `String()` text would become a table label (src/ParallelCoordPlot.js:44).
- ParallelCoord.Setup: requires a non-empty array, because on an empty CSV the script throws a TypeError at `Object.keys(data[0])` (src/parallelCoord.js:2).
- ParallelCoordPlot.Plot.constructor: requires non-empty data, because the source fails reading `data[0]`.
- CategoricalPlot.Plot.constructor: requires non-empty data for the same reason.
- CategoricalPlot.Plot.Brushed: the TypeError a band scale raises is reported as `ok == false`.
- Notebook.DrawOrder: ranks records by the numeric reading of the colour column.
  - `d3.ascending` compares two strings as text. The two agree for years written with the same number of digits.
  - A null, undefined or NaN key makes `d3.ascending` return NaN, which leaves the order implementation-defined. The model ranks such records first. A null cell (an empty cell of the typed CSV) is ranked with them, not as 0.
- `updateData` also computes a `stringInMenu` that is never used, and re-renders. Neither is modelled.
- The reset button also recolours. That is not modelled.
- Data and the original copy are values, so aliasing between `this.data` and `this.originalData` is not modelled. Neither object is mutated, so nothing observable is lost.
- Log-scale axes and single-valued-column detection do not appear in these files.

## Findings

| source | as written | input that shows it | evidently intended | confidence | as-written member | corrected member |
|---|---|---|---|---|---|---|
| src/ParallelCoordPlot.js:412-418 | on a string axis the brush stores the list of selected band codes (line 393), and `updateLines` destructures it as `[min, max]` | brush one band, code 0: the entry is `[0]`, `max` is undefined and the line with code 0 is dimmed; brush bands 0, 1, 2: the line with code 2 is dimmed | a line stays highlighted iff its code is one of the selected bands | high (not executed) | ParallelCoordPlot.BandEntryReadAsRange | ParallelCoordPlot.BandSelectionKeepsSelectedCodes |

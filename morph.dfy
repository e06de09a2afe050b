/**
 * The data-reshaping script morph.py: `get_data` gathers, for one widget,
 * the properties and controls that the data rows list for it, and `compile`
 * builds one entry per widget row with those lists, adding the row's own
 * controls that are new and are not "Customizing" entries.
 *
 * A row is a JSON object; each key the script reads is an optional field
 * here. Reading a key the row lacks, or the first name of an empty name
 * list, raises in the script; the model answers None there.
 */
module Morph {
  import opened Wrappers
  import opened Text

  datatype Row = Row(
    prop: Option<string>,              // "prop"
    options: Option<seq<string>>,      // "options": the widgets the property applies to
    control: Option<string>,           // "control"
    widgets: Option<seq<string>>,      // "widgets": the widgets that have the control
    name: Option<seq<string>>,         // "name": the widget row's names
    controls: Option<seq<string>>      // "controls": the widget row's own controls
  )

  /** `{"props": props, "controls": controls}`. */
  datatype Info = Info(props: seq<string>, controls: seq<string>)

  /** Items holding this text are not copied from a widget row. */
  const Customizing: string := "Customizing"

  /** The keys `get_data` reads are there: "options" with "prop", "widgets" with "control". */
  predicate Readable(row: Row) {
    (row.prop.Some? ==> row.options.Some?) && (row.control.Some? ==> row.widgets.Some?)
  }

  /** `widget in row[key]` for a key the row has. */
  predicate Lists(names: Option<seq<string>>, widget: string) {
    names.Some? && widget in names.value
  }

  /** One pass of `get_data`'s loop over `row`, from the lists so far. */
  function RowData(info: Info, row: Row, widget: string): Option<Info> {
    if !Readable(row) then None
    else
      var props := if row.prop.Some? && widget in row.options.value then info.props + [row.prop.value] else info.props;
      var controls := if row.control.Some? && widget in row.widgets.value then info.controls + [row.control.value] else info.controls;
      Some(Info(props, controls))
  }

  /** `get_data(a, widget)`: the loop over the rows, None where it raises KeyError. */
  function DataFor(a: seq<Row>, widget: string): (r: Option<Info>)
    ensures r.Some? ==> |r.value.props| <= |a| && |r.value.controls| <= |a|
    decreases |a|
  {
    if a == [] then Some(Info([], []))
    else
      match DataFor(a[..|a| - 1], widget)
      case None => None
      case Some(info) => RowData(info, a[|a| - 1], widget)
  }

  /** The lists of two runs of rows, one after the other. */
  function Append(x: Option<Info>, y: Option<Info>): Option<Info> {
    if x.Some? && y.Some? then Some(Info(x.value.props + y.value.props, x.value.controls + y.value.controls))
    else None
  }

  /**
   * `get_data` reads the rows in order: the lists for `a + b` are those for
   * `a` followed by those for `b`, and either half raising makes it raise.
   */
  lemma {:induction false} DataForAppend(a: seq<Row>, b: seq<Row>, widget: string)
    ensures DataFor(a + b, widget) == Append(DataFor(a, widget), DataFor(b, widget))
    decreases |b|
  {
    if b == [] {
      assert a + b == a;
      match DataFor(a, widget)
      case None =>
      case Some(i) =>
        assert i.props + [] == i.props && i.controls + [] == i.controls;
    } else {
      var init := b[..|b| - 1];
      var last := b[|b| - 1];
      assert (a + b)[..|a + b| - 1] == a + init;
      assert (a + b)[|a + b| - 1] == last;
      DataForAppend(a, init, widget);
      if DataFor(a, widget).Some? && DataFor(init, widget).Some? && Readable(last) {
        var x, y := DataFor(a, widget).value, DataFor(init, widget).value;
        var p := if last.prop.Some? && widget in last.options.value then [last.prop.value] else [];
        var c := if last.control.Some? && widget in last.widgets.value then [last.control.value] else [];
        assert x.props + (y.props + p) == x.props + y.props + p;
        assert x.controls + (y.controls + c) == x.controls + y.controls + c;
        assert y.props + [] == y.props && y.controls + [] == y.controls;
        assert x.props + y.props + [] == x.props + y.props && x.controls + y.controls + [] == x.controls + y.controls;
      }
    }
  }

  /** The result for one row on its own. */
  lemma DataForOne(row: Row, widget: string)
    ensures DataFor([row], widget) == RowData(Info([], []), row, widget)
  {
    assert [row][..0] == [];
  }

  /** `get_data` raises exactly when some row lacks a key it reads. */
  lemma {:induction false} DataForDefined(a: seq<Row>, widget: string)
    ensures DataFor(a, widget).Some? <==> forall i :: 0 <= i < |a| ==> Readable(a[i])
    decreases |a|
  {
    if a != [] {
      var init := a[..|a| - 1];
      DataForDefined(init, widget);
      assert forall i :: 0 <= i < |init| ==> init[i] == a[i];
    }
  }

  /** The properties are those of the rows with "prop" whose "options" hold the widget. */
  lemma {:induction false} DataForProps(a: seq<Row>, widget: string, x: string)
    requires DataFor(a, widget).Some?
    ensures x in DataFor(a, widget).value.props <==>
      exists i :: 0 <= i < |a| && a[i].prop == Some(x) && Lists(a[i].options, widget)
    decreases |a|
  {
    if a != [] {
      var init := a[..|a| - 1];
      var last := a[|a| - 1];
      DataForProps(init, widget, x);
      var added := if last.prop.Some? && widget in last.options.value then [last.prop.value] else [];
      assert DataFor(a, widget).value.props == DataFor(init, widget).value.props + added;
      assert forall i :: 0 <= i < |init| ==> init[i] == a[i];
    }
  }

  /** The controls are those of the rows with "control" whose "widgets" hold the widget. */
  lemma {:induction false} DataForControls(a: seq<Row>, widget: string, x: string)
    requires DataFor(a, widget).Some?
    ensures x in DataFor(a, widget).value.controls <==>
      exists i :: 0 <= i < |a| && a[i].control == Some(x) && Lists(a[i].widgets, widget)
    decreases |a|
  {
    if a != [] {
      var init := a[..|a| - 1];
      var last := a[|a| - 1];
      DataForControls(init, widget, x);
      var added := if last.control.Some? && widget in last.widgets.value then [last.control.value] else [];
      assert DataFor(a, widget).value.controls == DataFor(init, widget).value.controls + added;
      assert forall i :: 0 <= i < |init| ==> init[i] == a[i];
    }
  }

  /** `get_data(a, widget)`, appending to `props` and `controls` as the loop does. */
  method GetData(a: seq<Row>, widget: string) returns (r: Option<Info>)
    ensures r == DataFor(a, widget)
  {
    var props: seq<string> := [];
    var controls: seq<string> := [];
    for i := 0 to |a|
      invariant DataFor(a[..i], widget) == Some(Info(props, controls))
    {
      assert a[..i + 1][..i] == a[..i];
      var row := a[i];
      if row.prop.Some? {
        if row.options.None? {
          DataForDefined(a, widget);
          return None;
        }
        if widget in row.options.value {
          props := props + [row.prop.value];
        }
      }
      if row.control.Some? {
        if row.widgets.None? {
          DataForDefined(a, widget);
          return None;
        }
        if widget in row.widgets.value {
          controls := controls + [row.control.value];
        }
      }
    }
    assert a[..|a|] == a;
    return Some(Info(props, controls));
  }

  /** `for item in items: if item not in cs and "Customizing" not in item: cs.append(item)`. */
  function Merged(cs: seq<string>, items: seq<string>): (r: seq<string>)
    ensures |cs| <= |r| <= |cs| + |items|
    decreases |items|
  {
    if items == [] then cs
    else
      var m := Merged(cs, items[..|items| - 1]);
      var item := items[|items| - 1];
      if item !in m && !IsSubstring(Customizing, item) then m + [item] else m
  }

  /** No item occurs twice. */
  predicate NoDuplicates(s: seq<string>) {
    forall i, j :: 0 <= i < j < |s| ==> s[i] != s[j]
  }

  /**
   * The merge keeps the given controls as a prefix, adds exactly the items
   * without "Customizing" that are new, and never adds one twice.
   */
  lemma {:induction false} MergedMeaning(cs: seq<string>, items: seq<string>, x: string)
    ensures |cs| <= |Merged(cs, items)| && Merged(cs, items)[..|cs|] == cs
    ensures x in Merged(cs, items) <==> x in cs || (x in items && !IsSubstring(Customizing, x))
    ensures NoDuplicates(cs) ==> NoDuplicates(Merged(cs, items))
    decreases |items|
  {
    if items != [] {
      var init := items[..|items| - 1];
      var m := Merged(cs, init);
      MergedMeaning(cs, init, x);
      var item := items[|items| - 1];
      assert items == init + [item];
      if item !in m && !IsSubstring(Customizing, item) {
        assert (m + [item])[..|cs|] == m[..|cs|];
        if x == item {
          MergedMeaning(cs, init, item);
        }
      } else if x == item && !IsSubstring(Customizing, x) {
        MergedMeaning(cs, init, item);
      }
    }
  }

  /** The inner loop of `compile`, appending to the control list in place. */
  method MergeControls(cs: seq<string>, items: seq<string>) returns (r: seq<string>)
    ensures r == Merged(cs, items)
  {
    r := cs;
    for j := 0 to |items|
      invariant r == Merged(cs, items[..j])
    {
      assert items[..j + 1][..j] == items[..j];
      var item := items[j];
      if item !in r && !IsSubstring(Customizing, item) {
        r := r + [item];
      }
    }
    assert items[..|items|] == items;
  }

  /** One pass of `compile`'s loop over `row` with every row `a` at hand. */
  function CompileRow(a: seq<Row>, acc: seq<(string, Info)>, row: Row): (r: Option<seq<(string, Info)>>)
    ensures r.Some? ==> |acc| <= |r.value| <= |acc| + 1
  {
    if row.name.None? then Some(acc)
    else if row.name.value == [] then None
    else
      var widget := row.name.value[0];
      match DataFor(a, widget)
      case None => None
      case Some(info) =>
        if row.controls.None? then None
        else Some(acc + [(widget, Info(info.props, Merged(info.controls, row.controls.value)))])
  }

  /** `compile`'s loop over the first rows `rows` of `a`. */
  function CompileRows(a: seq<Row>, rows: seq<Row>): (r: Option<seq<(string, Info)>>)
    ensures r.Some? ==> |r.value| <= |rows|
    decreases |rows|
  {
    if rows == [] then Some([])
    else
      match CompileRows(a, rows[..|rows| - 1])
      case None => None
      case Some(acc) => CompileRow(a, acc, rows[|rows| - 1])
  }

  /** `compile(a)`: one `{widget: info}` entry per widget row, None where it raises. */
  function Compiled(a: seq<Row>): (r: Option<seq<(string, Info)>>)
    ensures r.Some? ==> |r.value| <= |a|
  {
    CompileRows(a, a)
  }

  /** Once `compile` has raised on the first `k` rows, it raises on all of them. */
  lemma {:induction false} CompileRowsStuck(a: seq<Row>, rows: seq<Row>, k: nat)
    requires k <= |rows| && CompileRows(a, rows[..k]).None?
    ensures CompileRows(a, rows).None?
    decreases |rows|
  {
    if k == |rows| {
      assert rows[..k] == rows;
    } else {
      var init := rows[..|rows| - 1];
      assert init[..k] == rows[..k];
      CompileRowsStuck(a, init, k);
    }
  }

  /** The first names of the rows that have "name", in row order. */
  function Names(rows: seq<Row>): seq<string>
    decreases |rows|
  {
    if rows == [] then []
    else
      var last := rows[|rows| - 1];
      Names(rows[..|rows| - 1]) + if last.name.Some? && last.name.value != [] then [last.name.value[0]] else []
  }

  /** The rows that have a non-empty "name", in row order: the rows that yield an entry. */
  function NamedRows(rows: seq<Row>): (named: seq<Row>)
    ensures |named| == |Names(rows)|
    ensures forall i :: 0 <= i < |named| ==>
      named[i].name.Some? && named[i].name.value != [] && named[i].name.value[0] == Names(rows)[i]
    decreases |rows|
  {
    if rows == [] then []
    else
      var last := rows[|rows| - 1];
      NamedRows(rows[..|rows| - 1]) + if last.name.Some? && last.name.value != [] then [last] else []
  }

  /**
   * What one entry of `compile` holds for the row `row` that produced it:
   * `get_data`'s properties for the widget, and `get_data`'s controls merged
   * with the row's own "controls".
   */
  predicate EntryFor(a: seq<Row>, e: (string, Info), row: Row) {
    var data := DataFor(a, e.0);
    data.Some? && row.controls.Some?
    && e.1 == Info(data.value.props, Merged(data.value.controls, row.controls.value))
  }

  /**
   * `compile` yields one entry per widget row, keyed by the row's first name,
   * in row order; each entry has `get_data`'s properties for that widget and
   * `get_data`'s controls merged with that row's "controls".
   */
  lemma {:induction false} CompileRowsShape(a: seq<Row>, rows: seq<Row>)
    requires CompileRows(a, rows).Some?
    ensures var es := CompileRows(a, rows).value;
      |es| == |Names(rows)|
      && (forall i :: 0 <= i < |es| ==> es[i].0 == Names(rows)[i])
      && (forall i :: 0 <= i < |es| ==> EntryFor(a, es[i], NamedRows(rows)[i]))
    decreases |rows|
  {
    if rows != [] {
      var init := rows[..|rows| - 1];
      var last := rows[|rows| - 1];
      CompileRowsShape(a, init);
    }
  }

  /** The entries of `compile(a)`. */
  lemma CompiledShape(a: seq<Row>)
    requires Compiled(a).Some?
    ensures |Compiled(a).value| == |Names(a)|
    ensures forall i :: 0 <= i < |Compiled(a).value| ==>
      Compiled(a).value[i].0 == Names(a)[i] && EntryFor(a, Compiled(a).value[i], NamedRows(a)[i])
  {
    CompileRowsShape(a, a);
  }

  /**
   * The controls of entry `i` of `compile(a)` start with `get_data`'s controls
   * and add exactly the row's new items without "Customizing", never twice.
   */
  lemma CompiledControls(a: seq<Row>, i: nat, x: string)
    requires Compiled(a).Some? && i < |Compiled(a).value|
    ensures i < |NamedRows(a)| && NamedRows(a)[i].controls.Some? && DataFor(a, Compiled(a).value[i].0).Some?
    ensures var e := Compiled(a).value[i];
      var data := DataFor(a, e.0).value;
      var items := NamedRows(a)[i].controls.value;
      |data.controls| <= |e.1.controls| && e.1.controls[..|data.controls|] == data.controls
      && (x in e.1.controls <==> x in data.controls || (x in items && !IsSubstring(Customizing, x)))
      && (NoDuplicates(data.controls) ==> NoDuplicates(e.1.controls))
  {
    CompiledShape(a);
    var e := Compiled(a).value[i];
    MergedMeaning(DataFor(a, e.0).value.controls, NamedRows(a)[i].controls.value, x);
  }

  /** Rows without "name" add no entry. */
  lemma NoNamesNoEntries(a: seq<Row>)
    requires forall i :: 0 <= i < |a| ==> a[i].name.None?
    ensures Compiled(a) == Some([])
  {
    NoNamesPrefix(a, |a|);
    assert a[..|a|] == a;
  }

  /** The first `k` rows, none with "name", add no entry. */
  lemma {:induction false} NoNamesPrefix(a: seq<Row>, k: nat)
    requires k <= |a|
    requires forall i :: 0 <= i < |a| ==> a[i].name.None?
    ensures CompileRows(a, a[..k]) == Some([])
  {
    if k > 0 {
      NoNamesPrefix(a, k - 1);
      assert a[..k][..k - 1] == a[..k - 1];
    }
  }

  /** `compile(a)`, with `get_data` and the merge loop as above. */
  method Compile(a: seq<Row>) returns (r: Option<seq<(string, Info)>>)
    ensures r == Compiled(a)
  {
    var entries: seq<(string, Info)> := [];
    for i := 0 to |a|
      invariant CompileRows(a, a[..i]) == Some(entries)
    {
      assert a[..i + 1][..i] == a[..i];
      var row := a[i];
      assert CompileRows(a, a[..i + 1]) == CompileRow(a, entries, row);
      if row.name.Some? {
        if row.name.value == [] {
          CompileRowsStuck(a, a, i + 1);
          return None;
        }
        var widget := row.name.value[0];
        var info := GetData(a, widget);
        if info.None? {
          CompileRowsStuck(a, a, i + 1);
          return None;
        }
        if row.controls.None? {
          CompileRowsStuck(a, a, i + 1);
          return None;
        }
        var controls := MergeControls(info.value.controls, row.controls.value);
        entries := entries + [(widget, Info(info.value.props, controls))];
      }
    }
    assert a[..|a|] == a;
    return Some(entries);
  }
}

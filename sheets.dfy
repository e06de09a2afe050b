/**
 * The selector store that QStyler keeps three times over: `StyleManager` in
 * QStyler/utils.py, `StyleFactory` in QStyler/styler.py and
 * `StyleSheetFactory` in QStyler/tab2.py. Each holds a list of one-selector
 * rows `{selector: {property: value}}`, upserts into it (`addSheet`), looks a
 * selector up (`get_sheet`) and serialises the list (`_create_ssheet` /
 * `update_styleSheet`). The three copies differ in one place: the first two
 * answer `{}` for an empty selector before looking, the third looks it up
 * like any other.
 *
 * `Upsert` and `Lookup` are the store's behaviour as functions of the row
 * list; the class `SheetStore` is the store as the source runs it, and each
 * of its methods is proved to agree with them.
 */
module Sheets {
  import opened Wrappers
  import opened Text
  import opened OrderedMaps
  import opened Qss
  import opened Rendering

  /** The position of the first row keyed `sel`, if any. */
  function FirstIndex(es: seq<Sheet>, sel: string): (r: Option<nat>)
    ensures r.Some? ==>
      r.value < |es| && es[r.value].selector == sel && forall j :: 0 <= j < r.value ==> es[j].selector != sel
    ensures r.None? <==> forall j :: 0 <= j < |es| ==> es[j].selector != sel
  {
    if es == [] then None
    else if es[0].selector == sel then Some(0)
    else
      match FirstIndex(es[1..], sel)
      case None =>
        assert forall j :: 0 < j < |es| ==> es[j] == es[1..][j - 1];
        None
      case Some(k) =>
        assert forall j :: 0 < j < |es| ==> es[j] == es[1..][j - 1];
        Some(k + 1)
  }

  /**
   * `get_sheet(widget)`: the map of the first row keyed `sel`, or `{}` when
   * there is none; with `guarded`, also `{}` for the empty selector.
   */
  function Lookup(es: seq<Sheet>, sel: string, guarded: bool): (m: PropMap)
    ensures (guarded && sel == "") || (forall j :: 0 <= j < |es| ==> es[j].selector != sel) ==> m == []
    ensures !(guarded && sel == "") ==>
      forall j :: 0 <= j < |es| && es[j].selector == sel && (forall i :: 0 <= i < j ==> es[i].selector != sel) ==>
        m == es[j].props
  {
    if guarded && sel == "" then []
    else
      match FirstIndex(es, sel)
      case None => []
      case Some(k) => es[k].props
  }

  /**
   * `addSheet(widget, prop, value)`: `prop` set to `value` in the first row
   * keyed `sel`, or, when there is none, one new row `{sel: {prop: value}}`
   * at the end. No other row changes and the list grows by at most one.
   */
  function Upsert(es: seq<Sheet>, sel: string, p: string, v: string): (r: seq<Sheet>)
    ensures |es| <= |r| <= |es| + 1
    ensures forall j :: 0 <= j < |es| && es[j].selector != sel ==> r[j] == es[j]
    ensures (forall j :: 0 <= j < |es| ==> es[j].selector != sel) ==> r == es + [Sheet(sel, [(p, v)])]
    ensures forall k :: 0 <= k < |es| && es[k].selector == sel && (forall i :: 0 <= i < k ==> es[i].selector != sel) ==>
      r == es[k := Sheet(sel, Put(es[k].props, p, v))]
  {
    match FirstIndex(es, sel)
    case None => es + [Sheet(sel, [(p, v)])]
    case Some(k) => es[k := Sheet(sel, Put(es[k].props, p, v))]
  }

  /** After `addSheet(s, p, v)`, `get_sheet(s)` maps `p` to `v`, unless the guard answers `{}` for `s`. */
  lemma UpsertThenGet(es: seq<Sheet>, sel: string, p: string, v: string, guarded: bool)
    requires !guarded || sel != ""
    ensures Get(Lookup(Upsert(es, sel, p, v), sel, guarded), p) == Some(v)
  {
    var r := Upsert(es, sel, p, v);
    match FirstIndex(es, sel)
    case None =>
      assert r[|es|].selector == sel;
      assert Lookup(r, sel, guarded) == [(p, v)];
    case Some(k) =>
      assert r[k].selector == sel;
      PutGet(es[k].props, p, v, p);
  }

  /** `addSheet` on one selector leaves what `get_sheet` gives for every other selector. */
  lemma UpsertOtherSelector(es: seq<Sheet>, sel: string, p: string, v: string, other: string, guarded: bool)
    requires other != sel
    ensures Lookup(Upsert(es, sel, p, v), other, guarded) == Lookup(es, other, guarded)
  {
    var r := Upsert(es, sel, p, v);
    SameSelectors(es, sel, p, v);
    LookupSame(es, r, other, guarded);
  }

  /** Two row lists that agree on the rows keyed `sel`, up to extra rows keyed otherwise, give the same lookup. */
  lemma LookupSame(es: seq<Sheet>, r: seq<Sheet>, sel: string, guarded: bool)
    requires |es| <= |r|
    requires forall j :: 0 <= j < |es| ==> (r[j].selector == sel <==> es[j].selector == sel)
    requires forall j :: 0 <= j < |es| && es[j].selector == sel ==> r[j] == es[j]
    requires forall j :: |es| <= j < |r| ==> r[j].selector != sel
    ensures Lookup(r, sel, guarded) == Lookup(es, sel, guarded)
  {
    match FirstIndex(es, sel)
    case None =>
      assert FirstIndex(r, sel).None?;
    case Some(k) =>
      assert forall j :: 0 <= j < k ==> r[j].selector != sel;
  }

  /** `addSheet` keeps every row's selector, and a row it adds is keyed by its selector. */
  lemma SameSelectors(es: seq<Sheet>, sel: string, p: string, v: string)
    ensures var r := Upsert(es, sel, p, v);
      (forall j :: 0 <= j < |es| ==> r[j].selector == es[j].selector) && (forall j :: |es| <= j < |r| ==> r[j].selector == sel)
  {
    match FirstIndex(es, sel)
    case None =>
      assert Upsert(es, sel, p, v) == es + [Sheet(sel, [(p, v)])];
    case Some(k) =>
      assert Upsert(es, sel, p, v) == es[k := Sheet(sel, Put(es[k].props, p, v))];
  }

  /** `addSheet(s, p, v)` leaves every other property of `s` as `get_sheet(s)` gives it. */
  lemma UpsertOtherProp(es: seq<Sheet>, sel: string, p: string, v: string, q: string, guarded: bool)
    requires q != p
    ensures Get(Lookup(Upsert(es, sel, p, v), sel, guarded), q) == Get(Lookup(es, sel, guarded), q)
  {
    var r := Upsert(es, sel, p, v);
    if !(guarded && sel == "") {
      match FirstIndex(es, sel)
      case None =>
        assert r[|es|].selector == sel;
        assert Lookup(r, sel, guarded) == [(p, v)];
      case Some(k) =>
        assert r[k].selector == sel;
        PutGet(es[k].props, p, v, q);
    }
  }

  /** Repeating the same `addSheet` call changes nothing more. */
  lemma UpsertTwice(es: seq<Sheet>, sel: string, p: string, v: string)
    ensures Upsert(Upsert(es, sel, p, v), sel, p, v) == Upsert(es, sel, p, v)
  {
    var r := Upsert(es, sel, p, v);
    match FirstIndex(es, sel)
    case None =>
      assert r[|es|].selector == sel;
      assert Put([(p, v)], p, v) == [(p, v)];
    case Some(k) =>
      assert r[k].selector == sel;
      PutTwice(es[k].props, p, v);
  }

  /** The two kinds of `get_sheet` differ only on the empty selector. */
  lemma GuardOnlyEmpty(es: seq<Sheet>, sel: string)
    ensures sel != "" ==> Lookup(es, sel, true) == Lookup(es, sel, false)
    ensures Lookup(es, "", true) == []
  {
  }

  /** A well-formed property set to a well-formed value keeps the map well formed. */
  lemma PutWellFormed(m: PropMap, p: string, v: string)
    requires WellFormedProps(m) && WellFormedProps([(p, v)])
    ensures WellFormedProps(Put(m, p, v))
  {
    PutUnique(m, p, v);
    PutItems(m, p, v);
    var r := Put(m, p, v);
    forall j | 0 <= j < |r|
      ensures IsStripped(r[j].0) && IsStripped(r[j].1) && ':' !in r[j].0 && LineSafe(r[j].0) && LineSafe(r[j].1)
    {
      if r[j] != (p, v) {
        var i :| 0 <= i < |m| && m[i] == r[j];
      } else {
        assert [(p, v)][0] == r[j];
      }
    }
  }

  /** `addSheet` with a selector, property and value the reader accepts keeps every row well formed. */
  lemma UpsertWellFormed(es: seq<Sheet>, sel: string, p: string, v: string)
    requires WellFormed(es) && WellFormedSheet(Sheet(sel, [(p, v)]))
    ensures WellFormed(Upsert(es, sel, p, v))
  {
    var r := Upsert(es, sel, p, v);
    WellFormedEach(es);
    WellFormedEach(r);
    match FirstIndex(es, sel)
    case None =>
      assert forall j :: 0 <= j < |es| ==> r[j] == es[j];
    case Some(k) =>
      PutWellFormed(es[k].props, p, v);
      assert WellFormedSheet(r[k]);
  }

  /**
   * The text the store applies after `addSheet` reads back, through the QSS
   * reader, as exactly the store's rows.
   */
  lemma AppliedTextReadsBack(es: seq<Sheet>, sel: string, p: string, v: string)
    requires WellFormed(es) && WellFormedSheet(Sheet(sel, [(p, v)]))
    ensures ParseQss(Render(Upsert(es, sel, p, v))) == Success(Upsert(es, sel, p, v))
  {
    UpsertWellFormed(es, sel, p, v);
    RoundTrip(Upsert(es, sel, p, v));
  }

  class SheetStore {
    /** True for `StyleManager` and `StyleFactory` (the `if widget:` guard), false for `StyleSheetFactory`. */
    const guarded: bool
    /** `self.sheets`: the rows in insertion order. */
    var sheets: seq<Sheet>

    constructor (guarded: bool)
      ensures this.guarded == guarded && sheets == []
    {
      this.guarded := guarded;
      sheets := [];
    }

    /**
     * `addSheet(widget, prop, value)`: the for/else upsert, then the
     * serialised text, which the source hands to `app.setStyleSheet`.
     */
    method AddSheet(widget: string, prop: string, value: string) returns (applied: string)
      modifies this`sheets
      ensures sheets == Upsert(old(sheets), widget, prop, value)
      ensures applied == Render(sheets)
    {
      var i := 0;
      while i < |sheets|
        invariant 0 <= i <= |sheets| && sheets == old(sheets)
        invariant forall j :: 0 <= j < i ==> sheets[j].selector != widget
      {
        if sheets[i].selector == widget {
          sheets := sheets[i := Sheet(widget, Put(sheets[i].props, prop, value))];
          applied := UpdateStyleSheet();
          return;
        }
        i := i + 1;
      }
      sheets := sheets + [Sheet(widget, [(prop, value)])];
      applied := UpdateStyleSheet();
    }

    /** `_create_ssheet()` / `update_styleSheet()`: every row's block in list order, its properties in insertion order. */
    method UpdateStyleSheet() returns (ssheet: string)
      ensures ssheet == Render(sheets)
    {
      ssheet := "";
      var i := 0;
      while i < |sheets|
        invariant 0 <= i <= |sheets|
        invariant ssheet == Render(sheets[..i])
      {
        var row := sheets[i];
        ssheet := ssheet + row.selector + " {\n";
        assert LinesText([row.selector + " {"]) == row.selector + " {" + "\n" + "";
        assert [row.selector + " {"] + PropLines(row.props)[..0] == [row.selector + " {"];
        var j := 0;
        while j < |row.props|
          invariant 0 <= j <= |row.props|
          invariant ssheet == Render(sheets[..i]) + LinesText([row.selector + " {"] + PropLines(row.props)[..j])
        {
          var (key, val) := row.props[j];
          ssheet := ssheet + "    " + key + ": " + val + ";\n";
          BlockLineStep(Render(sheets[..i]), [row.selector + " {"], row.props, j);
          j := j + 1;
        }
        assert PropLines(row.props)[..|row.props|] == PropLines(row.props);
        ssheet := ssheet + "}\n";
        BlockClose(sheets, i);
        i := i + 1;
      }
      assert sheets[..i] == sheets;
    }

    /** `get_sheet(widget)`: the first matching row's map, or `{}`. */
    method GetSheet(widget: string) returns (m: PropMap)
      ensures m == Lookup(sheets, widget, guarded)
    {
      if guarded && widget == "" {
        return [];
      }
      var i := 0;
      while i < |sheets|
        invariant 0 <= i <= |sheets|
        invariant forall j :: 0 <= j < i ==> sheets[j].selector != widget
      {
        if sheets[i].selector == widget {
          return sheets[i].props;
        }
        i := i + 1;
      }
      return [];
    }
  }

  /** One more property line appended to a block's text so far. */
  lemma BlockLineStep(before: string, head: seq<string>, m: PropMap, j: nat)
    requires j < |m|
    ensures before + LinesText(head + PropLines(m)[..j]) + "    " + m[j].0 + ": " + m[j].1 + ";\n" ==
      before + LinesText(head + PropLines(m)[..j + 1])
  {
    assert PropLines(m)[..j + 1] == PropLines(m)[..j] + [PropLine(m[j].0, m[j].1)];
    assert head + PropLines(m)[..j + 1] == head + PropLines(m)[..j] + [PropLine(m[j].0, m[j].1)];
    LinesTextSnoc(head + PropLines(m)[..j], PropLine(m[j].0, m[j].1));
  }

  /** The closing line completes a row's block, and with it the text of one more row. */
  lemma BlockClose(es: seq<Sheet>, i: nat)
    requires i < |es|
    ensures Render(es[..i]) + LinesText([es[i].selector + " {"] + PropLines(es[i].props)) + "}\n" == Render(es[..i + 1])
  {
    var e := es[i];
    var head := [e.selector + " {"] + PropLines(e.props);
    LinesTextSnoc(head, "}");
    assert head + ["}"] == SheetLines(e);
    assert es[..i + 1] == es[..i] + [e];
    RenderSnoc(es[..i], e);
    assert PropLines(e.props)[..|e.props|] == PropLines(e.props);
  }
}

/**
 * Which selector the property table edits, and how an edited row reaches the
 * store: `emitChanges` and `getWidgetState` of the selector picker, and
 * `saveProp` of the property table, in QStyler/styler.py and QStyler/tab2.py.
 * The two copies of `saveProp` differ: the one in styler.py ignores a row
 * whose property is empty or "-", the one in tab2.py stores it.
 */
module Target {
  import opened Wrappers
  import opened Text
  import opened OrderedMaps
  import opened Qss
  import opened Sheets

  /** The placeholder item of the three pickers: "no choice". */
  const NoPick: string := "-"

  /** The selector that stands for every widget. */
  const AllWidgets: string := "*"

  /** `[i for i in picks if i != "-"]`. */
  function Chosen(picks: seq<string>): (r: seq<string>)
    ensures |r| <= |picks|
    ensures forall i :: 0 <= i < |r| ==> r[i] != NoPick
  {
    if picks == [] then []
    else
      var rest := Chosen(picks[1..]);
      if picks[0] == NoPick then rest else [picks[0]] + rest
  }

  /** What one pick contributes to the selector. */
  function Part(pick: string): string {
    if pick == NoPick then "" else pick
  }

  /** The picks' contributions, in order. */
  function Parts(picks: seq<string>): string {
    if picks == [] then "" else Part(picks[0]) + Parts(picks[1..])
  }

  /**
   * The selector `emitChanges` writes to the line edit: the widget, control
   * and state picks that are not "-", joined with no separator, in that
   * order; "*" when they join to nothing.
   */
  function TargetSelector(widget: string, control: string, state: string): (r: string)
    ensures r != ""
  {
    var joined := Concat(Chosen([widget, control, state]));
    if joined == "" then AllWidgets else joined
  }

  /** Joining the picks that are not "-" is joining every pick with "-" read as nothing. */
  lemma {:induction false} ChosenParts(picks: seq<string>)
    ensures Concat(Chosen(picks)) == Parts(picks)
  {
    if picks != [] {
      ChosenParts(picks[1..]);
      if picks[0] != NoPick {
        assert ([picks[0]] + Chosen(picks[1..]))[1..] == Chosen(picks[1..]);
      }
    }
  }

  /**
   * The selector is the widget, control and state parts in that order, each
   * "-" left out, or "*" when that leaves nothing: all three are "-" or empty.
   */
  lemma TargetParts(widget: string, control: string, state: string)
    ensures var joined := Part(widget) + Part(control) + Part(state);
      TargetSelector(widget, control, state) == if joined == "" then AllWidgets else joined
  {
    ChosenParts([widget, control, state]);
    assert Parts([state]) == Part(state) + "" by {
      assert [state][1..] == [];
    }
    assert Parts([control, state]) == Part(control) + Parts([state]) by {
      assert [control, state][1..] == [state];
    }
    assert Parts([widget, control, state]) == Part(widget) + Parts([control, state]) by {
      assert [widget, control, state][1..] == [control, state];
    }
    var w, c, t := Part(widget), Part(control), Part(state);
    assert w + (c + (t + "")) == w + c + t;
  }

  /** `getWidgetState()`: the line edit's text, or "*" when it is empty. */
  function WidgetState(text: string): (r: string)
    ensures r != ""
    ensures text != "" ==> r == text
    ensures text == "" ==> r == AllWidgets
  {
    if text != "" then text else AllWidgets
  }

  /** After `emitChanges`, the state the table reads is the selector the picker composed. */
  lemma StateAfterEmit(widget: string, control: string, state: string)
    ensures WidgetState(TargetSelector(widget, control, state)) == TargetSelector(widget, control, state)
  {
  }

  /** A property the styler.py table refuses to store: empty or the "-" placeholder. */
  predicate Placeholder(prop: string) {
    prop == "" || prop == NoPick
  }

  /**
   * The rows after `saveProp` edits a value cell: `addSheet(title, prop,
   * value)`, except that with `checkProp` (styler.py) a placeholder property
   * stores nothing.
   */
  function Saved(es: seq<Sheet>, checkProp: bool, title: string, prop: string, value: string): (r: seq<Sheet>)
    ensures |es| <= |r| <= |es| + 1
    ensures forall j :: 0 <= j < |es| && es[j].selector != title ==> r[j] == es[j]
  {
    if checkProp && Placeholder(prop) then es else Upsert(es, title, prop, value)
  }

  /** Every property name in the rows is a real one. */
  predicate NoPlaceholders(es: seq<Sheet>) {
    forall j, k :: 0 <= j < |es| && 0 <= k < |es[j].props| ==> !Placeholder(es[j].props[k].0)
  }

  /** The styler.py table never stores a property that is empty or "-". */
  lemma SavedNoPlaceholders(es: seq<Sheet>, title: string, prop: string, value: string)
    requires NoPlaceholders(es)
    ensures NoPlaceholders(Saved(es, true, title, prop, value))
  {
    if !Placeholder(prop) {
      var r := Upsert(es, title, prop, value);
      match FirstIndex(es, title)
      case None =>
        assert forall j :: 0 <= j < |es| ==> r[j] == es[j];
      case Some(i) =>
        var m := es[i].props;
        PutItems(m, prop, value);
        forall k | 0 <= k < |r[i].props| ensures !Placeholder(r[i].props[k].0) {
          if r[i].props[k] != (prop, value) {
            var n :| 0 <= n < |m| && m[n] == r[i].props[k];
          }
        }
    }
  }

  /** The tab2.py table stores a "-" property like any other. */
  lemma UncheckedStoresPlaceholder(es: seq<Sheet>, text: string, value: string)
    ensures Get(Lookup(Saved(es, false, WidgetState(text), NoPick, value), WidgetState(text), false), NoPick) == Some(value)
  {
    UpsertThenGet(es, WidgetState(text), NoPick, value, false);
  }

  /**
   * A stored value can be read back under the title it was saved for: the
   * title comes from `getWidgetState`, which is never empty, so the store's
   * empty-selector guard never hides it.
   */
  lemma SavedThenCurrent(es: seq<Sheet>, checkProp: bool, text: string, prop: string, value: string, guarded: bool)
    requires !(checkProp && Placeholder(prop))
    ensures Get(Lookup(Saved(es, checkProp, WidgetState(text), prop, value), WidgetState(text), guarded), prop) == Some(value)
  {
    UpsertThenGet(es, WidgetState(text), prop, value, guarded);
  }

  /**
   * `saveProp(row, column)` for the value column, with the cell texts and the
   * line edit's text given: the table's store receives the edit. The property
   * column (`updateProp`) only redraws the table and is not part of this model.
   */
  method SaveProp(store: SheetStore, checkProp: bool, prop: string, value: string, lineText: string)
    modifies store`sheets
    ensures store.sheets == Saved(old(store.sheets), checkProp, WidgetState(lineText), prop, value)
  {
    var title := WidgetState(lineText);
    if checkProp && (prop == "" || prop == NoPick) {
      return;
    }
    var _ := store.AddSheet(title, prop, value);
  }
}

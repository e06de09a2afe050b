/**
 * The selector pickers of QStyler/combos.py: the validators that judge what
 * the user types into the widget and property pickers (`WidgetValidator`,
 * `PropsValidator`), and the item lists of the control and state pickers
 * (`ControlCombo.loadControls`, `StateCombo.loadStates`).
 */
module Combos {
  import opened Wrappers
  import opened Text

  /** Qt's `QValidator.State`. */
  datatype State = Invalid | Intermediate | Acceptable

  /**
   * The three answers of `test_match`: `True` (the text is an item),
   * `None` (the text is part of a longer item) and `False` (neither).
   */
  datatype Match = Exact | Partial | NoMatch

  /** How one item of the widget list judges the text. */
  function MatchOf(w: string, text: string): (r: Match)
    ensures r == Exact <==> w == text
    ensures r == Partial <==> |w| > |text| && IsSubstring(text, w)
  {
    if |w| == |text| && text == w then Exact
    else if |w| > |text| && IsSubstring(text, w) then Partial
    else NoMatch
  }

  /**
   * `test_match`: the items are tried in order and the first one that is the
   * text or strictly contains it decides.
   */
  function FirstMatch(ws: seq<string>, text: string): (r: Match)
    ensures r == NoMatch <==> forall i :: 0 <= i < |ws| ==> MatchOf(ws[i], text) == NoMatch
    ensures r != NoMatch ==> exists i :: 0 <= i < |ws| && MatchOf(ws[i], text) == r &&
                                         forall j :: 0 <= j < i ==> MatchOf(ws[j], text) == NoMatch
  {
    if ws == [] then NoMatch
    else if MatchOf(ws[0], text) != NoMatch then MatchOf(ws[0], text)
    else
      var r := FirstMatch(ws[1..], text);
      assert forall i :: 1 <= i < |ws| ==> ws[i] == ws[1..][i - 1];
      r
  }

  /**
   * A listed text is accepted unless an earlier item strictly contains it;
   * an accepted text is listed, a partial one is part of a longer item.
   */
  lemma FirstMatchMeaning(ws: seq<string>, text: string)
    ensures FirstMatch(ws, text) == Exact ==> text in ws
    ensures FirstMatch(ws, text) == Partial ==> exists w :: w in ws && |w| > |text| && IsSubstring(text, w)
    ensures text in ws && (forall w :: w in ws && |w| > |text| ==> !IsSubstring(text, w))
      ==> FirstMatch(ws, text) == Exact
  {
    if text in ws && (forall w :: w in ws && |w| > |text| ==> !IsSubstring(text, w)) {
      var k :| 0 <= k < |ws| && ws[k] == text;
      assert MatchOf(ws[k], text) == Exact;
      assert forall i :: 0 <= i < |ws| ==> MatchOf(ws[i], text) != Partial;
    }
  }

  /** `test_match(text)` against the widget list, as the loop does it. */
  method TestMatch(ws: seq<string>, text: string) returns (r: Match)
    ensures r == FirstMatch(ws, text)
  {
    for i := 0 to |ws|
      invariant FirstMatch(ws[i..], text) == FirstMatch(ws, text)
    {
      assert ws[i..][1..] == ws[i + 1..];
      var w := ws[i];
      if |w| == |text| && text == w {
        return Exact;
      }
      if |w| > |text| && IsSubstring(text, w) {
        return Partial;
      }
    }
    assert ws[|ws|..] == [];
    return NoMatch;
  }

  /** `True`, `None` and `False` read as Acceptable, Intermediate and Invalid. */
  function StateOf(m: Match): State {
    match m
    case Exact => Acceptable
    case Partial => Intermediate
    case NoMatch => Invalid
  }

  /** `\w` of a regular expression, on ASCII letters, digits and the underscore. */
  predicate IsWordChar(c: char) {
    'a' <= c <= 'z' || 'A' <= c <= 'Z' || '0' <= c <= '9' || c == '_'
  }

  /** A non-empty run of word characters: what `\w+` matches. */
  predicate IsWord(s: string) {
    s != [] && forall i :: 0 <= i < |s| ==> IsWordChar(s[i])
  }

  /** The length of the run of word characters the text starts with. */
  function WordRun(s: string): (k: nat)
    ensures k <= |s|
    ensures forall i :: 0 <= i < k ==> IsWordChar(s[i])
    ensures k < |s| ==> !IsWordChar(s[k])
  {
    if s != [] && IsWordChar(s[0]) then
      var k := WordRun(s[1..]);
      assert forall i :: 1 <= i < k + 1 ==> s[i] == s[1..][i - 1];
      1 + k
    else 0
  }

  /** `$` without MULTILINE: the end of the text, or a final newline before it. */
  predicate AtEnd(rest: string) {
    rest == "" || rest == "\n"
  }

  /** `pat1`, `^\w+?\s$`: a word, one whitespace character, the end. */
  predicate Pat1(t: string) {
    var k := WordRun(t);
    1 <= k < |t| && IsSpace(t[k]) && AtEnd(t[k + 1..])
  }

  /** `pat2`, `^\w+?\s\w+$`: a word, one whitespace character, a word, the end. */
  predicate Pat2(t: string) {
    var k := WordRun(t);
    1 <= k < |t| && IsSpace(t[k])
    && var u := t[k + 1..];
    var m := WordRun(u);
    1 <= m && AtEnd(u[m..])
  }

  /**
   * `WidgetValidator.validate(text)` with the picker's items `ws`: None where
   * the source raises IndexError, which happens when `pat2` matched across a
   * whitespace character that is not a space, so `text.split(" ")` has one
   * piece.
   */
  function WidgetVerdict(ws: seq<string>, text: string): (r: Option<State>)
    ensures r == Some(Acceptable) ==>
      text in ws || (|Split(text, ' ')| >= 2 && Split(text, ' ')[0] in ws && Split(text, ' ')[1] in ws)
  {
    if text == "" then Some(Intermediate)
    else
      var widgets := Split(text, ' ');
      if Pat2(text) && widgets[0] in ws then
        if |widgets| < 2 then None else Some(StateOf(FirstMatch(ws, widgets[1])))
      else if Pat1(text) then
        Some(if widgets[0] in ws then Intermediate else Invalid)
      else Some(StateOf(FirstMatch(ws, text)))
  }

  /**
   * `WidgetValidator.validate`, which also emits `inputAccepted(text)`:
   * `emitted` says whether it did.
   */
  method WidgetValidate(ws: seq<string>, text: string) returns (r: Option<State>, emitted: bool)
    ensures r == WidgetVerdict(ws, text)
    ensures emitted <==> r == Some(Acceptable)
  {
    if text == "" {
      return Some(Intermediate), false;
    }
    var widgets := Split(text, ' ');
    if Pat2(text) && widgets[0] in ws {
      if |widgets| < 2 {
        return None, false;
      }
      var result := TestMatch(ws, widgets[1]);
      if result == Exact {
        return Some(Acceptable), true;
      }
      return Some(if result == NoMatch then Invalid else Intermediate), false;
    }
    if Pat1(text) {
      if widgets[0] in ws {
        return Some(Intermediate), false;
      }
      return Some(Invalid), false;
    }
    var result := TestMatch(ws, text);
    if result == Exact {
      return Some(Acceptable), true;
    }
    return Some(if result == Partial then Intermediate else Invalid), false;
  }

  /** The run of word characters of a word followed by more text is the word. */
  lemma WordRunOf(a: string, rest: string)
    requires IsWord(a)
    requires rest == [] || !IsWordChar(rest[0])
    ensures WordRun(a + rest) == |a|
  {
    var s := a + rest;
    assert forall i :: 0 <= i < |a| ==> s[i] == a[i];
    assert |s| > |a| ==> s[|a|] == rest[0];
  }

  /**
   * "Widget sub": with a listed first word, the verdict is the one
   * `test_match` gives the second word.
   */
  lemma TwoWords(ws: seq<string>, a: string, b: string)
    requires IsWord(a) && IsWord(b) && a in ws
    ensures WidgetVerdict(ws, a + " " + b) == Some(StateOf(FirstMatch(ws, b)))
  {
    var t := a + " " + b;
    WordRunOf(a, " " + b);
    assert t == a + (" " + b);
    assert t[|a|] == ' ';
    assert t[|a| + 1..] == b;
    WordRunOf(b, "");
    assert b + "" == b;
    assert b[|b|..] == "";
    assert Pat2(t);
    SplitCons(a, b, ' ');
    assert ' ' !in b by {
      assert forall i :: 0 <= i < |b| ==> IsWordChar(b[i]);
    }
    assert ' ' !in a by {
      assert forall i :: 0 <= i < |a| ==> IsWordChar(a[i]);
    }
    assert Split(t, ' ') == [a, b];
  }

  /** "Widget ": a word and one space is Intermediate when the word is listed, Invalid otherwise. */
  lemma WordThenSpace(ws: seq<string>, a: string)
    requires IsWord(a)
    ensures WidgetVerdict(ws, a + " ") == Some(if a in ws then Intermediate else Invalid)
  {
    var t := a + " ";
    WordRunOf(a, " ");
    assert t[|a|] == ' ';
    assert t[|a| + 1..] == "";
    assert !Pat2(t);
    assert ' ' !in a by {
      assert forall i :: 0 <= i < |a| ==> IsWordChar(a[i]);
    }
    SplitCons(a, "", ' ');
    assert a + [' '] + "" == t;
  }

  /** A lone word is judged by `test_match` on the whole text. */
  lemma OneWord(ws: seq<string>, a: string)
    requires IsWord(a)
    ensures WidgetVerdict(ws, a) == Some(StateOf(FirstMatch(ws, a)))
  {
    WordRunOf(a, "");
    assert a + "" == a;
  }

  /**
   * Two listed words joined by a tab make the validator raise: `pat2`
   * matches, but splitting on spaces leaves a single piece.
   */
  lemma TabRaises(ws: seq<string>, a: string, b: string)
    requires IsWord(a) && IsWord(b) && a + "\t" + b in ws
    ensures WidgetVerdict(ws, a + "\t" + b) == None
  {
    var t := a + "\t" + b;
    WordRunOf(a, "\t" + b);
    assert t == a + ("\t" + b);
    assert t[|a|] == '\t';
    assert t[|a| + 1..] == b;
    WordRunOf(b, "");
    assert b + "" == b;
    assert b[|b|..] == "";
    assert Pat2(t);
    assert ' ' !in t by {
      assert forall i :: 0 <= i < |a| ==> IsWordChar(a[i]);
      assert forall i :: 0 <= i < |b| ==> IsWordChar(b[i]);
      assert forall i :: 0 <= i < |t| ==> t[i] == '\t' || IsWordChar(t[i]);
    }
  }

  /** The validator raises only when `pat2` matched a text with no space in it. */
  lemma RaisesOnlyWithoutSpace(ws: seq<string>, text: string)
    requires WidgetVerdict(ws, text) == None
    ensures Pat2(text) && ' ' !in text && text in ws
  {
    assert text != "";
  }

  /**
   * `PropsValidator.validate(text)` over the property names `data`: the empty
   * text and a listed name are Acceptable, a part of a longer name is
   * Intermediate, anything else Invalid.
   */
  function PropsVerdict(data: seq<string>, text: string): (r: State)
    ensures r == Invalid <==> text != "" && forall p :: p in data ==> !IsSubstring(text, p)
  {
    InvalidMeaning(data, text);
    if text == "" || text in data then Acceptable
    else if exists p :: p in data && |text| < |p| && IsSubstring(text, p) then Intermediate
    else Invalid
  }

  /** `PropsValidator.validate`, as its loop with the `inter` flag does it. */
  method PropsValidate(data: seq<string>, text: string) returns (r: State)
    ensures r == PropsVerdict(data, text)
  {
    if text == "" {
      return Acceptable;
    }
    var inter := false;
    for i := 0 to |data|
      invariant text !in data[..i]
      invariant inter <==> exists j :: 0 <= j < i && |text| < |data[j]| && IsSubstring(text, data[j])
    {
      var prop := data[i];
      if |text| == |prop| && text == prop {
        return Acceptable;
      }
      if |text| < |prop| && IsSubstring(text, prop) {
        inter := true;
      }
      assert data[..i + 1] == data[..i] + [prop];
    }
    assert data[..|data|] == data;
    if inter {
      return Intermediate;
    }
    return Invalid;
  }

  /** A part of a part of a text is a part of that text. */
  lemma SubstringTrans(t: string, u: string, p: string)
    requires IsSubstring(t, u) && IsSubstring(u, p)
    ensures IsSubstring(t, p)
  {
    var i :| 0 <= i <= |u| && StartsWith(u[i..], t);
    var j :| 0 <= j <= |p| && StartsWith(p[j..], u);
    assert p[j + i..][..|t|] == u[i..][..|t|];
  }

  /** Every text occurs in itself. */
  lemma SubstringSelf(t: string)
    ensures IsSubstring(t, t)
  {
    assert StartsWith(t[0..], t);
  }

  /** A text occurs only in texts at least as long, and in one of its own length only as that text. */
  lemma SubstringFits(t: string, p: string)
    requires IsSubstring(t, p)
    ensures |t| <= |p| && (|t| == |p| ==> t == p)
  {
    var i :| 0 <= i <= |p| && StartsWith(p[i..], t);
    if |t| == |p| {
      assert p[i..][..|t|] == p;
    }
  }

  /** The Invalid case of the validator is the text occurring in no listed name. */
  lemma InvalidMeaning(data: seq<string>, text: string)
    ensures (text != "" && text !in data && !(exists p :: p in data && |text| < |p| && IsSubstring(text, p)))
      <==> (text != "" && forall p :: p in data ==> !IsSubstring(text, p))
  {
    if text != "" && text !in data && !(exists p :: p in data && |text| < |p| && IsSubstring(text, p)) {
      forall p | p in data
        ensures !IsSubstring(text, p)
      {
        if IsSubstring(text, p) {
          SubstringFits(text, p);
        }
      }
    }
    if text != "" && text in data {
      SubstringSelf(text);
    }
  }

  /**
   * Typing on after an Invalid property text never makes it valid again: no
   * listed name holds the shorter text, so none holds or equals the longer.
   */
  lemma PropsInvalidStays(data: seq<string>, text: string, more: string)
    requires PropsVerdict(data, text) == Invalid && more != ""
    ensures PropsVerdict(data, text + more) == Invalid
  {
    var t := text + more;
    assert IsSubstring(text, t) by {
      assert StartsWith(t[0..], text);
    }
    if t in data {
      assert false;
    }
    if p :| p in data && |t| < |p| && IsSubstring(t, p) {
      SubstringTrans(text, t, p);
      assert false;
    }
  }

  /**
   * The widget the control and state pickers look up: the last piece of the
   * picked selector split on spaces (`widgets[-1]`, or `widgets[0]` when
   * there is one piece, which is the last one too).
   */
  function LastToken(widget: string): (r: string)
    ensures ' ' !in r
    ensures ' ' !in widget ==> r == widget
  {
    var widgets := Split(widget, ' ');
    SplitJoinsBack(widget, ' ');
    if |widgets| > 1 then widgets[|widgets| - 1] else widgets[0]
  }

  /** A selector "A B" is looked up by its last word B. */
  lemma LastTokenAfterSpace(a: string, b: string)
    requires ' ' !in b
    ensures LastToken(a + " " + b) == b
  {
    SplitAppend(a, b, ' ');
    assert a + [' '] + b == a + " " + b;
  }

  /** The control picker's items after `loadControls(widget)`. */
  function ControlItems(controls: map<string, seq<string>>, widget: string): (r: seq<string>)
    ensures |r| >= 1 && r[0] == ""
    ensures ' ' !in widget ==> r[1..] == if widget in controls then controls[widget] else []
  {
    var w := LastToken(widget);
    [""] + if w in controls then controls[w] else []
  }

  /**
   * The state picker's items after `loadStates(widget)`, or None when the
   * data has no "*" entry and the lookup raises KeyError.
   */
  function StateItems(states: map<string, seq<string>>, widget: string): (r: Option<seq<string>>)
    ensures r.None? <==> "*" !in states
    ensures r.Some? ==> |r.value| > |states["*"]| && r.value[0] == "" && r.value[1..|states["*"]| + 1] == states["*"]
  {
    var w := LastToken(widget);
    if "*" !in states then None
    else Some([""] + states["*"] + if w in states then states[w] else [])
  }

  /** Both pickers list the same items for "A B" as for "B". */
  lemma ItemsFollowLastWord(controls: map<string, seq<string>>, states: map<string, seq<string>>, a: string, b: string)
    requires ' ' !in b
    ensures ControlItems(controls, a + " " + b) == ControlItems(controls, b)
    ensures StateItems(states, a + " " + b) == StateItems(states, b)
  {
    LastTokenAfterSpace(a, b);
  }

  /**
   * The state picker lists the same first items, "" and the states of every
   * widget, whatever the widget text; after them come exactly the states of
   * the text's last word, if it has any.
   */
  lemma StatesCommonFirst(states: map<string, seq<string>>, widget: string, other: string)
    requires "*" in states
    ensures var n := |states["*"]| + 1;
      StateItems(states, widget).value[..n] == StateItems(states, other).value[..n]
    ensures var n := |states["*"]| + 1;
      var items := StateItems(states, widget).value;
      items[n..] == if LastToken(widget) in states then states[LastToken(widget)] else []
  {
  }

  /** The item list of a `QComboBox`, as the pickers refill it. */
  class ItemCombo {
    var items: seq<string>

    constructor()
      ensures items == []
    {
      items := [];
    }

    /** `addItem(text)`. */
    method AddItem(text: string)
      modifies this
      ensures items == old(items) + [text]
    {
      items := items + [text];
    }

    /** `for _ in range(self.count()): self.removeItem(0)`. */
    method RemoveAll()
      modifies this
      ensures items == []
    {
      var n := |items|;
      for k := 0 to n
        invariant items == old(items)[k..]
      {
        items := items[1..];
      }
    }

    /** `for x in xs: self.addItem(x)`. */
    method AddItems(xs: seq<string>)
      modifies this
      ensures items == old(items) + xs
    {
      for j := 0 to |xs|
        invariant items == old(items) + xs[..j]
      {
        assert xs[..j + 1] == xs[..j] + [xs[j]];
        AddItem(xs[j]);
      }
    }

    /** `ControlCombo.loadControls(widget)` with the data's "controls" table. */
    method LoadControls(controls: map<string, seq<string>>, widget: string)
      modifies this
      ensures items == ControlItems(controls, widget)
    {
      RemoveAll();
      AddItem("");
      var w := LastToken(widget);
      if w in controls {
        AddItems(controls[w]);
      }
    }

    /**
     * `StateCombo.loadStates(widget)` with the data's "states" table; `ok` is
     * false where the source raises KeyError, after it has emptied the list
     * and added the blank item.
     */
    method LoadStates(states: map<string, seq<string>>, widget: string) returns (ok: bool)
      modifies this
      ensures ok <==> StateItems(states, widget).Some?
      ensures items == if ok then StateItems(states, widget).value else [""]
    {
      RemoveAll();
      AddItem("");
      var w := LastToken(widget);
      if "*" !in states {
        return false;
      }
      AddItems(states["*"]);
      if w in states {
        AddItems(states[w]);
      }
      return true;
    }
  }
}

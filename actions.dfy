/**
 * Loading a theme from a style-sheet file: `LoadAction.getThemeFile` in
 * QStyler/actions.py parses the file and folds the parser's rows, each one
 * selector with its properties, into a single selector -> properties `dict`
 * with `dict.update`, then emits it with the title the user typed.
 */
module Actions {
  import opened Wrappers
  import opened OrderedMaps
  import opened Qss
  import opened Rendering

  /** The emitted `dict`: selector -> properties, in insertion order. */
  type Theme = OMap<string, PropMap>

  /** What `getThemeFile` does. */
  datatype Outcome =
    | Skipped                               // path or title empty: nothing parsed, nothing emitted
    | Raised(error: ParseError)             // the parser raised while reading the file
    | Loaded(theme: Theme, title: string)   // `loaded.emit(final, title)`

  /** `final.update(row)` for every row in order: the dict after the loop. */
  function Collapse(es: seq<Sheet>): (r: Theme)
    ensures |r| <= |es|
    decreases |es|
  {
    if es == [] then []
    else
      var last := es[|es| - 1];
      PutShape(Collapse(es[..|es| - 1]), last.selector, last.props);
      Put(Collapse(es[..|es| - 1]), last.selector, last.props)
  }

  /** The selectors of the rows. */
  function Selectors(es: seq<Sheet>): set<string> {
    set i | 0 <= i < |es| :: es[i].selector
  }

  /** `getThemeFile(title, path)` with the file's text given as `content`. */
  function ThemeFile(title: string, path: string, content: string): (r: Outcome)
    ensures r.Loaded? ==> r.title == title && forall k :: 0 <= k < |r.theme| ==> ',' !in r.theme[k].0
  {
    if path == "" || title == "" then Skipped
    else
      match ParseQss(content)
      case Failure(e) => Raised(e)
      case Success(es) =>
        CollapseKeys(es);
        SelectorKeys(Collapse(es), es);
        Loaded(Collapse(es), title)
  }

  /** The dict has one key per selector of the rows, and no key twice. */
  lemma {:induction false} CollapseKeys(es: seq<Sheet>)
    ensures UniqueKeys(Collapse(es))
    ensures KeySet(Collapse(es)) == Selectors(es)
    decreases |es|
  {
    if es != [] {
      var init := es[..|es| - 1];
      var last := es[|es| - 1];
      CollapseKeys(init);
      PutUnique(Collapse(init), last.selector, last.props);
      PutShape(Collapse(init), last.selector, last.props);
      assert Selectors(es) == Selectors(init) + {last.selector} by {
        assert forall i :: 0 <= i < |init| ==> init[i] == es[i];
      }
    }
  }

  /**
   * A selector's value in the dict is the whole property map of the last row
   * with that selector: maps of repeated selectors are replaced, not merged.
   */
  lemma {:induction false} CollapseLastWins(es: seq<Sheet>, k: nat)
    requires k < |es|
    requires forall j :: k < j < |es| ==> es[j].selector != es[k].selector
    ensures Get(Collapse(es), es[k].selector) == Some(es[k].props)
    decreases |es|
  {
    var init := es[..|es| - 1];
    var last := es[|es| - 1];
    PutGet(Collapse(init), last.selector, last.props, es[k].selector);
    if k < |es| - 1 {
      assert init[k] == es[k];
      CollapseLastWins(init, k);
    }
  }

  /** Keys drawn from single selectors are single selectors. */
  lemma SelectorKeys(t: Theme, es: seq<Sheet>)
    requires KeySet(t) == Selectors(es) && SingleSelectors(es)
    ensures forall k :: 0 <= k < |t| ==> ',' !in t[k].0
  {
    forall k | 0 <= k < |t|
      ensures ',' !in t[k].0
    {
      assert t[k].0 in KeySet(t);
    }
  }

  /** A selector no row has is not in the dict. */
  lemma CollapseAbsent(es: seq<Sheet>, sel: string)
    requires sel !in Selectors(es)
    ensures Get(Collapse(es), sel) == None
  {
    CollapseKeys(es);
    HasKeyInKeySet(Collapse(es), sel);
  }

  /**
   * Nothing is parsed unless both the path and the title are given; a theme
   * that is loaded carries the title unchanged and one key per selector of
   * the file.
   */
  lemma ThemeFileMeaning(title: string, path: string, content: string)
    ensures ThemeFile(title, path, content).Skipped? <==> path == "" || title == ""
    ensures ThemeFile(title, path, content).Loaded? <==> path != "" && title != "" && ParseQss(content).Success?
    ensures ThemeFile(title, path, content).Loaded? ==>
      ThemeFile(title, path, content).title == title
      && KeySet(ThemeFile(title, path, content).theme) == Selectors(ParseQss(content).value)
  {
    if path != "" && title != "" && ParseQss(content).Success? {
      CollapseKeys(ParseQss(content).value);
    }
  }

  /** A file written from well-formed rows loads back as those rows' collapse. */
  lemma LoadRendered(es: seq<Sheet>, title: string, path: string)
    requires WellFormed(es) && title != "" && path != ""
    ensures ThemeFile(title, path, Render(es)) == Loaded(Collapse(es), title)
  {
    RoundTrip(es);
  }

  /** `LoadAction.getThemeFile`: parse the file, then `final.update(row)` row by row. */
  method GetThemeFile(title: string, path: string, content: string) returns (r: Outcome)
    ensures r == ThemeFile(title, path, content)
  {
    if path != "" && title != "" {
      var parser := new QssParser(content);
      if parser.raised {
        return Raised(UnterminatedComment);
      }
      var theme := parser.result;
      var final: Theme := [];
      for i := 0 to |theme|
        invariant final == Collapse(theme[..i])
      {
        assert theme[..i + 1][..i] == theme[..i];
        final := Put(final, theme[i].selector, theme[i].props);
      }
      assert theme[..|theme|] == theme;
      return Loaded(final, title);
    }
    return Skipped;
  }
}

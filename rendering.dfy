/**
 * The serialiser that the three style stores share (`_create_ssheet` in
 * QStyler/utils.py, `update_styleSheet` in QStyler/styler.py and in
 * QStyler/tab2.py), written as a function of the entry list, and what the
 * QSS reader makes of the text it produces.
 */
module Rendering {
  import opened Wrappers
  import opened Text
  import opened OrderedMaps
  import opened Qss

  /** The text of a list of lines, each followed by "\n". */
  function LinesText(ls: seq<string>): string {
    if ls == [] then "" else ls[0] + "\n" + LinesText(ls[1..])
  }

  /** One property line, without its newline. */
  function PropLine(k: string, v: string): string {
    "    " + k + ": " + v + ";"
  }

  /** The property lines of one entry, in insertion order. */
  function PropLines(m: PropMap): (ls: seq<string>)
    ensures |ls| == |m|
  {
    seq(|m|, j requires 0 <= j < |m| => PropLine(m[j].0, m[j].1))
  }

  /** One entry: the selector line, its property lines, the closing line. */
  function SheetLines(e: Sheet): (ls: seq<string>)
    ensures |ls| == |e.props| + 2
  {
    [e.selector + " {"] + PropLines(e.props) + ["}"]
  }

  /** All entries' lines, in list order. */
  function RenderLines(es: seq<Sheet>): seq<string> {
    if es == [] then [] else SheetLines(es[0]) + RenderLines(es[1..])
  }

  /** The stylesheet text of an entry list; "" for no entries. */
  function Render(es: seq<Sheet>): (r: string)
    ensures r == "" <==> es == []
    ensures r != "" ==> r[|r| - 1] == '\n'
  {
    LinesTextEnds(RenderLines(es));
    LinesText(RenderLines(es))
  }

  /** The text of some lines is empty only for no lines, and otherwise ends with a newline. */
  lemma {:induction false} LinesTextEnds(ls: seq<string>)
    ensures LinesText(ls) == "" <==> ls == []
    ensures ls != [] ==> LinesText(ls)[|LinesText(ls)| - 1] == '\n'
  {
    if ls != [] {
      var t := LinesText(ls[1..]);
      LinesTextEnds(ls[1..]);
      var h := ls[0] + "\n";
      assert LinesText(ls) == h + t;
      if t == "" {
        assert h + t == h;
      } else {
        assert (h + t)[|h + t| - 1] == t[|t| - 1];
      }
    }
  }

  lemma {:induction false} LinesTextAppend(a: seq<string>, b: seq<string>)
    ensures LinesText(a + b) == LinesText(a) + LinesText(b)
  {
    if a == [] {
      assert a + b == b;
    } else {
      assert (a + b)[0] == a[0];
      assert (a + b)[1..] == a[1..] + b;
      LinesTextAppend(a[1..], b);
      var h := a[0] + "\n";
      assert LinesText(a + b) == h + (LinesText(a[1..]) + LinesText(b));
      assert LinesText(a) == h + LinesText(a[1..]);
    }
  }

  /** Appending one line appends it and its newline to the text. */
  lemma LinesTextSnoc(a: seq<string>, x: string)
    ensures LinesText(a + [x]) == LinesText(a) + x + "\n"
  {
    LinesTextAppend(a, [x]);
    assert LinesText([x]) == x + "\n" + "";
  }

  lemma {:induction false} RenderLinesAppend(a: seq<Sheet>, b: seq<Sheet>)
    ensures RenderLines(a + b) == RenderLines(a) + RenderLines(b)
  {
    if a == [] {
      assert a + b == b;
    } else {
      assert (a + b)[0] == a[0];
      assert (a + b)[1..] == a[1..] + b;
      RenderLinesAppend(a[1..], b);
    }
  }

  /** Entries are rendered one after the other: one more entry adds its block of text at the end. */
  lemma RenderSnoc(es: seq<Sheet>, e: Sheet)
    ensures Render(es + [e]) == Render(es) + LinesText(SheetLines(e))
  {
    RenderLinesAppend(es, [e]);
    assert [e][1..] == [];
    assert RenderLines([e]) == SheetLines(e) + [];
    assert RenderLines(es + [e]) == RenderLines(es) + SheetLines(e);
    LinesTextAppend(RenderLines(es), SheetLines(e));
  }

  /** The lines' text followed by `x` is the lines and `x` joined with "\n". */
  lemma {:induction false} LinesTextJoin(a: seq<string>, x: string)
    ensures LinesText(a) + x == Join(a + [x], '\n')
  {
    if a == [] {
      assert a + [x] == [x];
    } else {
      LinesTextJoin(a[1..], x);
      assert (a + [x])[1..] == a[1..] + [x];
      assert LinesText(a) + x == a[0] + ['\n'] + (LinesText(a[1..]) + x);
    }
  }

  /** Splitting the text on "\n" gives the lines back, followed by the tail when it holds no newline. */
  lemma SplitLinesText(a: seq<string>, x: string)
    requires forall k :: 0 <= k < |a| ==> '\n' !in a[k]
    requires '\n' !in x
    ensures Split(LinesText(a) + x, '\n') == a + [x]
  {
    LinesTextJoin(a, x);
    SplitJoin(a + [x], '\n');
  }

  // ----- which entry lists read back unchanged -----

  /** No newline (it would split the line) and no '}' (it would end the block early). */
  predicate LineSafe(s: string) {
    '\n' !in s && '}' !in s
  }

  /** Property names and values that survive `sanatize_prop`: stripped, no ':' in a name, no duplicate name. */
  predicate WellFormedProps(m: PropMap) {
    UniqueKeys(m) &&
    forall j :: 0 <= j < |m| ==>
      IsStripped(m[j].0) && IsStripped(m[j].1) && ':' !in m[j].0 && LineSafe(m[j].0) && LineSafe(m[j].1)
  }

  /** A selector that the header rules give back whole: stripped, one piece (no ','), no '{', not a comment opener. */
  predicate WellFormedSheet(e: Sheet) {
    IsStripped(e.selector) && !StartsWith(e.selector, CommentOpen) &&
    '\n' !in e.selector && '{' !in e.selector && ',' !in e.selector &&
    WellFormedProps(e.props)
  }

  /** Every entry well formed, first to last. */
  predicate WellFormed(es: seq<Sheet>) {
    es == [] || (WellFormedSheet(es[0]) && WellFormed(es[1..]))
  }

  /** Well formed means every entry well formed. */
  lemma {:induction false} WellFormedEach(es: seq<Sheet>)
    ensures WellFormed(es) <==> forall j :: 0 <= j < |es| ==> WellFormedSheet(es[j])
  {
    if es != [] {
      WellFormedEach(es[1..]);
      assert forall j :: 0 < j < |es| ==> es[j] == es[1..][j - 1];
    }
  }

  lemma {:induction false} RenderLinesNoNewline(es: seq<Sheet>)
    requires WellFormed(es)
    ensures forall k :: 0 <= k < |RenderLines(es)| ==> '\n' !in RenderLines(es)[k]
  {
    if es != [] {
      var e := es[0];
      RenderLinesNoNewline(es[1..]);
      var sl := SheetLines(e);
      forall k | 0 <= k < |sl| ensures '\n' !in sl[k] {
        if 0 < k < |sl| - 1 {
          assert sl[k] == PropLine(e.props[k - 1].0, e.props[k - 1].1);
        }
      }
    }
  }

  /** The reads that give each item of `m`, in order. */
  function Reads(m: PropMap): (rs: seq<LineRead>)
    ensures |rs| == |m|
  {
    seq(|m|, j requires 0 <= j < |m| => Some(m[j]))
  }

  /** Each rendered property line reads back as its own item. */
  lemma ReadRendered(m: PropMap)
    requires WellFormedProps(m)
    ensures ReadLines(PropLines(m)) == Reads(m)
  {
    forall j | 0 <= j < |m| ensures ReadLines(PropLines(m))[j] == Reads(m)[j] {
      SanatizeRendered(m[j].0, m[j].1);
    }
  }

  /** Applying the items of `m`, in order, to a map `a` that shares no key with it appends them to `a`. */
  lemma {:induction false} CollectReads(a: PropMap, m: PropMap)
    requires UniqueKeys(a + m)
    ensures UniqueKeys(a) && Collect(a, Reads(m)) == a + m
    decreases |m|
  {
    assert UniqueKeys(a) by {
      forall i, j | 0 <= i < j < |a| ensures a[i].0 != a[j].0 {
        assert (a + m)[i] == a[i] && (a + m)[j] == a[j];
      }
    }
    if m == [] {
      assert a + m == a;
    } else {
      var a' := a + [m[0]];
      assert a' + m[1..] == a + m;
      forall i | 0 <= i < |a| ensures a[i].0 != m[0].0 {
        assert (a + m)[i] == a[i] && (a + m)[|a|] == m[0];
      }
      PutShape(a, m[0].0, m[0].1);
      assert Reads(m)[0] == Some(m[0]);
      assert Reads(m)[1..] == Reads(m[1..]);
      CollectReads(a', m[1..]);
    }
  }

  /** Reading the property lines of a well-formed map, in order, rebuilds the map. */
  lemma CollectRendered(m: PropMap)
    requires WellFormedProps(m)
    ensures CollectProps(PropLines(m)) == m
  {
    ReadRendered(m);
    assert [] + m == m;
    CollectReads([], m);
  }

  lemma SheetLinesParts(e: Sheet)
    ensures SheetLines(e)[0] == e.selector + " {"
    ensures SheetLines(e)[1..|e.props| + 1] == PropLines(e.props)
    ensures SheetLines(e)[|e.props| + 1] == "}"
  {
  }

  /** A stretch of `ls` equal to `l` agrees with it on every sub-stretch. */
  lemma SubSlice(ls: seq<string>, i: nat, l: seq<string>, a: nat, b: nat)
    requires i + |l| <= |ls| && ls[i..i + |l|] == l && a <= b <= |l|
    ensures ls[i + a..i + b] == l[a..b]
  {
    forall k | 0 <= k < b - a ensures ls[i + a..i + b][k] == l[a..b][k] {
      assert l[a + k] == ls[i..i + |l|][a + k];
    }
  }

  /** The header of a rendered selector line is the selector and the space before '{'. */
  lemma HeaderRendered(line: string, sel: string)
    requires line == sel + " {" && '{' !in sel
    ensures '{' in line && Concat([] + [BeforeBrace(line)]) == sel + " "
  {
    assert line[|sel| + 1] == '{';
    IndexOfAt(line, '{', |sel| + 1);
    var head := line[..|sel| + 1];
    assert head == sel + " ";
    assert [] + [head] == [head];
    assert Concat([head]) == head + "";
  }

  /** A header with no ',' names one selector, stripped. */
  lemma ExpandOne(sel: string, props: PropMap)
    requires IsStripped(sel) && ',' !in sel
    ensures Expand(sel + " ", props) == [Sheet(sel, props)]
  {
    assert Split(sel + " ", ',') == [sel + " "];
    assert sel + " " == "" + sel + " ";
    StripPadded("", sel, " ");
  }

  /** A rendered selector line is neither a comment nor empty, and its header is the selector and a space. */
  lemma SelectorLineOpens(ls: seq<string>, i: nat, e: Sheet)
    requires WellFormedSheet(e)
    requires i + |e.props| + 2 <= |ls| && ls[i..i + |e.props| + 2] == SheetLines(e)
    ensures ls[i] != "" && !StartsWith(ls[i], CommentOpen) && '{' in ls[i] && HeaderText(ls, i, i) == e.selector + " "
  {
    var sel := e.selector;
    SheetLinesParts(e);
    SubSlice(ls, i, SheetLines(e), 0, 1);
    assert ls[i] == sel + " {";
    HeaderRendered(ls[i], sel);
    assert ls[i..i] + [BeforeBrace(ls[i])] == [] + [BeforeBrace(ls[i])];
    assert !StartsWith(ls[i], CommentOpen) by {
      if |sel| >= 2 {
        assert ls[i][..2] == sel[..2];
      } else {
        assert ls[i][|sel|] == ' ';
      }
    }
  }

  /** No rendered property line holds '}'; the closing line does. */
  lemma PropLinesOpen(ls: seq<string>, i: nat, e: Sheet)
    requires WellFormedSheet(e)
    requires i + |e.props| + 2 <= |ls| && ls[i..i + |e.props| + 2] == SheetLines(e)
    ensures forall k :: i < k < i + |e.props| + 1 ==> '}' !in ls[k]
    ensures '}' in ls[i + |e.props| + 1]
  {
    var c := i + |e.props| + 1;
    var sl := SheetLines(e);
    SheetLinesParts(e);
    forall k | i < k < c ensures '}' !in ls[k] {
      SubSlice(ls, i, sl, k - i, k - i + 1);
      assert ls[k] == sl[k - i];
      assert sl[k - i] == PropLine(e.props[k - i - 1].0, e.props[k - i - 1].1);
    }
    SubSlice(ls, i, sl, |e.props| + 1, |e.props| + 2);
    assert ls[c] == "}";
  }

  /** The rendered property lines of an entry read back as its map. */
  lemma PropsRendered(ls: seq<string>, i: nat, e: Sheet)
    requires WellFormedSheet(e)
    requires i + |e.props| + 2 <= |ls| && ls[i..i + |e.props| + 2] == SheetLines(e)
    ensures CollectProps(ls[i + 1..i + |e.props| + 1]) == e.props
  {
    var body := ls[i + 1..i + |e.props| + 1];
    assert body == PropLines(e.props) by {
      SheetLinesParts(e);
      SubSlice(ls, i, SheetLines(e), 1, |e.props| + 1);
    }
    CollectRendered(e.props);
  }

  /**
   * The rendered lines of an entry form one block: a selector line that opens
   * it, property lines without '}', a closing line, and header and property
   * lines that read back as the entry.
   */
  lemma SheetBlock(ls: seq<string>, i: nat, e: Sheet)
    requires WellFormedSheet(e)
    requires i + |e.props| + 2 <= |ls| && ls[i..i + |e.props| + 2] == SheetLines(e)
    ensures var c := i + |e.props| + 1;
      c < |ls| &&
      ls[i] != "" && !StartsWith(ls[i], CommentOpen) && '{' in ls[i] &&
      '}' in ls[c] && (forall k :: i < k < c ==> '}' !in ls[k]) &&
      Expand(HeaderText(ls, i, i), CollectProps(ls[i + 1..c])) == [e]
  {
    SelectorLineOpens(ls, i, e);
    PropLinesOpen(ls, i, e);
    PropsRendered(ls, i, e);
    ExpandOne(e.selector, e.props);
  }

  /** The lines `l` stand in `ls` from index `i` on. */
  predicate LinesAt(ls: seq<string>, i: nat, l: seq<string>)
    decreases l
  {
    i <= |ls| && (l == [] || (i < |ls| && ls[i] == l[0] && LinesAt(ls, i + 1, l[1..])))
  }

  lemma {:induction false} LinesAtSlice(ls: seq<string>, i: nat, l: seq<string>)
    requires i + |l| <= |ls| && ls[i..i + |l|] == l
    ensures LinesAt(ls, i, l)
    decreases l
  {
    if l != [] {
      var s := ls[i..i + |l|];
      assert s[0] == ls[i];
      assert ls[i + 1..i + |l|] == s[1..];
      LinesAtSlice(ls, i + 1, l[1..]);
    }
  }

  lemma {:induction false} LinesAtGives(ls: seq<string>, i: nat, l: seq<string>)
    requires LinesAt(ls, i, l)
    ensures i + |l| <= |ls| && ls[i..i + |l|] == l
    decreases l
  {
    if l != [] {
      LinesAtGives(ls, i + 1, l[1..]);
      assert ls[i] == l[0];
      assert ls[i..i + |l|] == [ls[i]] + ls[i + 1..i + |l|];
      assert l == [l[0]] + l[1..];
    }
  }

  /** Only empty lines from index `i` on. */
  predicate Blank(ls: seq<string>, i: nat)
    decreases |ls| - i
  {
    i >= |ls| || (ls[i] == "" && Blank(ls, i + 1))
  }

  lemma {:induction false} BlankAll(ls: seq<string>, i: nat)
    requires forall k :: i <= k < |ls| ==> ls[k] == ""
    ensures Blank(ls, i)
    decreases |ls| - i
  {
    if i < |ls| {
      BlankAll(ls, i + 1);
    }
  }

  lemma {:induction false} BlankGives(ls: seq<string>, i: nat)
    requires Blank(ls, i)
    ensures forall k :: i <= k < |ls| ==> ls[k] == ""
    decreases |ls| - i
  {
    if i < |ls| {
      BlankGives(ls, i + 1);
    }
  }

  /**
   * The entries `es`, well formed, stand rendered in `ls` from index `i` on,
   * followed by empty lines only; `cut` says that no line at all follows.
   */
  predicate RenderedFrom(ls: seq<string>, i: nat, es: seq<Sheet>, cut: bool)
    decreases es
  {
    if es == [] then
      i <= |ls| && Blank(ls, i) && (cut <==> i == |ls|)
    else
      WellFormedSheet(es[0]) && LinesAt(ls, i, SheetLines(es[0])) &&
      RenderedFrom(ls, i + |es[0].props| + 2, es[1..], cut)
  }

  lemma {:induction false} RenderedFromLines(ls: seq<string>, i: nat, es: seq<Sheet>)
    requires WellFormed(es)
    requires i + |RenderLines(es)| <= |ls| && ls[i..i + |RenderLines(es)|] == RenderLines(es)
    requires forall k :: i + |RenderLines(es)| <= k < |ls| ==> ls[k] == ""
    ensures RenderedFrom(ls, i, es, i + |RenderLines(es)| == |ls|)
    decreases es
  {
    var rl := RenderLines(es);
    if es == [] {
      BlankAll(ls, i);
    } else {
      var e := es[0];
      var n := |e.props| + 2;
      assert rl == SheetLines(e) + RenderLines(es[1..]);
      SubSlice(ls, i, rl, 0, n);
      assert rl[0..n] == SheetLines(e);
      LinesAtSlice(ls, i, SheetLines(e));
      SubSlice(ls, i, rl, n, |rl|);
      assert rl[n..|rl|] == RenderLines(es[1..]);
      RenderedFromLines(ls, i + n, es[1..]);
    }
  }

  /** The entries read back: all of them, or all but the last when `cut` (nothing follows the last closing line). */
  function Kept(es: seq<Sheet>, cut: bool): seq<Sheet> {
    if cut && es != [] then es[..|es| - 1] else es
  }

  lemma KeptCons(acc: seq<Sheet>, e: Sheet, rest: seq<Sheet>, cut: bool)
    requires !(cut && rest == [])
    ensures (acc + [e]) + Kept(rest, cut) == acc + Kept([e] + rest, cut)
  {
    if cut {
      assert [e] + rest[..|rest| - 1] == ([e] + rest)[..|rest|];
    }
  }

  /** Empty lines alone read back as nothing. */
  lemma BlankScan(ls: seq<string>, i: nat, acc: seq<Sheet>)
    requires Blank(ls, i)
    ensures Scan(ls, i, acc) == Success(acc)
  {
    BlankGives(ls, i);
    ScanBlankLines(ls, i, acc);
  }

  /** The entries after the first stand rendered after its lines; nothing follows them only when they are none. */
  lemma RestRendered(ls: seq<string>, i: nat, es: seq<Sheet>, cut: bool)
    requires es != [] && RenderedFrom(ls, i, es, cut)
    ensures var n := |es[0].props| + 2;
      RenderedFrom(ls, i + n, es[1..], cut) && (i + n >= |ls| ==> es[1..] == [] && cut)
  {
    var n := |es[0].props| + 2;
    if es[1..] != [] {
      assert LinesAt(ls, i + n, SheetLines(es[1..][0]));
    }
  }

  /** A block of `n` lines whose header is its first line, read as the rows `rows`. */
  lemma OneBlock(ls: seq<string>, i: nat, n: nat, acc: seq<Sheet>, rows: seq<Sheet>)
    requires 2 <= n && i + n <= |ls| && ls[i] != "" && !StartsWith(ls[i], CommentOpen) && '{' in ls[i]
    requires '}' in ls[i + n - 1] && forall k :: i < k < i + n - 1 ==> '}' !in ls[k]
    requires Expand(HeaderText(ls, i, i), CollectProps(ls[i + 1..i + n - 1])) == rows
    ensures Scan(ls, i, acc) == if i + n < |ls| then Scan(ls, i + n, acc + rows) else Success(acc)
  {
    var c := i + n - 1;
    BlockRead(ls, i, i, c, acc);
    assert c + 1 == i + n;
  }

  lemma EntryOpens(ls: seq<string>, i: nat, e: Sheet)
    requires WellFormedSheet(e) && LinesAt(ls, i, SheetLines(e))
    ensures var c := i + |e.props| + 1;
      c < |ls| &&
      ls[i] != "" && !StartsWith(ls[i], CommentOpen) && '{' in ls[i] &&
      '}' in ls[c] && (forall k :: i < k < c ==> '}' !in ls[k]) &&
      Expand(HeaderText(ls, i, i), CollectProps(ls[i + 1..c])) == [e]
  {
    LinesAtGives(ls, i, SheetLines(e));
    SheetBlock(ls, i, e);
  }

  /** The first rendered entry reads back as itself. */
  lemma FirstEntry(ls: seq<string>, i: nat, e: Sheet, acc: seq<Sheet>)
    requires WellFormedSheet(e) && LinesAt(ls, i, SheetLines(e))
    ensures var n := |e.props| + 2;
      Scan(ls, i, acc) == if i + n < |ls| then Scan(ls, i + n, acc + [e]) else Success(acc)
  {
    EntryOpens(ls, i, e);
    OneBlock(ls, i, |e.props| + 2, acc, [e]);
  }

  /**
   * Rendered entries followed by empty lines read back as those entries; when
   * nothing follows the last closing line, the last entry is lost.
   */
  lemma {:induction false} ScanRendered(ls: seq<string>, i: nat, es: seq<Sheet>, cut: bool, acc: seq<Sheet>)
    requires RenderedFrom(ls, i, es, cut)
    ensures Scan(ls, i, acc) == Success(acc + Kept(es, cut))
    decreases es
  {
    if es == [] {
      BlankScan(ls, i, acc);
      assert acc + [] == acc;
    } else {
      var e := es[0];
      var rest := es[1..];
      var n := |e.props| + 2;
      RestRendered(ls, i, es, cut);
      FirstEntry(ls, i, e, acc);
      if i + n < |ls| {
        ScanRendered(ls, i + n, rest, cut, acc + [e]);
        KeptCons(acc, e, rest, cut);
        assert [e] + rest == es;
      } else {
        assert Kept(es, cut) == [];
        assert acc + [] == acc;
      }
    }
  }

  /** The text of well-formed entries splits into their lines and a final empty line. */
  lemma RenderSplit(es: seq<Sheet>)
    requires WellFormed(es)
    ensures Split(Render(es), '\n') == RenderLines(es) + [""]
  {
    RenderLinesNoNewline(es);
    SplitLinesText(RenderLines(es), "");
    assert Render(es) + "" == Render(es);
  }

  /** The last rendered line of a non-empty entry list is a closing line. */
  lemma RenderLinesEnd(es: seq<Sheet>)
    requires es != []
    ensures |RenderLines(es)| > 0 && RenderLines(es)[|RenderLines(es)| - 1] == "}"
  {
    var last := es[|es| - 1];
    RenderLinesAppend(es[..|es| - 1], [last]);
    assert es[..|es| - 1] + [last] == es;
    assert RenderLines([last]) == SheetLines(last) + [];
  }

  /** The text without its final newline splits into the lines alone. */
  lemma RenderCutSplit(es: seq<Sheet>)
    requires WellFormed(es) && es != []
    ensures |Render(es)| > 0 && Split(Render(es)[..|Render(es)| - 1], '\n') == RenderLines(es)
  {
    var rl := RenderLines(es);
    RenderLinesEnd(es);
    var pre := rl[..|rl| - 1];
    assert rl == pre + ["}"];
    LinesTextSnoc(pre, "}");
    assert Render(es)[..|Render(es)| - 1] == LinesText(pre) + "}";
    RenderLinesNoNewline(es);
    assert forall k :: 0 <= k < |pre| ==> '\n' !in pre[k] by {
      assert forall k :: 0 <= k < |pre| ==> pre[k] == rl[k];
    }
    SplitLinesText(pre, "}");
  }

  /** The stylesheet text of well-formed entries reads back as exactly those entries. */
  lemma RoundTrip(es: seq<Sheet>)
    requires WellFormed(es)
    ensures ParseQss(Render(es)) == Success(es)
  {
    var rl := RenderLines(es);
    RenderSplit(es);
    var ls := rl + [""];
    assert ls[0..|rl|] == rl;
    RenderedFromLines(ls, 0, es);
    ScanRendered(ls, 0, es, false, []);
    assert [] + Kept(es, false) == es;
  }

  /**
   * The same text without its final newline loses its last entry: the last
   * closing line is then the last line, and a block is only emitted when some
   * line follows its closing line.
   */
  lemma NoFinalNewline(es: seq<Sheet>)
    requires WellFormed(es) && es != []
    ensures |Render(es)| > 0 && ParseQss(Render(es)[..|Render(es)| - 1]) == Success(es[..|es| - 1])
  {
    var rl := RenderLines(es);
    RenderCutSplit(es);
    assert rl[0..|rl|] == rl;
    RenderedFromLines(rl, 0, es);
    ScanRendered(rl, 0, es, true, []);
    assert [] + Kept(es, true) == es[..|es| - 1];
  }
}

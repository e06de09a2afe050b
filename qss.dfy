/**
 * The QSS reader of QStyler/utils.py (`QssParser`): a line scanner that turns
 * stylesheet text into an ordered list of one-selector rows
 * `{selector: {property: value}}`.
 *
 * `Scan`, `Comment`, `Header` and `Body` are the scan written as functions,
 * one per loop of `parse()`, over the line index the loop is at; the class
 * `QssParser` is the scan as the source runs it, with a line cursor and a
 * result list appended in place, and each of its loops is proved to keep the
 * matching function's value fixed, so that it computes exactly `ParseQss`.
 */
module Qss {
  import opened Wrappers
  import opened Text
  import opened OrderedMaps

  /** A property map: names to values, in the order the names were first assigned. */
  type PropMap = OMap<string, string>

  /** One `{selector: {property: value}}` row, as the parser emits it and the style stores keep it. */
  datatype Sheet = Sheet(selector: string, props: PropMap)

  /** The one way `parse()` fails: `skip_comments` runs past the last line looking for the end of a comment. */
  datatype ParseError = UnterminatedComment

  /** The two-character comment delimiters, as the scanner tests for them. */
  const CommentOpen: string := "/*"
  const CommentClose: string := "*/"

  // ----- one property line -----

  /**
   * `sanatize_prop` on one line: strip it, split it on ':', take the first piece
   * (stripped) as the name and the other pieces rejoined with ':' as the value,
   * drop one trailing ';' and strip. An empty value makes `value[-1]` raise
   * IndexError, which the source catches and turns into "no property".
   */
  function SanatizeProp(line: string): (r: Option<(string, string)>)
    ensures r.Some? ==> ':' !in r.value.0
    ensures ':' !in line ==> r.None?
  {
    StripKeeps(line, ':');
    JoinTail(Strip(line), ':');
    SplitJoinsBack(Strip(line), ':');
    var pieces := Split(Strip(line), ':');
    StripKeeps(pieces[0], ':');
    var name := Strip(pieces[0]);
    var value := Join(pieces[1..], ':');
    if value == "" then None
    else
      var v := if value[|value| - 1] == ';' then value[..|value| - 1] else value;
      Some((name, Strip(v)))
  }

  /** One trailing ';' removed, as `if value[-1] == ";": value = value[:-1]` does. */
  function DropSemicolon(v: string): string {
    if v != [] && v[|v| - 1] == ';' then v[..|v| - 1] else v
  }

  /**
   * What a property line yields, stated on the stripped line `t` and its first
   * colon: nothing when there is no colon or nothing after it; otherwise the
   * stripped text before the first colon and the stripped text after it, minus
   * one trailing ';' (so later colons stay in the value).
   */
  lemma SanatizePropCases(line: string)
    ensures var t := Strip(line);
      SanatizeProp(line).None? <==> (':' !in t || IndexOf(t, ':') == |t| - 1)
    ensures var t := Strip(line);
      ':' in t && IndexOf(t, ':') < |t| - 1 ==>
        SanatizeProp(line) == Some((Strip(t[..IndexOf(t, ':')]), Strip(DropSemicolon(t[IndexOf(t, ':') + 1..]))))
  {
    var t := Strip(line);
    var pieces := Split(t, ':');
    JoinTail(t, ':');
    if ':' in t {
      var i := IndexOf(t, ':');
      assert pieces[0] == t[..i];
      assert Join(pieces[1..], ':') == t[i + 1..];
    } else {
      assert pieces == [t];
      assert Join(pieces[1..], ':') == "";
    }
  }

  /** The line `"    " + name + ": " + value + ";"` reads back as `(name, value)`. */
  lemma SanatizeRendered(name: string, value: string)
    requires IsStripped(name) && IsStripped(value) && ':' !in name
    ensures SanatizeProp("    " + name + ": " + value + ";") == Some((name, value))
  {
    RenderedLineParts(name, value);
    SanatizePropCases("    " + name + ": " + value + ";");
  }

  /** The stripped rendered line, its first colon, and the two stripped sides of it. */
  lemma RenderedLineParts(name: string, value: string)
    requires IsStripped(name) && IsStripped(value) && ':' !in name
    ensures var t := name + ": " + value + ";";
      Strip("    " + name + ": " + value + ";") == t && ':' in t && IndexOf(t, ':') == |name| &&
      |name| < |t| - 1 && Strip(t[..|name|]) == name && Strip(DropSemicolon(t[|name| + 1..])) == value
  {
    var t := name + ": " + value + ";";
    RenderedLineStrip(name, value);
    ColonAt(name, value);
    StripPadded("", name, "");
    assert "" + name + "" == name;
    SemicolonValue(value);
  }

  lemma RenderedLineStrip(name: string, value: string)
    requires IsStripped(name)
    ensures Strip("    " + name + ": " + value + ";") == name + ": " + value + ";"
  {
    var t := name + ": " + value + ";";
    StrippedLine(name, value);
    assert "    " + name + ": " + value + ";" == "    " + t + "";
    StripPadded("    ", t, "");
  }

  lemma StrippedLine(name: string, value: string)
    requires IsStripped(name)
    ensures IsStripped(name + ": " + value + ";")
  {
    var t := name + ": " + value + ";";
    assert t == name + ([':', ' '] + value + [';']);
    if name != [] { assert t[0] == name[0]; } else { assert t[0] == ':'; }
    assert t[|t| - 1] == ';';
  }

  lemma ColonAt(name: string, value: string)
    requires ':' !in name
    ensures var t := name + ": " + value + ";";
      ':' in t && IndexOf(t, ':') == |name| && IndexOf(t, ':') < |t| - 1 && t[..|name|] == name && t[|name| + 1..] == " " + value + ";"
  {
    var t := name + ": " + value + ";";
    assert t[|name|] == ':';
    assert t[..|name|] == name;
    IndexOfAt(t, ':', |name|);
    assert t[|name| + 1..] == " " + value + ";";
  }

  lemma SemicolonValue(value: string)
    requires IsStripped(value)
    ensures Strip(DropSemicolon(" " + value + ";")) == value
  {
    assert DropSemicolon(" " + value + ";") == " " + value + "";
    StripPadded(" ", value, "");
  }

  /** What one line read with `sanatize_prop` yields: a (name, value) pair or nothing. */
  type LineRead = Option<(string, string)>

  /** `sanatize_prop` applied to every line of a block, in order. */
  function ReadLines(ls: seq<string>): (rs: seq<LineRead>)
    ensures |rs| == |ls|
  {
    seq(|ls|, j requires 0 <= j < |ls| => SanatizeProp(ls[j]))
  }

  /** The read of a line sets `name`. */
  predicate Sets(r: LineRead, name: string) {
    r.Some? && r.value.0 == name
  }

  /** One line of a block: `props[prop] = value` when the line yields a property, else nothing. */
  function AddProp(m: PropMap, r: LineRead): (m': PropMap)
    requires UniqueKeys(m)
    ensures UniqueKeys(m')
  {
    match r
    case None => m
    case Some(p) => PutUnique(m, p.0, p.1); Put(m, p.0, p.1)
  }

  lemma AddPropGet(m: PropMap, r: LineRead, name: string)
    requires UniqueKeys(m)
    ensures Get(AddProp(m, r), name) == if Sets(r, name) then Some(r.value.1) else Get(m, name)
  {
    match r
    case None =>
    case Some(p) => PutGet(m, p.0, p.1, name);
  }

  lemma ReadLinesCons(ls: seq<string>, i: nat, c: nat)
    requires i < c <= |ls|
    ensures ReadLines(ls[i..c]) == [SanatizeProp(ls[i])] + ReadLines(ls[i + 1..c])
  {
    var rs := ReadLines(ls[i..c]);
    assert rs[0] == SanatizeProp(ls[i]);
    assert rs[1..] == ReadLines(ls[i + 1..c]);
    assert rs == [rs[0]] + rs[1..];
  }

  /** The reads of a block applied in order, first line first, to the map built so far. */
  function Collect(m: PropMap, rs: seq<LineRead>): (r: PropMap)
    requires UniqueKeys(m)
    ensures UniqueKeys(r)
    decreases rs
  {
    if rs == [] then m else Collect(AddProp(m, rs[0]), rs[1..])
  }

  /** The property map of a block whose body is `ls`: its lines read in order into an empty map. */
  function CollectProps(ls: seq<string>): (m: PropMap)
    ensures UniqueKeys(m)
  {
    Collect([], ReadLines(ls))
  }

  /** A name that no later read sets keeps the value it had. */
  lemma {:induction false} CollectAbsent(m: PropMap, rs: seq<LineRead>, name: string)
    requires UniqueKeys(m)
    requires forall i :: 0 <= i < |rs| ==> !Sets(rs[i], name)
    ensures Get(Collect(m, rs), name) == Get(m, name)
    decreases rs
  {
    if rs != [] {
      assert !Sets(rs[0], name);
      AddPropGet(m, rs[0], name);
      assert forall i :: 0 <= i < |rs[1..]| ==> rs[1..][i] == rs[i + 1];
      CollectAbsent(AddProp(m, rs[0]), rs[1..], name);
    }
  }

  /** A name set by several reads keeps the value from the last of them. */
  lemma {:induction false} CollectLastWins(m: PropMap, rs: seq<LineRead>, i: nat, name: string)
    requires UniqueKeys(m)
    requires i < |rs| && Sets(rs[i], name)
    requires forall j :: i < j < |rs| ==> !Sets(rs[j], name)
    ensures Get(Collect(m, rs), name) == Some(rs[i].value.1)
    decreases rs
  {
    var m' := AddProp(m, rs[0]);
    assert forall j :: 0 <= j < |rs[1..]| ==> rs[1..][j] == rs[j + 1];
    if i == 0 {
      AddPropGet(m, rs[0], name);
      CollectAbsent(m', rs[1..], name);
    } else {
      CollectLastWins(m', rs[1..], i - 1, name);
    }
  }

  // ----- one rule block -----

  /** Every row names a single selector: none holds a ','. */
  predicate SingleSelectors(es: seq<Sheet>) {
    forall k :: 0 <= k < |es| ==> ',' !in es[k].selector
  }

  /** Pieces without ',' stay without ',' once stripped. */
  lemma StrippedPieces(pieces: seq<string>)
    requires forall k :: 0 <= k < |pieces| ==> ',' !in pieces[k]
    ensures forall k :: 0 <= k < |pieces| ==> ',' !in Strip(pieces[k])
  {
    forall k | 0 <= k < |pieces|
      ensures ',' !in Strip(pieces[k])
    {
      StripKeeps(pieces[k], ',');
    }
  }

  /** One row per comma-separated piece of the header, stripped, in order, each with its own copy of the block's map. */
  function Expand(header: string, props: PropMap): (r: seq<Sheet>)
    ensures |r| == |Split(header, ',')|
    ensures SingleSelectors(r)
    ensures forall j :: 0 <= j < |r| ==> r[j].props == props
  {
    SplitJoinsBack(header, ',');
    StrippedPieces(Split(header, ','));
    var pieces := Split(header, ',');
    seq(|pieces|, j requires 0 <= j < |pieces| => Sheet(Strip(pieces[j]), props))
  }

  /** The text before the first '{' of a line. */
  function BeforeBrace(line: string): string
    requires '{' in line
  {
    line[..IndexOf(line, '{')]
  }

  /** The header of a block: the header lines from `start` and the brace line `h` cut at its '{', joined with no separator. */
  function HeaderText(ls: seq<string>, start: nat, h: nat): string
    requires start <= h < |ls| && '{' in ls[h]
  {
    Concat(ls[start..h] + [BeforeBrace(ls[h])])
  }

  // ----- the whole scan: one function per loop of `parse()` -----

  /**
   * The outer loop of `parse()` at line `i`, with `acc` gathered so far. A
   * line starting with `CommentOpen` opens a comment; an empty line is
   * skipped; any other line starts a header.
   */
  function Scan(ls: seq<string>, i: nat, acc: seq<Sheet>): (r: Result<seq<Sheet>, ParseError>)
    ensures SingleSelectors(acc) && r.Success? ==> SingleSelectors(r.value)
    decreases |ls| - i, 1
  {
    if i >= |ls| then Success(acc)
    else if StartsWith(ls[i], CommentOpen) then Comment(ls, i, acc)
    else if ls[i] == "" then Scan(ls, i + 1, acc)
    else Header(ls, [], i, acc)
  }

  /**
   * `skip_comments()` from line `i`: the first line ending with `CommentClose`
   * (the opening line included) ends the comment; running out of lines is
   * the IndexError of `self.current`.
   */
  function Comment(ls: seq<string>, i: nat, acc: seq<Sheet>): (r: Result<seq<Sheet>, ParseError>)
    ensures SingleSelectors(acc) && r.Success? ==> SingleSelectors(r.value)
    decreases |ls| - i, 0
  {
    if i >= |ls| then Failure(UnterminatedComment)
    else if EndsWith(ls[i], CommentClose) then Scan(ls, i + 1, acc)
    else Comment(ls, i + 1, acc)
  }

  /**
   * The header loop at line `i`, `widgets` holding the header lines before
   * it. The line with '{' contributes its text before the '{' and starts the
   * property loop on the next line; running out of lines ends the scan.
   */
  function Header(ls: seq<string>, widgets: seq<string>, i: nat, acc: seq<Sheet>): (r: Result<seq<Sheet>, ParseError>)
    requires i < |ls|
    ensures SingleSelectors(acc) && r.Success? ==> SingleSelectors(r.value)
    decreases |ls| - i, 0
  {
    if '{' in ls[i] then Body(ls, Concat(widgets + [BeforeBrace(ls[i])]), [], i + 1, acc)
    else if i + 1 < |ls| then Header(ls, widgets + [ls[i]], i + 1, acc)
    else Success(acc)
  }

  /**
   * The property loop at line `i` of the block with header text `header`,
   * `props` holding the properties read so far. Each line without '}' is read
   * with `sanatize_prop`. The '}' line emits the block's rows only when some
   * line follows it; otherwise, as when the lines run out first, the scan ends.
   */
  function Body(ls: seq<string>, header: string, props: PropMap, i: nat, acc: seq<Sheet>): (r: Result<seq<Sheet>, ParseError>)
    requires UniqueKeys(props)
    ensures SingleSelectors(acc) && r.Success? ==> SingleSelectors(r.value)
    decreases |ls| - i, 0
  {
    if i >= |ls| then Success(acc)
    else if '}' in ls[i] then
      if i + 1 < |ls| then Scan(ls, i + 1, acc + Expand(header, props)) else Success(acc)
    else Body(ls, header, AddProp(props, SanatizeProp(ls[i])), i + 1, acc)
  }

  /** `QssParser(content).result`: the text split on "\n" and scanned from the first line. */
  function ParseQss(content: string): (r: Result<seq<Sheet>, ParseError>)
    ensures r.Success? ==> SingleSelectors(r.value)
  {
    Scan(Split(content, '\n'), 0, [])
  }

  // ----- properties of the scan -----

  /** `acc` put in front of a successful result; a failure stays a failure. */
  function Prepend(acc: seq<Sheet>, r: Result<seq<Sheet>, ParseError>): Result<seq<Sheet>, ParseError> {
    match r
    case Success(v) => Success(acc + v)
    case Failure(e) => Failure(e)
  }

  lemma PrependTwice(a: seq<Sheet>, b: seq<Sheet>, r: Result<seq<Sheet>, ParseError>)
    ensures Prepend(a, Prepend(b, r)) == Prepend(a + b, r)
  {
    if r.Success? {
      assert a + (b + r.value) == a + b + r.value;
    }
  }

  /** The scan only ever appends to what it has gathered, and whether it fails does not depend on it. */
  lemma {:induction false} ScanExtends(ls: seq<string>, i: nat, acc: seq<Sheet>)
    ensures Scan(ls, i, acc) == Prepend(acc, Scan(ls, i, []))
    decreases |ls| - i, 1
  {
    if i >= |ls| {
      assert acc + [] == acc;
    } else if StartsWith(ls[i], CommentOpen) {
      CommentExtends(ls, i, acc);
    } else if ls[i] == "" {
      ScanExtends(ls, i + 1, acc);
    } else {
      HeaderExtends(ls, [], i, acc);
    }
  }

  lemma {:induction false} CommentExtends(ls: seq<string>, i: nat, acc: seq<Sheet>)
    ensures Comment(ls, i, acc) == Prepend(acc, Comment(ls, i, []))
    decreases |ls| - i, 0
  {
    if i < |ls| {
      if EndsWith(ls[i], CommentClose) {
        ScanExtends(ls, i + 1, acc);
      } else {
        CommentExtends(ls, i + 1, acc);
      }
    }
  }

  lemma {:induction false} HeaderExtends(ls: seq<string>, widgets: seq<string>, i: nat, acc: seq<Sheet>)
    requires i < |ls|
    ensures Header(ls, widgets, i, acc) == Prepend(acc, Header(ls, widgets, i, []))
    decreases |ls| - i, 0
  {
    if '{' in ls[i] {
      BodyExtends(ls, Concat(widgets + [BeforeBrace(ls[i])]), [], i + 1, acc);
    } else if i + 1 < |ls| {
      HeaderExtends(ls, widgets + [ls[i]], i + 1, acc);
    } else {
      assert acc + [] == acc;
    }
  }

  lemma {:induction false} BodyExtends(ls: seq<string>, header: string, props: PropMap, i: nat, acc: seq<Sheet>)
    requires UniqueKeys(props)
    ensures Body(ls, header, props, i, acc) == Prepend(acc, Body(ls, header, props, i, []))
    decreases |ls| - i, 0
  {
    if i >= |ls| {
      assert acc + [] == acc;
    } else if '}' in ls[i] {
      if i + 1 < |ls| {
        var rows := Expand(header, props);
        assert [] + rows == rows;
        ScanExtends(ls, i + 1, acc + rows);
        ScanExtends(ls, i + 1, rows);
        PrependTwice(acc, rows, Scan(ls, i + 1, []));
      } else {
        assert acc + [] == acc;
      }
    } else {
      BodyExtends(ls, header, AddProp(props, SanatizeProp(ls[i])), i + 1, acc);
    }
  }

  /** Empty lines alone, including no lines at all, add nothing. */
  lemma {:induction false} ScanBlankLines(ls: seq<string>, i: nat, acc: seq<Sheet>)
    requires forall k :: i <= k < |ls| ==> ls[k] == ""
    ensures Scan(ls, i, acc) == Success(acc)
    decreases |ls| - i
  {
    if i < |ls| {
      assert !StartsWith(ls[i], CommentOpen);
      ScanBlankLines(ls, i + 1, acc);
    }
  }

  /** Empty text gives an empty result. */
  lemma ParseEmptyText()
    ensures ParseQss("") == Success([])
  {
    ScanBlankLines(Split("", '\n'), 0, []);
  }

  /** A comment that runs to line `j`, the first line from `i` on ending with `CommentClose`, is skipped as a whole. */
  lemma {:induction false} CommentRuns(ls: seq<string>, i: nat, j: nat, acc: seq<Sheet>)
    requires i <= j < |ls| && EndsWith(ls[j], CommentClose)
    requires forall k :: i <= k < j ==> !EndsWith(ls[k], CommentClose)
    ensures Comment(ls, i, acc) == Scan(ls, j + 1, acc)
    decreases j - i
  {
    if i < j {
      CommentRuns(ls, i + 1, j, acc);
    }
  }

  /** A comment with no closing line makes the whole parse fail. */
  lemma {:induction false} CommentUnclosed(ls: seq<string>, i: nat, acc: seq<Sheet>)
    requires forall k :: i <= k < |ls| ==> !EndsWith(ls[k], CommentClose)
    ensures Comment(ls, i, acc) == Failure(UnterminatedComment)
    decreases |ls| - i
  {
    if i < |ls| {
      CommentUnclosed(ls, i + 1, acc);
    }
  }

  /**
   * A line opening a comment is skipped together with every line up to the
   * first one ending with `CommentClose`, and the parse fails when there is
   * no such line.
   */
  lemma CommentSkipped(ls: seq<string>, i: nat, acc: seq<Sheet>)
    requires i < |ls| && StartsWith(ls[i], CommentOpen)
    ensures (forall k :: i <= k < |ls| ==> !EndsWith(ls[k], CommentClose)) ==> Scan(ls, i, acc) == Failure(UnterminatedComment)
    ensures forall j :: i <= j < |ls| && EndsWith(ls[j], CommentClose) && (forall k :: i <= k < j ==> !EndsWith(ls[k], CommentClose))
              ==> Scan(ls, i, acc) == Scan(ls, j + 1, acc)
  {
    if forall k :: i <= k < |ls| ==> !EndsWith(ls[k], CommentClose) {
      CommentUnclosed(ls, i, acc);
    }
    forall j | i <= j < |ls| && EndsWith(ls[j], CommentClose) && (forall k :: i <= k < j ==> !EndsWith(ls[k], CommentClose))
      ensures Scan(ls, i, acc) == Scan(ls, j + 1, acc)
    {
      CommentRuns(ls, i, j, acc);
    }
  }

  lemma SliceCons(w: seq<string>, ls: seq<string>, i: nat, h: nat)
    requires i < h <= |ls|
    ensures w + [ls[i]] + ls[i + 1..h] == w + ls[i..h]
  {
    assert ls[i..h] == [ls[i]] + ls[i + 1..h];
  }

  /** The header loop gathers every line up to the first with '{', then reads properties from the line after it. */
  lemma {:induction false} HeaderRuns(ls: seq<string>, widgets: seq<string>, i: nat, h: nat, acc: seq<Sheet>)
    requires i <= h < |ls| && '{' in ls[h]
    requires forall k :: i <= k < h ==> '{' !in ls[k]
    ensures Header(ls, widgets, i, acc) == Body(ls, Concat(widgets + ls[i..h] + [BeforeBrace(ls[h])]), [], h + 1, acc)
    decreases h - i
  {
    if i < h {
      HeaderRuns(ls, widgets + [ls[i]], i + 1, h, acc);
      SliceCons(widgets, ls, i, h);
    } else {
      assert widgets + ls[i..h] == widgets;
    }
  }

  /** With no '{' left, the header loop runs out of lines and the scan ends with what it has. */
  lemma {:induction false} HeaderUnclosed(ls: seq<string>, widgets: seq<string>, i: nat, acc: seq<Sheet>)
    requires i < |ls|
    requires forall k :: i <= k < |ls| ==> '{' !in ls[k]
    ensures Header(ls, widgets, i, acc) == Success(acc)
    decreases |ls| - i
  {
    if i + 1 < |ls| {
      HeaderUnclosed(ls, widgets + [ls[i]], i + 1, acc);
    }
  }

  /** The property loop reads every line up to the first with '}' into the map, in order. */
  lemma {:induction false} BodyWalk(ls: seq<string>, header: string, props: PropMap, i: nat, c: nat, acc: seq<Sheet>)
    requires UniqueKeys(props)
    requires i <= c <= |ls|
    requires forall k :: i <= k < c ==> '}' !in ls[k]
    ensures Body(ls, header, props, i, acc) == Body(ls, header, Collect(props, ReadLines(ls[i..c])), c, acc)
    decreases c - i
  {
    if i < c {
      var m := AddProp(props, SanatizeProp(ls[i]));
      BodyWalk(ls, header, m, i + 1, c, acc);
      ReadLinesCons(ls, i, c);
    } else {
      assert ReadLines(ls[i..c]) == [];
    }
  }

  /**
   * The property loop alone, from line `i` with the map `props`: whether it
   * reached a line holding '}', the map read by then, and the line it stopped at.
   */
  function PropsRun(ls: seq<string>, props: PropMap, i: nat): (r: (bool, PropMap, nat))
    requires UniqueKeys(props)
    ensures UniqueKeys(r.1) && i <= r.2
    ensures r.0 ==> r.2 < |ls| && '}' in ls[r.2]
    decreases |ls| - i
  {
    if i >= |ls| then (false, props, i)
    else if '}' in ls[i] then (true, props, i)
    else PropsRun(ls, AddProp(props, SanatizeProp(ls[i])), i + 1)
  }

  /** The block rule runs the property loop, then closes the block where that loop stopped. */
  lemma {:induction false} BodyRun(ls: seq<string>, header: string, props: PropMap, i: nat, acc: seq<Sheet>)
    requires UniqueKeys(props)
    ensures var r := PropsRun(ls, props, i);
      Body(ls, header, props, i, acc) == if r.0 then Body(ls, header, r.1, r.2, acc) else Success(acc)
    decreases |ls| - i
  {
    if i < |ls| && '}' !in ls[i] {
      BodyRun(ls, header, AddProp(props, SanatizeProp(ls[i])), i + 1, acc);
    }
  }

  /** A line without '}' is read into the map and the property loop goes on with the next one. */
  lemma BodyStep(ls: seq<string>, header: string, props: PropMap, i: nat, acc: seq<Sheet>)
    requires UniqueKeys(props) && i < |ls| && '}' !in ls[i]
    ensures Body(ls, header, props, i, acc) == Body(ls, header, AddProp(props, SanatizeProp(ls[i])), i + 1, acc)
  {
  }

  /** With no '}' left, the property loop runs out of lines and the block is dropped. */
  lemma {:induction false} BodyUnclosed(ls: seq<string>, header: string, props: PropMap, i: nat, acc: seq<Sheet>)
    requires UniqueKeys(props)
    requires forall k :: i <= k < |ls| ==> '}' !in ls[k]
    ensures Body(ls, header, props, i, acc) == Success(acc)
    decreases |ls| - i
  {
    if i < |ls| {
      BodyUnclosed(ls, header, AddProp(props, SanatizeProp(ls[i])), i + 1, acc);
    }
  }

  /**
   * A rule block from line `i`: header lines up to the first line `h` with
   * '{', property lines up to the first later line `c` with '}'. Its rows are
   * the header text split on ',' and stripped, each with the map the property
   * lines build, and they are emitted only when a line follows line `c`.
   */
  lemma BlockRead(ls: seq<string>, i: nat, h: nat, c: nat, acc: seq<Sheet>)
    requires i <= h < c < |ls| && ls[i] != "" && !StartsWith(ls[i], CommentOpen)
    requires '{' in ls[h] && forall k :: i <= k < h ==> '{' !in ls[k]
    requires '}' in ls[c] && forall k :: h < k < c ==> '}' !in ls[k]
    ensures Scan(ls, i, acc) ==
      if c + 1 < |ls| then Scan(ls, c + 1, acc + Expand(HeaderText(ls, i, h), CollectProps(ls[h + 1..c]))) else Success(acc)
  {
    HeaderRuns(ls, [], i, h, acc);
    assert [] + ls[i..h] == ls[i..h];
    BodyWalk(ls, HeaderText(ls, i, h), [], h + 1, c, acc);
  }

  // ----- the scan as the source runs it -----

  class QssParser {
    const content: string
    const lines: seq<string>
    const total: nat
    /** The cursor: index of the current line. */
    var line: nat
    var result: seq<Sheet>
    /** Whether `parse()` raised (IndexError from `skip_comments`), so that the constructor call fails. */
    var raised: bool

    /** `QssParser(content)` with the file's text already read: split into lines, then parsed. */
    constructor (content: string)
      ensures this.content == content && lines == Split(content, '\n') && total == |lines|
      ensures raised <==> ParseQss(content).Failure?
      ensures !raised ==> result == ParseQss(content).value
    {
      this.content := content;
      lines := Split(content, '\n');
      total := |Split(content, '\n')|;
      line := 0;
      result := [];
      raised := false;
      new;
      var ok := Parse();
      raised := !ok;
    }

    /** `self.current`. */
    function Current(): string
      reads this
      requires line < |lines|
    {
      lines[line]
    }

    /** `nextline()`: advance, and say whether a line is left. */
    method NextLine() returns (more: bool)
      modifies this`line
      ensures line == old(line) + 1 && more == (line < total)
    {
      line := line + 1;
      more := line < total;
    }

    /** `skip_comments()`: move past the first line ending in `CommentClose`; false where `self.current` would raise IndexError. */
    method SkipComments() returns (ok: bool)
      requires total == |lines| && line < total
      modifies this`line
      ensures old(line) < line <= total
      ensures ok ==> Comment(lines, old(line), result) == Scan(lines, line, result)
      ensures !ok ==> Comment(lines, old(line), result) == Failure(UnterminatedComment)
    {
      ghost var goal := Comment(lines, line, result);
      while line < total && !EndsWith(lines[line], CommentClose)
        invariant old(line) <= line <= total
        invariant Comment(lines, line, result) == goal
        decreases total - line
      {
        line := line + 1;
      }
      if line >= total {
        return false;
      }
      line := line + 1;
      return true;
    }

    /**
     * The header loop of `parse()`: gather lines up to the first one holding
     * '{', that one cut there; false when the lines run out first.
     */
    method ReadHeader() returns (found: bool, widgets: seq<string>)
      requires total == |lines| && line < total
      modifies this`line
      ensures old(line) <= line <= total
      ensures found ==> line < total
      ensures !found ==> line == total
      ensures Header(lines, [], old(line), result) == if found then Body(lines, Concat(widgets), [], line + 1, result) else Success(result)
    {
      ghost var goal := Header(lines, [], line, result);
      widgets := [];
      while '{' !in Current()
        invariant old(line) <= line < total
        invariant Header(lines, widgets, line, result) == goal
        decreases total - line
      {
        widgets := widgets + [Current()];
        var more := NextLine();
        if !more {
          return false, widgets;
        }
      }
      widgets := widgets + [BeforeBrace(Current())];
      return true, widgets;
    }

    /**
     * The property loop of `parse()`: read each line as a property up to the
     * first one holding '}'; false when the lines run out first.
     */
    method ReadProps() returns (found: bool, props: PropMap)
      requires total == |lines| && line < total
      modifies this`line
      ensures old(line) <= line <= total && UniqueKeys(props)
      ensures found ==> line < total && '}' in lines[line]
      ensures PropsRun(lines, [], old(line)) == (found, props, line)
    {
      ghost var ls, start := lines, line;
      ghost var goal := PropsRun(ls, [], start);
      props := [];
      while '}' !in Current()
        invariant lines == ls && start <= line < total && UniqueKeys(props)
        invariant PropsRun(ls, props, line) == goal
        decreases total - line
      {
        props := AddProp(props, SanatizeProp(Current()));
        var more := NextLine();
        if !more {
          return false, props;
        }
      }
      return true, props;
    }

    /** `for widget in widgets: self.result.append({widget: deepcopy(props)})` over the split header. */
    method AppendRows(header: string, props: PropMap)
      modifies this`result
      ensures result == old(result) + Expand(header, props)
    {
      // each row holds the map as a value, which is what `deepcopy` guarantees
      var selectors := Split(header, ',');
      ghost var rows := Expand(header, props);
      ghost var before := result;
      var i := 0;
      while i < |selectors|
        invariant 0 <= i <= |selectors|
        invariant result == before + rows[..i]
      {
        assert rows[i] == Sheet(Strip(selectors[i]), props);
        assert rows[..i + 1] == rows[..i] + [rows[i]];
        result := result + [Sheet(Strip(selectors[i]), props)];
        i := i + 1;
      }
      assert rows[..i] == rows;
    }

    /** One rule block of `parse()`, from its first header line to the line after its closing '}'. */
    method ReadBlock() returns (go: bool)
      requires total == |lines| && line < total
      modifies this`line, this`result
      ensures old(line) < line <= total
      ensures Header(lines, [], old(line), old(result)) == if go then Scan(lines, line, result) else Success(result)
    {
      var found, widgets := ReadHeader();
      if !found {
        return false;
      }
      var header := Concat(widgets);
      var more := NextLine();
      if !more {
        return false;
      }
      var props;
      ghost var start := line;
      found, props := ReadProps();
      assert Body(lines, header, [], start, result) == if found then Body(lines, header, props, line, result) else Success(result) by {
        BodyRun(lines, header, [], start, result);
      }
      if !found {
        return false;
      }
      more := NextLine();
      if !more {
        return false;
      }
      AppendRows(header, props);
      return true;
    }

    /** `parse()`: scan from the cursor to the end, appending to `result`. */
    method Parse() returns (ok: bool)
      requires total == |lines| && line <= total
      modifies this`line, this`result
      ensures ok <==> Scan(lines, old(line), old(result)).Success?
      ensures ok ==> result == Scan(lines, old(line), old(result)).value
    {
      ghost var goal := Scan(lines, line, result);
      while line < total
        invariant line <= total
        invariant Scan(lines, line, result) == goal
        decreases total - line
      {
        if StartsWith(Current(), CommentOpen) {
          ok := SkipComments();
          if !ok {
            return;
          }
          continue;
        }
        if Current() == "" {
          var more := NextLine();
          if !more {
            return true;
          }
          continue;
        }
        var go := ReadBlock();
        if !go {
          return true;
        }
        // the source's closing `if not self.nextline:` tests the method object, which is always true, so it never returns
      }
      return true;
    }
  }
}

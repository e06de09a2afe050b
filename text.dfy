/**
 * The handful of Python `str` operations the stylesheet code relies on:
 * `strip()`, `split(sep)`, `sep.join(...)`, `"".join(...)`, `startswith`,
 * `endswith`, `index` and the substring test `a in b`.
 */
module Text {

  /** Python's `str.isspace()` for one character: what `strip()` removes and what `\s` matches. */
  predicate IsSpace(c: char) {
    var n := c as int;
    n == 0x20 || 0x09 <= n <= 0x0D || 0x1C <= n <= 0x1F || n == 0x85 || n == 0xA0
    || n == 0x1680 || 0x2000 <= n <= 0x200A || n == 0x2028 || n == 0x2029
    || n == 0x202F || n == 0x205F || n == 0x3000
  }

  predicate AllSpace(s: string) {
    forall i :: 0 <= i < |s| ==> IsSpace(s[i])
  }

  /** Neither starts nor ends with whitespace: a fixed point of `strip()`. */
  predicate IsStripped(s: string) {
    s == [] || (!IsSpace(s[0]) && !IsSpace(s[|s| - 1]))
  }

  /** Python's `s.lstrip()`. */
  function LStrip(s: string): string {
    if s != [] && IsSpace(s[0]) then LStrip(s[1..]) else s
  }

  /** Python's `s.rstrip()`. */
  function RStrip(s: string): string {
    if s != [] && IsSpace(s[|s| - 1]) then RStrip(s[..|s| - 1]) else s
  }

  /** Python's `s.strip()`: the text between the leading and the trailing whitespace. */
  function Strip(s: string): string {
    RStrip(LStrip(s))
  }

  /** `lstrip()` removes a whitespace prefix and stops at the first other character. */
  lemma {:induction false} LStripShape(s: string)
    ensures var r := LStrip(s);
      |r| <= |s| && r == s[|s| - |r|..] && AllSpace(s[..|s| - |r|]) && (r == [] || !IsSpace(r[0]))
    decreases |s|
  {
    if s != [] && IsSpace(s[0]) {
      var t := s[1..];
      LStripShape(t);
      var r := LStrip(t);
      assert LStrip(s) == r;
      var n := |t| - |r|;
      assert s[n + 1..] == t[n..];
      var p := s[..n + 1];
      forall k | 0 <= k < |p|
        ensures IsSpace(p[k])
      {
        if k > 0 {
          assert p[k] == t[..n][k - 1];
        }
      }
    }
  }

  /** `rstrip()` removes a whitespace suffix and stops at the last other character. */
  lemma {:induction false} RStripShape(s: string)
    ensures var r := RStrip(s);
      |r| <= |s| && r == s[..|r|] && AllSpace(s[|r|..]) && (r == [] || !IsSpace(r[|r| - 1]))
    decreases |s|
  {
    if s != [] && IsSpace(s[|s| - 1]) {
      var t := s[..|s| - 1];
      RStripShape(t);
      var r := RStrip(s);
      assert r == RStrip(t);
      assert s[..|r|] == t[..|r|];
      assert s[|r|..] == t[|r|..] + [s[|s| - 1]];
    }
  }

  /** `strip()` leaves no whitespace at either end and never lengthens its input. */
  lemma StripStripped(s: string)
    ensures IsStripped(Strip(s)) && |Strip(s)| <= |s|
  {
    LStripShape(s);
    RStripShape(LStrip(s));
    var l := LStrip(s);
    var r := RStrip(l);
    if r != [] {
      assert r[0] == l[0];
    }
  }

  /** `strip()` keeps a contiguous slice of its input and removes only whitespace around it. */
  lemma StripTrims(s: string)
    ensures var r := Strip(s);
      exists i :: 0 <= i <= |s| - |r| && r == s[i..i + |r|] && AllSpace(s[..i]) && AllSpace(s[i + |r|..])
  {
    LStripShape(s);
    var l := LStrip(s);
    RStripShape(l);
    var r := RStrip(l);
    var i := |s| - |l|;
    assert s[i..][..|r|] == s[i..i + |r|];
    assert s[i + |r|..] == l[|r|..];
    assert r == s[i..i + |r|] && AllSpace(s[..i]) && AllSpace(s[i + |r|..]);
  }

  lemma {:induction false} LStripSkips(a: string, y: string)
    requires AllSpace(a)
    ensures LStrip(a + y) == LStrip(y)
    decreases |a|
  {
    if a != [] {
      assert IsSpace(a[0]) && AllSpace(a[1..]);
      assert (a + y)[0] == a[0] && (a + y)[1..] == a[1..] + y;
      assert LStrip(a + y) == LStrip(a[1..] + y);
      LStripSkips(a[1..], y);
    } else {
      assert a + y == y;
    }
  }

  lemma {:induction false} RStripSkips(y: string, b: string)
    requires AllSpace(b)
    ensures RStrip(y + b) == RStrip(y)
    decreases |b|
  {
    if b != [] {
      assert IsSpace(b[|b| - 1]) && AllSpace(b[..|b| - 1]);
      assert (y + b)[|y + b| - 1] == b[|b| - 1] && (y + b)[..|y + b| - 1] == y + b[..|b| - 1];
      assert RStrip(y + b) == RStrip(y + b[..|b| - 1]);
      RStripSkips(y, b[..|b| - 1]);
    } else {
      assert y + b == y;
    }
  }

  /** Whitespace around an already stripped text is exactly what `strip()` removes. */
  lemma StripPadded(a: string, x: string, b: string)
    requires AllSpace(a) && AllSpace(b) && IsStripped(x)
    ensures Strip(a + x + b) == x
  {
    assert a + x + b == a + (x + b);
    LStripSkips(a, x + b);
    if x == [] {
      assert x + b == b + [];
      LStripSkips(b, []);
      assert LStrip(a + x + b) == [];
    } else {
      assert (x + b)[0] == x[0];
      assert LStrip(x + b) == x + b;
      RStripSkips(x, b);
      assert RStrip(x) == x;
    }
  }

  /** `lstrip()` keeps a suffix of its input. */
  lemma LStripSuffix(s: string)
    ensures |LStrip(s)| <= |s| && LStrip(s) == s[|s| - |LStrip(s)|..]
  {
    LStripShape(s);
  }

  /** `rstrip()` keeps a prefix of its input. */
  lemma RStripPrefix(s: string)
    ensures |RStrip(s)| <= |s| && RStrip(s) == s[..|RStrip(s)|]
  {
    RStripShape(s);
  }

  /** `strip()` brings in no character its input lacks. */
  lemma StripKeeps(s: string, c: char)
    ensures c !in s ==> c !in Strip(s)
  {
    var l := LStrip(s);
    var r := RStrip(l);
    LStripSuffix(s);
    RStripPrefix(l);
    if c in r {
      var k :| 0 <= k < |r| && r[k] == c;
      assert l[k] == c;
      assert s[|s| - |l| + k] == c;
    }
  }

  /** Python's `s.index(c)`: the first position of `c`. */
  function IndexOf(s: string, c: char): (i: nat)
    requires c in s
    ensures i < |s| && s[i] == c && c !in s[..i]
  {
    if s[0] == c then 0
    else
      var j := IndexOf(s[1..], c);
      assert s[..j + 1] == [s[0]] + s[1..][..j];
      j + 1
  }

  /** The first position of `c` is the one with `c` there and nowhere before. */
  lemma {:induction false} IndexOfAt(s: string, c: char, i: nat)
    requires i < |s| && s[i] == c && c !in s[..i]
    ensures IndexOf(s, c) == i
  {
    if i > 0 {
      assert s[0] in s[..i];
      assert s[1..][..i - 1] == s[1..i];
      assert c !in s[1..][..i - 1];
      IndexOfAt(s[1..], c, i - 1);
    }
  }

  /** Python's `sep.join(parts)` for a one-character separator. */
  function Join(parts: seq<string>, sep: char): string {
    if parts == [] then ""
    else if |parts| == 1 then parts[0]
    else parts[0] + [sep] + Join(parts[1..], sep)
  }

  /** Python's `"".join(parts)`. */
  function Concat(parts: seq<string>): string {
    if parts == [] then "" else parts[0] + Concat(parts[1..])
  }

  /**
   * Python's `s.split(sep)` for a one-character separator: the pieces between
   * separators, empty ones included, never fewer than one.
   */
  function Split(s: string, sep: char): (parts: seq<string>)
    ensures |parts| >= 1
    decreases |s|
  {
    if sep in s then
      var i := IndexOf(s, sep);
      [s[..i]] + Split(s[i + 1..], sep)
    else [s]
  }

  /** The pieces hold no separator, and joining them with it gives back the text. */
  lemma {:induction false} SplitJoinsBack(s: string, sep: char)
    ensures forall k :: 0 <= k < |Split(s, sep)| ==> sep !in Split(s, sep)[k]
    ensures Join(Split(s, sep), sep) == s
    decreases |s|
  {
    if sep in s {
      var i := IndexOf(s, sep);
      var t := s[i + 1..];
      var rest := Split(t, sep);
      SplitJoinsBack(t, sep);
      var parts := [s[..i]] + rest;
      assert Split(s, sep) == parts;
      assert parts[1..] == rest;
      assert Join(parts, sep) == s[..i] + [sep] + Join(rest, sep);
      assert s == s[..i] + [sep] + t;
      forall k | 0 <= k < |parts| ensures sep !in parts[k] {
        if k > 0 {
          assert parts[k] == rest[k - 1];
        }
      }
    }
  }

  /** Joining the pieces with the separator gives back the text. */
  lemma JoinSplit(s: string, sep: char)
    ensures Join(Split(s, sep), sep) == s
  {
    SplitJoinsBack(s, sep);
  }

  /** A piece with no separator, then the separator: `split` gives that piece first. */
  lemma SplitCons(x: string, y: string, sep: char)
    requires sep !in x
    ensures Split(x + [sep] + y, sep) == [x] + Split(y, sep)
  {
    var s := x + [sep] + y;
    assert s[|x|] == sep;
    assert s[..|x|] == x;
    IndexOfAt(s, sep, |x|);
    assert s[|x| + 1..] == y;
  }

  /** Splitting two texts glued by the separator gives the pieces of each, in order. */
  lemma {:induction false} SplitAppend(x: string, y: string, sep: char)
    ensures Split(x + [sep] + y, sep) == Split(x, sep) + Split(y, sep)
    decreases |x|
  {
    if sep in x {
      var i := IndexOf(x, sep);
      var s := x + [sep] + y;
      assert s[..i] == x[..i];
      IndexOfAt(s, sep, i);
      assert s[i + 1..] == x[i + 1..] + [sep] + y;
      SplitAppend(x[i + 1..], y, sep);
    } else {
      SplitCons(x, y, sep);
    }
  }

  /** `split` undoes `join` when no piece holds the separator. */
  lemma {:induction false} SplitJoin(parts: seq<string>, sep: char)
    requires |parts| >= 1
    requires forall k :: 0 <= k < |parts| ==> sep !in parts[k]
    ensures Split(Join(parts, sep), sep) == parts
  {
    if |parts| > 1 {
      var s := Join(parts, sep);
      var tail := Join(parts[1..], sep);
      assert s == parts[0] + [sep] + tail;
      assert sep in s by { assert s[|parts[0]|] == sep; }
      var i := IndexOf(s, sep);
      assert s[..|parts[0]|] == parts[0];
      assert i == |parts[0]|;
      assert s[..i] == parts[0];
      assert s[i + 1..] == tail;
      SplitJoin(parts[1..], sep);
    } else {
      assert Join(parts, sep) == parts[0];
    }
  }

  /** `sep.join(s.split(sep)[1:])` is everything after the first separator, or "" when there is none. */
  lemma {:induction false} JoinTail(s: string, sep: char)
    ensures sep in s ==> Join(Split(s, sep)[1..], sep) == s[IndexOf(s, sep) + 1..]
    ensures sep !in s ==> Join(Split(s, sep)[1..], sep) == ""
  {
    if sep in s {
      var i := IndexOf(s, sep);
      var rest := Split(s[i + 1..], sep);
      assert Split(s, sep) == [s[..i]] + rest;
      assert ([s[..i]] + rest)[1..] == rest;
      JoinSplit(s[i + 1..], sep);
    } else {
      assert Split(s, sep) == [s];
      assert [s][1..] == [];
    }
  }

  predicate StartsWith(s: string, prefix: string) {
    |prefix| <= |s| && s[..|prefix|] == prefix
  }

  predicate EndsWith(s: string, suffix: string) {
    |suffix| <= |s| && s[|s| - |suffix|..] == suffix
  }

  /** Python's `t in s` on strings. */
  predicate IsSubstring(t: string, s: string) {
    exists i :: 0 <= i <= |s| && StartsWith(s[i..], t)
  }
}

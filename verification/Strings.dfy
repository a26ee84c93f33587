/** Splitting, joining and trimming of strings, as the standard library does it. */
module Strings {

  /** The pieces between the separators: always at least one. */
  function Split(s: string, sep: char): (parts: seq<string>)
    ensures |parts| >= 1
  {
    if s == "" then [""]
    else
      var rest := Split(s[1..], sep);
      if s[0] == sep then [""] + rest else [[s[0]] + rest[0]] + rest[1..]
  }

  function Join(parts: seq<string>, sep: char): string {
    if parts == [] then "" else if |parts| == 1 then parts[0] else parts[0] + ([sep] + Join(parts[1..], sep))
  }

  ghost predicate Free(s: string, c: char) { forall i :: 0 <= i < |s| ==> s[i] != c }

  ghost predicate AllFree(parts: seq<string>, c: char) { forall i :: 0 <= i < |parts| ==> Free(parts[i], c) }

  lemma {:induction false} SplitPartsFree(s: string, sep: char)
    ensures AllFree(Split(s, sep), sep)
  {
    if s != "" { SplitPartsFree(s[1..], sep); }
  }

  lemma {:induction false} SplitFirst(a: string, t: string, sep: char)
    requires Free(a, sep)
    ensures Split(a + ([sep] + t), sep) == [a] + Split(t, sep)
  {
    var s := a + ([sep] + t);
    if a == "" {
      assert s[1..] == t;
    } else {
      assert s[1..] == a[1..] + ([sep] + t);
      SplitFirst(a[1..], t, sep);
      assert [a[0]] + a[1..] == a;
    }
  }

  lemma {:induction false} SplitWhole(a: string, sep: char)
    requires Free(a, sep)
    ensures Split(a, sep) == [a]
  {
    if a != "" {
      SplitWhole(a[1..], sep);
      assert [a[0]] + a[1..] == a;
    }
  }

  /** Splitting undoes joining when no part contains the separator. */
  lemma {:induction false} SplitJoin(parts: seq<string>, sep: char)
    requires parts != [] && AllFree(parts, sep)
    ensures Split(Join(parts, sep), sep) == parts
  {
    if |parts| == 1 {
      SplitWhole(parts[0], sep);
    } else {
      SplitFirst(parts[0], Join(parts[1..], sep), sep);
      SplitJoin(parts[1..], sep);
    }
  }

  /** Joining undoes splitting. */
  lemma {:induction false} JoinSplit(s: string, sep: char)
    ensures Join(Split(s, sep), sep) == s
  {
    if s != "" {
      var rest := Split(s[1..], sep);
      JoinSplit(s[1..], sep);
      if s[0] == sep {
        assert ([""] + rest)[1..] == rest;
      } else {
        assert ([[s[0]] + rest[0]] + rest[1..])[1..] == rest[1..];
        assert s == [s[0]] + s[1..];
      }
    }
  }

  /** The characters with the Unicode property White_Space. */
  predicate IsWhitespace(c: char) {
    var u := c as int;
    || 0x09 <= u <= 0x0D || u == 0x20 || u == 0x85 || u == 0xA0 || u == 0x1680 || 0x2000 <= u <= 0x200A
    || u == 0x2028 || u == 0x2029 || u == 0x202F || u == 0x205F || u == 0x3000
  }

  function TrimStart(s: string): string {
    if s != "" && IsWhitespace(s[0]) then TrimStart(s[1..]) else s
  }

  function TrimEnd(s: string): string {
    if s != "" && IsWhitespace(s[|s| - 1]) then TrimEnd(s[..|s| - 1]) else s
  }

  function Trim(s: string): string { TrimEnd(TrimStart(s)) }

  /** A string with no whitespace at either end is left alone. */
  lemma TrimKeeps(s: string)
    requires s != "" && !IsWhitespace(s[0]) && !IsWhitespace(s[|s| - 1])
    ensures Trim(s) == s
  {
  }

  lemma {:induction false} TrimStartFree(s: string, c: char)
    requires Free(s, c)
    ensures Free(TrimStart(s), c)
  {
    if s != "" && IsWhitespace(s[0]) { TrimStartFree(s[1..], c); }
  }

  lemma {:induction false} TrimEndFree(s: string, c: char)
    requires Free(s, c)
    ensures Free(TrimEnd(s), c)
  {
    if s != "" && IsWhitespace(s[|s| - 1]) { TrimEndFree(s[..|s| - 1], c); }
  }

  lemma {:induction false} TrimEndStops(s: string)
    ensures TrimEnd(s) != "" ==> !IsWhitespace(TrimEnd(s)[|TrimEnd(s)| - 1])
  {
    if s != "" && IsWhitespace(s[|s| - 1]) { TrimEndStops(s[..|s| - 1]); }
  }

  /** Trimming adds no character and leaves no whitespace at the end. */
  lemma TrimInside(s: string, c: char)
    ensures Free(s, c) ==> Free(Trim(s), c)
    ensures Trim(s) != "" ==> !IsWhitespace(Trim(s)[|Trim(s)| - 1])
  {
    TrimEndStops(TrimStart(s));
    if Free(s, c) {
      TrimStartFree(s, c);
      TrimEndFree(TrimStart(s), c);
    }
  }

  ghost predicate Blank(s: string) { forall i :: 0 <= i < |s| ==> IsWhitespace(s[i]) }

  lemma {:induction false} TrimStartCuts(s: string) returns (a: string)
    ensures Blank(a) && s == a + TrimStart(s)
    ensures TrimStart(s) != "" ==> !IsWhitespace(TrimStart(s)[0])
  {
    a := "";
    if s != "" && IsWhitespace(s[0]) {
      a := TrimStartCuts(s[1..]);
      assert s == [s[0]] + s[1..];
      a := [s[0]] + a;
    }
  }

  lemma {:induction false} TrimEndCuts(s: string) returns (b: string)
    ensures Blank(b) && s == TrimEnd(s) + b
    ensures TrimEnd(s) != "" ==> !IsWhitespace(TrimEnd(s)[|TrimEnd(s)| - 1])
  {
    b := "";
    if s != "" && IsWhitespace(s[|s| - 1]) {
      b := TrimEndCuts(s[..|s| - 1]);
      assert s == s[..|s| - 1] + [s[|s| - 1]];
      b := b + [s[|s| - 1]];
    }
  }

  /** Trimming takes away whitespace at both ends, all of it, and nothing else. */
  lemma TrimCuts(s: string) returns (a: string, b: string)
    ensures Blank(a) && Blank(b) && s == a + (Trim(s) + b)
    ensures Trim(s) != "" ==> !IsWhitespace(Trim(s)[0]) && !IsWhitespace(Trim(s)[|Trim(s)| - 1])
  {
    a := TrimStartCuts(s);
    b := TrimEndCuts(TrimStart(s));
    if Trim(s) != "" { assert TrimStart(s)[0] == Trim(s)[0]; }
  }

  lemma {:induction false} TrimStartOf(a: string, core: string)
    requires Blank(a) && (core == "" || !IsWhitespace(core[0]))
    ensures TrimStart(a + core) == core
  {
    if a == "" {
      assert a + core == core;
    } else {
      assert (a + core)[1..] == a[1..] + core;
      TrimStartOf(a[1..], core);
    }
  }

  lemma {:induction false} TrimEndOf(core: string, b: string)
    requires Blank(b) && (core == "" || !IsWhitespace(core[|core| - 1]))
    ensures TrimEnd(core + b) == core
  {
    if b == "" {
      assert core + b == core;
    } else {
      assert (core + b)[..|core + b| - 1] == core + b[..|b| - 1];
      TrimEndOf(core, b[..|b| - 1]);
    }
  }

  /** A text with whitespace around it is found again. */
  lemma TrimFinds(a: string, core: string, b: string)
    requires Blank(a) && Blank(b) && core != "" && !IsWhitespace(core[0]) && !IsWhitespace(core[|core| - 1])
    ensures Trim(a + (core + b)) == core
  {
    TrimStartOf(a, core + b);
    TrimEndOf(core, b);
  }

  /** Blank, tab, line ends and the other Unicode spaces are whitespace; what signs, names and codes consist of is not. */
  lemma WhitespaceIs(c: char)
    ensures IsWhitespace(' ') && IsWhitespace('\t') && IsWhitespace('\n') && IsWhitespace('\r')
    ensures IsWhitespace('\U{A0}') && IsWhitespace('\U{2003}') && IsWhitespace('\U{3000}')
    ensures 33 <= c as int <= 126 ==> !IsWhitespace(c)
  {
  }
}

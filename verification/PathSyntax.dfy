/** Conversion of route paths from `:param` to `{param}` syntax. */
module PathSyntax {
  import opened Strings

  /** The Unicode alphanumeric test of the standard library; of it, only that the two separators fail matters. */
  datatype Alphabet = Alphabet(alphanumeric: char -> bool) {
    predicate Word(c: char) { alphanumeric(c) || c == '_' }
    predicate Sane() { !alphanumeric(':') && !alphanumeric('/') }
  }

  function WordLength(a: Alphabet, s: string): (n: nat)
    ensures n <= |s|
  {
    if s == "" || !a.Word(s[0]) then 0 else 1 + WordLength(a, s[1..])
  }

  function Convert(a: Alphabet, s: string): string
    decreases |s|
  {
    if s == "" then ""
    else if s[0] == ':' then
      var n := WordLength(a, s[1..]);
      "{" + s[1..1 + n] + "}" + Convert(a, s[1 + n..])
    else [s[0]] + Convert(a, s[1..])
  }

  lemma {:induction false} WordLengthSplit(a: Alphabet, w: string, rest: string)
    requires (forall i :: 0 <= i < |w| ==> a.Word(w[i])) && (rest == "" || !a.Word(rest[0]))
    ensures WordLength(a, w + rest) == |w|
  {
    if w == "" {
      assert w + rest == rest;
    } else {
      assert (w + rest)[1..] == w[1..] + rest;
      WordLengthSplit(a, w[1..], rest);
    }
  }

  /** A colon at `from` and the word that ends before `to`. */
  lemma ConvertColon(a: Alphabet, path: string, from: nat, to: nat)
    requires from < to <= |path| && path[from] == ':' && (to == |path| || !a.Word(path[to]))
    requires forall j :: from < j < to ==> a.Word(path[j])
    ensures Convert(a, path[from..]) == ("{" + path[from + 1..to] + "}") + Convert(a, path[to..])
  {
    var s, w := path[from..], path[from + 1..to];
    assert s[1..] == w + path[to..];
    WordLengthSplit(a, w, path[to..]);
    assert s[1..1 + |w|] == w && s[1 + |w|..] == path[to..];
  }

  lemma ConvertOther(a: Alphabet, path: string, from: nat)
    requires from < |path| && path[from] != ':'
    ensures Convert(a, path[from..]) == [path[from]] + Convert(a, path[from + 1..])
  {
    assert path[from..][1..] == path[from + 1..];
  }

  lemma Regroup(x: string, y: string, z: string)
    ensures (x + y) + z == x + (y + z)
  {
  }

  lemma WordRead(a: Alphabet, path: string, before: string, from: nat, to: nat)
    requires from < to <= |path| && path[from] == ':' && (to == |path| || !a.Word(path[to]))
    requires forall j :: from < j < to ==> a.Word(path[j])
    ensures before + ("{" + path[from + 1..to]) + "}" + Convert(a, path[to..]) == before + Convert(a, path[from..])
  {
    ConvertColon(a, path, from, to);
    Regroup(before, "{" + path[from + 1..to], "}");
    Regroup(before, "{" + path[from + 1..to] + "}", Convert(a, path[to..]));
  }

  lemma OtherRead(a: Alphabet, path: string, before: string, from: nat)
    requires from < |path| && path[from] != ':'
    ensures before + [path[from]] + Convert(a, path[from + 1..]) == before + Convert(a, path[from..])
  {
    ConvertOther(a, path, from);
    Regroup(before, [path[from]], Convert(a, path[from + 1..]));
  }

  lemma WordGrows(path: string, before: string, from: nat, i: nat)
    requires from < i < |path|
    ensures before + ("{" + path[from + 1..i]) + [path[i]] == before + ("{" + path[from + 1..i + 1])
  {
    assert path[from + 1..i + 1] == path[from + 1..i] + [path[i]];
  }

  method ConvertAxumPathToMatchit(a: Alphabet, path: string) returns (result: string)
    ensures result == Convert(a, path)
  {
    result := "";
    var i := 0;
    assert path[0..] == path;
    while i < |path|
      invariant i <= |path|
      invariant result + Convert(a, path[i..]) == Convert(a, path)
    {
      var ch := path[i];
      ghost var before, from := result, i;
      i := i + 1;
      if ch == ':' {
        result := result + "{";
        assert "{" + path[i..i] == "{";
        while i < |path| && a.Word(path[i])
          invariant from + 1 <= i <= |path|
          invariant forall j :: from < j < i ==> a.Word(path[j])
          invariant result == before + ("{" + path[from + 1..i])
        {
          WordGrows(path, before, from, i);
          result := result + [path[i]];
          i := i + 1;
        }
        WordRead(a, path, before, from, i);
        result := result + "}";
      } else {
        OtherRead(a, path, before, from);
        result := result + [ch];
      }
    }
    assert path[|path|..] == "";
  }

  // ---- Rendering of routes in the two syntaxes ----

  datatype Segment = Literal(text: string) | Param(name: string)

  ghost predicate ValidSegment(a: Alphabet, s: Segment) {
    match s
    case Literal(t) => Free(t, ':')
    case Param(n) => forall i :: 0 <= i < |n| ==> a.alphanumeric(n[i]) || n[i] == '_'
  }

  function Colon(s: Segment): string { if s.Literal? then s.text else ":" + s.name }

  function Brace(s: Segment): string { if s.Literal? then s.text else "{" + s.name + "}" }

  function Route(segments: seq<Segment>, render: Segment -> string): string {
    if segments == [] then ""
    else if |segments| == 1 then render(segments[0])
    else render(segments[0]) + ("/" + Route(segments[1..], render))
  }

  lemma {:induction false} ConvertLiteral(a: Alphabet, t: string, rest: string)
    requires Free(t, ':')
    ensures Convert(a, t + rest) == t + Convert(a, rest)
  {
    if t == "" {
      assert t + rest == rest;
    } else {
      assert (t + rest)[1..] == t[1..] + rest;
      ConvertLiteral(a, t[1..], rest);
      assert t == [t[0]] + t[1..];
    }
  }

  lemma ConvertSegment(a: Alphabet, s: Segment, rest: string)
    requires ValidSegment(a, s) && (rest == "" || !a.Word(rest[0]))
    ensures Convert(a, Colon(s) + rest) == Brace(s) + Convert(a, rest)
  {
    match s
    case Literal(t) => ConvertLiteral(a, t, rest);
    case Param(n) =>
      var text := Colon(s) + rest;
      assert text[1..] == n + rest;
      WordLengthSplit(a, n, rest);
      assert text[1..1 + |n|] == n && text[1 + |n|..] == rest;
  }

  /** Converting the colon rendering of a route gives exactly its brace rendering. */
  lemma {:induction false} ConvertCommutes(a: Alphabet, segments: seq<Segment>)
    requires a.Sane() && forall i :: 0 <= i < |segments| ==> ValidSegment(a, segments[i])
    ensures Convert(a, Route(segments, Colon)) == Route(segments, Brace)
  {
    if |segments| == 1 {
      ConvertSegment(a, segments[0], "");
      assert Colon(segments[0]) + "" == Colon(segments[0]) && Brace(segments[0]) + "" == Brace(segments[0]);
    } else if segments != [] {
      var rest := Route(segments[1..], Colon);
      ConvertSegment(a, segments[0], "/" + rest);
      ConvertLiteral(a, "/", rest);
      ConvertCommutes(a, segments[1..]);
    }
  }

  // ---- Every input ----

  function Colons(s: string): nat {
    if s == "" then 0 else (if s[0] == ':' then 1 else 0) + Colons(s[1..])
  }

  lemma {:induction false} WordIsColonFree(a: Alphabet, s: string)
    requires a.Sane()
    ensures Free(s[..WordLength(a, s)], ':')
  {
    if s != "" && a.Word(s[0]) {
      WordIsColonFree(a, s[1..]);
      assert s[..WordLength(a, s)] == [s[0]] + s[1..][..WordLength(a, s[1..])];
    }
  }

  lemma {:induction false} ColonsBehind(w: string, rest: string)
    requires Free(w, ':')
    ensures Colons(w + rest) == Colons(rest)
  {
    if w == "" {
      assert w + rest == rest;
    } else {
      assert (w + rest)[1..] == w[1..] + rest;
      ColonsBehind(w[1..], rest);
    }
  }

  /** No colon is left, and each colon of the input has become one pair of braces. */
  lemma {:induction false} ConvertShape(a: Alphabet, s: string)
    requires a.Sane()
    ensures Free(Convert(a, s), ':')
    ensures |Convert(a, s)| == |s| + Colons(s)
    decreases |s|
  {
    if s != "" {
      if s[0] == ':' {
        var n := WordLength(a, s[1..]);
        WordIsColonFree(a, s[1..]);
        assert s[1..][..n] == s[1..1 + n] && s[1..] == s[1..1 + n] + s[1 + n..];
        ColonsBehind(s[1..1 + n], s[1 + n..]);
        ConvertShape(a, s[1 + n..]);
      } else {
        ConvertShape(a, s[1..]);
      }
    }
  }

  lemma ConvertIdempotent(a: Alphabet, s: string)
    requires a.Sane()
    ensures Convert(a, Convert(a, s)) == Convert(a, s)
  {
    ConvertShape(a, s);
    var t := Convert(a, s);
    ConvertLiteral(a, t, "");
    assert t + "" == t;
  }
}

/** Expansion of `${NAME}` references in connection strings by repeated global replacement. */
module EnvExpansion {

  datatype Result = Expanded(text: string) | Unset(name: string)

  predicate NameStart(c: char) { 'A' <= c <= 'Z' || 'a' <= c <= 'z' || c == '_' }

  predicate NameChar(c: char) { NameStart(c) || '0' <= c <= '9' }

  /** Length of the longest prefix of name characters. */
  function NameLength(s: string): (n: nat)
    ensures n <= |s|
  {
    if s == "" || !NameChar(s[0]) then 0 else 1 + NameLength(s[1..])
  }

  datatype Match = NoMatch | At(name: string)

  /** The reference that starts at the beginning of `s`, if one does. */
  function MatchHere(s: string): (m: Match)
    ensures m.At? ==> |m.name| + 3 <= |s|
  {
    if |s| < 2 || s[0] != '$' || s[1] != '{' then NoMatch
    else
      var n := NameLength(s[2..]);
      if n > 0 && NameStart(s[2]) && 2 + n < |s| && s[2 + n] == '}' then At(s[2..2 + n]) else NoMatch
  }

  /** All references, scanning left to right without overlap. */
  function References(s: string): seq<string>
    decreases |s|
  {
    if s == "" then []
    else if MatchHere(s).At? then [MatchHere(s).name] + References(s[|MatchHere(s).name| + 3..])
    else References(s[1..])
  }

  function Reference(name: string): string { "${" + name + "}" }

  /** Every occurrence of `pattern`, leftmost first and without overlap, replaced. */
  function ReplaceAll(s: string, pattern: string, value: string): string
    requires pattern != ""
    decreases |s|
  {
    if s == "" then ""
    else if pattern <= s then value + ReplaceAll(s[|pattern|..], pattern, value)
    else [s[0]] + ReplaceAll(s[1..], pattern, value)
  }

  function ExpandFrom(text: string, names: seq<string>, env: map<string, string>): Result
    decreases |names|
  {
    if names == [] then Expanded(text)
    else if names[0] !in env then Unset(names[0])
    else ExpandFrom(ReplaceAll(text, Reference(names[0]), env[names[0]]), names[1..], env)
  }

  function Expand(input: string, env: map<string, string>): Result { ExpandFrom(input, References(input), env) }

  method ExpandEnvVars(input: string, env: map<string, string>) returns (r: Result)
    ensures r == Expand(input, env)
  {
    var result := input;
    var names := References(input);
    for i := 0 to |names|
      invariant ExpandFrom(result, names[i..], env) == Expand(input, env)
    {
      assert names[i..][1..] == names[i + 1..];
      if names[i] !in env { return Unset(names[i]); }
      result := ReplaceAll(result, Reference(names[i]), env[names[i]]);
    }
    return Expanded(result);
  }

  // ---- Templates: the text as its author meant it ----

  datatype Piece = Literal(text: string) | Variable(name: string)

  ghost predicate DollarFree(s: string) { forall i :: 0 <= i < |s| ==> s[i] != '$' }

  ghost predicate ValidName(s: string) { s != "" && NameStart(s[0]) && forall i :: 0 <= i < |s| ==> NameChar(s[i]) }

  ghost predicate ValidPiece(p: Piece) {
    match p
    case Literal(t) => DollarFree(t)
    case Variable(n) => ValidName(n)
  }

  ghost predicate ValidTemplate(t: seq<Piece>) { forall i :: 0 <= i < |t| ==> ValidPiece(t[i]) }

  function PieceText(p: Piece): string { if p.Literal? then p.text else Reference(p.name) }

  function Render(t: seq<Piece>): string { if t == [] then "" else PieceText(t[0]) + Render(t[1..]) }

  function VariableNames(t: seq<Piece>): seq<string> {
    if t == [] then [] else (if t[0].Variable? then [t[0].name] else []) + VariableNames(t[1..])
  }

  /** One simultaneous substitution, left to right. */
  ghost function Substitute(t: seq<Piece>, env: map<string, string>): string
    requires forall n :: n in VariableNames(t) ==> n in env
  {
    if t == [] then ""
    else
      (match t[0]
       case Literal(text) => text
       case Variable(n) => env[n]) + Substitute(t[1..], env)
  }

  /** The template with one variable bound to a text. */
  ghost function Bind(t: seq<Piece>, name: string, value: string): seq<Piece> {
    if t == [] then []
    else [if t[0] == Variable(name) then Literal(value) else t[0]] + Bind(t[1..], name, value)
  }

  // ---- Scanning and replacing on rendered templates ----

  lemma {:induction false} NameLengthOf(name: string, rest: string)
    requires forall i :: 0 <= i < |name| ==> NameChar(name[i])
    ensures NameLength(name + ("}" + rest)) == |name|
  {
    if name != "" {
      assert (name + ("}" + rest))[1..] == name[1..] + ("}" + rest);
      NameLengthOf(name[1..], rest);
    }
  }

  lemma MatchReference(name: string, rest: string)
    requires ValidName(name)
    ensures MatchHere(Reference(name) + rest) == At(name)
    ensures (Reference(name) + rest)[|name| + 3..] == rest
  {
    var s := Reference(name) + rest;
    assert s == "${" + (name + ("}" + rest));
    assert s[2..] == name + ("}" + rest);
    NameLengthOf(name, rest);
    assert s[2 + |name|] == '}';
    assert s[2..2 + |name|] == name;
  }

  lemma {:induction false} ReferencesSkipLiteral(text: string, rest: string)
    requires DollarFree(text)
    ensures References(text + rest) == References(rest)
  {
    if text == "" {
      assert text + rest == rest;
    } else {
      assert (text + rest)[1..] == text[1..] + rest;
      ReferencesSkipLiteral(text[1..], rest);
    }
  }

  /** The scan finds exactly the variables of the template, in order. */
  lemma {:induction false} ReferencesOfTemplate(t: seq<Piece>)
    requires ValidTemplate(t)
    ensures References(Render(t)) == VariableNames(t)
  {
    if t != [] {
      ReferencesOfTemplate(t[1..]);
      assert ValidPiece(t[0]);
      if t[0].Literal? {
        ReferencesSkipLiteral(t[0].text, Render(t[1..]));
      } else {
        MatchReference(t[0].name, Render(t[1..]));
      }
    }
  }

  /** No occurrence of `pattern` begins in `text`, whatever follows: no suffix of it begins like the pattern. */
  ghost predicate Clear(text: string, pattern: string) {
    forall i: nat :: i < |text| ==> !(text[i..] <= pattern) && !(pattern <= text[i..])
  }

  lemma DollarFreeIsClear(text: string, name: string)
    requires DollarFree(text)
    ensures Clear(text, Reference(name))
  {
    forall i: nat | i < |text| ensures !(text[i..] <= Reference(name)) && !(Reference(name) <= text[i..]) {
      assert text[i..][0] != Reference(name)[0];
    }
  }

  lemma ClearStart(text: string, rest: string, pattern: string)
    requires text != "" && Clear(text, pattern)
    ensures !(pattern <= text + rest)
  {
    var s := text + rest;
    assert text[0..] == text;
    assert |pattern| <= |text| ==> s[..|pattern|] == text[..|pattern|];
    assert s[..|text|] == text;
  }

  lemma ClearTail(text: string, pattern: string)
    requires text != "" && Clear(text, pattern)
    ensures Clear(text[1..], pattern)
  {
    forall i: nat | i < |text[1..]| ensures !(text[1..][i..] <= pattern) && !(pattern <= text[1..][i..]) {
      assert text[1..][i..] == text[i + 1..];
    }
  }

  lemma {:induction false} ReplaceSkipClear(text: string, rest: string, pattern: string, value: string)
    requires pattern != "" && Clear(text, pattern)
    ensures ReplaceAll(text + rest, pattern, value) == text + ReplaceAll(rest, pattern, value)
  {
    if text == "" {
      assert text + rest == rest;
    } else {
      assert (text + rest)[1..] == text[1..] + rest;
      ClearStart(text, rest, pattern);
      ClearTail(text, pattern);
      ReplaceSkipClear(text[1..], rest, pattern, value);
      assert text == [text[0]] + text[1..];
    }
  }

  /** One reference is a prefix of a text starting with another only if they are the same. */
  lemma ReferencePrefix(m: string, n: string, rest: string)
    requires ValidName(m) && ValidName(n) && Reference(n) <= Reference(m) + rest
    ensures m == n
  {
    MatchReference(m, rest);
    var s := Reference(m) + rest;
    assert s == Reference(n) + s[|Reference(n)|..];
    MatchReference(n, s[|Reference(n)|..]);
  }

  lemma ReplaceReference(m: string, rest: string, name: string, value: string)
    requires ValidName(m) && ValidName(name)
    ensures ReplaceAll(Reference(m) + rest, Reference(name), value) ==
            (if m == name then value else Reference(m)) + ReplaceAll(rest, Reference(name), value)
  {
    var s := Reference(m) + rest;
    if m == name {
      assert s[|Reference(name)|..] == rest;
    } else {
      if Reference(name) <= s { ReferencePrefix(m, name, rest); }
      var tail := "{" + m + "}";
      assert s[1..] == tail + rest && Reference(m) == "$" + tail;
      DollarFreeIsClear(tail, name);
      ReplaceSkipClear(tail, rest, Reference(name), value);
    }
  }

  /** The literals leave references to `name` alone, and variables have names. */
  ghost predicate ClearTemplate(t: seq<Piece>, name: string) {
    forall i :: 0 <= i < |t| ==>
      match t[i]
      case Literal(text) => Clear(text, Reference(name))
      case Variable(n) => ValidName(n)
  }

  lemma {:induction false} ReplaceBindsClear(t: seq<Piece>, name: string, value: string)
    requires ClearTemplate(t, name) && ValidName(name)
    ensures ReplaceAll(Render(t), Reference(name), value) == Render(Bind(t, name, value))
  {
    if t != [] {
      var rest := t[1..];
      ReplaceBindsClear(rest, name, value);
      assert Bind(t, name, value)[1..] == Bind(rest, name, value);
      if t[0].Literal? {
        ReplaceSkipClear(t[0].text, Render(rest), Reference(name), value);
      } else {
        ReplaceReference(t[0].name, Render(rest), name, value);
      }
    }
  }

  /** A global replacement binds one variable throughout, whatever the value. */
  lemma ReplaceBinds(t: seq<Piece>, name: string, value: string)
    requires ValidTemplate(t) && ValidName(name)
    ensures ReplaceAll(Render(t), Reference(name), value) == Render(Bind(t, name, value))
  {
    forall i | 0 <= i < |t| && t[i].Literal? ensures Clear(t[i].text, Reference(name)) {
      assert ValidPiece(t[i]);
      DollarFreeIsClear(t[i].text, name);
    }
    assert forall i :: 0 <= i < |t| ==> ValidPiece(t[i]);
    ReplaceBindsClear(t, name, value);
  }

  lemma {:induction false} ReplaceBySame(s: string, pattern: string)
    requires pattern != ""
    ensures ReplaceAll(s, pattern, pattern) == s
    decreases |s|
  {
    if s != "" {
      if pattern <= s {
        ReplaceBySame(s[|pattern|..], pattern);
        assert s == pattern + s[|pattern|..];
      } else {
        ReplaceBySame(s[1..], pattern);
        assert s == [s[0]] + s[1..];
      }
    }
  }

  lemma {:induction false} BindToReference(t: seq<Piece>, name: string)
    ensures Render(Bind(t, name, Reference(name))) == Render(t)
  {
    if t != [] {
      BindToReference(t[1..], name);
      assert Bind(t, name, Reference(name))[1..] == Bind(t[1..], name, Reference(name));
    }
  }

  // ---- Which values can be substituted ----

  /** The text leaves alone every reference whose replacement would change something. */
  ghost predicate ClearFor(env: map<string, string>, names: set<string>, text: string)
    requires names <= env.Keys
  {
    forall n :: n in names && env[n] != Reference(n) ==> Clear(text, Reference(n))
  }

  /**
   * No value of these variables contains a reference to one of them, or ends in a piece of text that begins one,
   * unless that variable stands for its own reference.
   */
  ghost predicate Inert(env: map<string, string>, names: set<string>)
    requires names <= env.Keys
  {
    forall m :: m in names ==> ClearFor(env, names, env[m])
  }

  ghost predicate GoodTemplate(env: map<string, string>, names: set<string>, t: seq<Piece>)
    requires names <= env.Keys
  {
    forall i :: 0 <= i < |t| ==>
      match t[i]
      case Literal(text) => ClearFor(env, names, text)
      case Variable(n) => ValidName(n)
  }

  lemma ReplaceBindsGood(t: seq<Piece>, name: string, env: map<string, string>, names: set<string>)
    requires names <= env.Keys && GoodTemplate(env, names, t) && name in names && ValidName(name)
    ensures ReplaceAll(Render(t), Reference(name), env[name]) == Render(Bind(t, name, env[name]))
  {
    if env[name] == Reference(name) {
      ReplaceBySame(Render(t), Reference(name));
      BindToReference(t, name);
    } else {
      ReplaceBindsClear(t, name, env[name]);
    }
  }

  lemma {:induction false} BindKeepsGood(t: seq<Piece>, name: string, env: map<string, string>, names: set<string>)
    requires names <= env.Keys && GoodTemplate(env, names, t) && name in names && Inert(env, names)
    ensures GoodTemplate(env, names, Bind(t, name, env[name]))
  {
    if t != [] { BindKeepsGood(t[1..], name, env, names); }
  }

  lemma {:induction false} BindRemoves(t: seq<Piece>, name: string, value: string, n: string)
    ensures n in VariableNames(Bind(t, name, value)) <==> n in VariableNames(t) && n != name
  {
    if t != [] {
      BindRemoves(t[1..], name, value, n);
      assert Bind(t, name, value)[1..] == Bind(t[1..], name, value);
    }
  }

  lemma {:induction false} SubstituteBound(t: seq<Piece>, name: string, env: map<string, string>)
    requires name in env && forall n :: n in VariableNames(t) ==> n in env
    ensures forall n :: n in VariableNames(Bind(t, name, env[name])) ==> n in env
    ensures Substitute(Bind(t, name, env[name]), env) == Substitute(t, env)
  {
    if t != [] {
      assert Bind(t, name, env[name])[1..] == Bind(t[1..], name, env[name]);
      SubstituteBound(t[1..], name, env);
    }
  }

  lemma {:induction false} NoVariablesLeft(t: seq<Piece>, env: map<string, string>)
    requires VariableNames(t) == []
    ensures Substitute(t, env) == Render(t)
  {
    if t != [] { NoVariablesLeft(t[1..], env); }
  }

  lemma NonEmptyHasMember(s: seq<string>)
    ensures s != [] ==> exists n :: n in s
  {
    if s != [] { assert s[0] in s; }
  }

  /** Processing a list of names that covers the variables of the template performs the substitution. */
  lemma {:induction false} ExpandCovering(t: seq<Piece>, list: seq<string>, env: map<string, string>, names: set<string>)
    requires names <= env.Keys && Inert(env, names) && GoodTemplate(env, names, t)
    requires forall i :: 0 <= i < |list| ==> ValidName(list[i]) && list[i] in names
    requires forall n :: n in VariableNames(t) ==> n in list
    ensures forall n :: n in VariableNames(t) ==> n in env
    ensures ExpandFrom(Render(t), list, env) == Expanded(Substitute(t, env))
    decreases |list|
  {
    if list == [] {
      NonEmptyHasMember(VariableNames(t));
      NoVariablesLeft(t, env);
    } else {
      var name := list[0];
      var bound := Bind(t, name, env[name]);
      ReplaceBindsGood(t, name, env, names);
      BindKeepsGood(t, name, env, names);
      forall n ensures n in VariableNames(bound) <==> n in VariableNames(t) && n != name {
        BindRemoves(t, name, env[name], n);
      }
      assert list == [name] + list[1..];
      ExpandCovering(bound, list[1..], env, names);
      forall n | n in VariableNames(t) ensures n in env { if n != name { assert n in VariableNames(bound); } }
      SubstituteBound(t, name, env);
    }
  }

  lemma {:induction false} ExpandStopsAtUnset(text: string, names: seq<string>, env: map<string, string>)
    ensures ExpandFrom(text, names, env).Unset? <==> exists n :: n in names && n !in env
    ensures ExpandFrom(text, names, env).Unset? ==>
              ExpandFrom(text, names, env).name in names && ExpandFrom(text, names, env).name !in env
    decreases |names|
  {
    if names != [] {
      assert names == [names[0]] + names[1..];
      if names[0] in env {
        ExpandStopsAtUnset(ReplaceAll(text, Reference(names[0]), env[names[0]]), names[1..], env);
        if n :| n in names && n !in env { assert n in names[1..]; }
      }
    }
  }

  lemma {:induction false} VariableNamesValid(t: seq<Piece>)
    requires ValidTemplate(t)
    ensures forall i :: 0 <= i < |VariableNames(t)| ==> ValidName(VariableNames(t)[i])
  {
    if t != [] {
      assert ValidPiece(t[0]);
      VariableNamesValid(t[1..]);
    }
  }

  ghost predicate UsesOnly(t: seq<Piece>, names: set<string>) {
    ValidTemplate(t) && forall n :: n in VariableNames(t) ==> n in names
  }

  /** The sequence of global replacements is one simultaneous substitution. */
  ghost predicate Substitutes(t: seq<Piece>, env: map<string, string>) {
    && (forall n :: n in VariableNames(t) ==> n in env)
    && Expand(Render(t), env) == Expanded(Substitute(t, env))
  }

  lemma InertSubstitutes(t: seq<Piece>, env: map<string, string>, names: set<string>)
    requires names <= env.Keys && Inert(env, names) && UsesOnly(t, names)
    ensures Substitutes(t, env)
  {
    ReferencesOfTemplate(t);
    VariableNamesValid(t);
    forall i | 0 <= i < |t| && t[i].Literal? ensures ClearFor(env, names, t[i].text) {
      assert ValidPiece(t[i]);
      forall n | n in names ensures Clear(t[i].text, Reference(n)) { DollarFreeIsClear(t[i].text, n); }
    }
    assert forall i :: 0 <= i < |t| ==> ValidPiece(t[i]);
    assert forall i :: 0 <= i < |VariableNames(t)| ==> VariableNames(t)[i] in VariableNames(t);
    ExpandCovering(t, VariableNames(t), env, names);
  }

  // ---- Values that are not inert ----

  /** A reference does not begin before another one and reach into it. */
  lemma NoOverlap(x: string, y: string, name: string)
    requires ValidName(name) && x != "" && !(Reference(name) <= x)
    ensures !(Reference(name) <= x + (Reference(name) + y))
  {
    var p := Reference(name);
    var s := x + (p + y);
    assert |p| <= |x| ==> s[..|p|] == x[..|p|];
    assert s[|x|] == '$';
    assert forall i :: 0 < i < |p| ==> p[i] != '$';
  }

  /** Occurrences of a reference do not overlap, so a replacement works on both sides of each separately. */
  lemma {:induction false} ReplaceAround(x: string, y: string, name: string, value: string)
    requires ValidName(name)
    ensures ReplaceAll(x + (Reference(name) + y), Reference(name), value)
         == ReplaceAll(x, Reference(name), value) + (value + ReplaceAll(y, Reference(name), value))
    decreases |x|
  {
    var p := Reference(name);
    var s := x + (p + y);
    if x == "" {
      assert s == p + y && s[|p|..] == y;
    } else if p <= x {
      assert s[|p|..] == x[|p|..] + (p + y);
      ReplaceAround(x[|p|..], y, name, value);
      var rest := value + ReplaceAll(y, p, value);
      assert value + (ReplaceAll(x[|p|..], p, value) + rest) == (value + ReplaceAll(x[|p|..], p, value)) + rest;
    } else {
      NoOverlap(x, y, name);
      assert s[1..] == x[1..] + (p + y);
      ReplaceAround(x[1..], y, name, value);
      var rest := value + ReplaceAll(y, p, value);
      assert [x[0]] + (ReplaceAll(x[1..], p, value) + rest) == ([x[0]] + ReplaceAll(x[1..], p, value)) + rest;
    }
  }

  lemma {:induction false} ReplaceLength(s: string, pattern: string, value: string)
    requires pattern != ""
    ensures |value| >= |pattern| ==> |ReplaceAll(s, pattern, value)| >= |s|
    ensures |value| <= |pattern| ==> |ReplaceAll(s, pattern, value)| <= |s|
    decreases |s|
  {
    if s != "" {
      if pattern <= s { ReplaceLength(s[|pattern|..], pattern, value); } else { ReplaceLength(s[1..], pattern, value); }
    }
  }

  lemma Middle(x: string, y: string, z: string)
    ensures |x + (y + z)| == |x| + |y| + |z| && (x + (y + z))[|x|..|x| + |y|] == y
  {
  }

  /** A reference that is replaced by something else, with anything around it, changes the text. */
  lemma ReplacementShows(a: string, pattern: string, value: string, c: string, e: string)
    requires pattern != "" && value != pattern
    requires |value| >= |pattern| ==> |c| >= |e|
    requires |value| <= |pattern| ==> |c| <= |e|
    ensures ReplaceAll(a, pattern, value) + (value + c) != a + (pattern + e)
  {
    ReplaceLength(a, pattern, value);
    Middle(ReplaceAll(a, pattern, value), value, c);
    Middle(a, pattern, e);
  }

  /** `rest` completes what begins at position `i` to a reference with something behind it. */
  lemma Complete(text: string, i: nat, name: string) returns (rest: string, behind: string)
    requires ValidName(name) && i < |text| && (text[i..] <= Reference(name) || Reference(name) <= text[i..])
    ensures DollarFree(rest) && text + rest == text[..i] + (Reference(name) + behind)
  {
    var p := Reference(name);
    if p <= text[i..] {
      rest, behind := "", text[i..][|p|..];
      assert text[i..] == p + behind;
    } else {
      rest, behind := p[|text[i..]|..], "";
      assert p == text[i..] + rest;
    }
    assert text == text[..i] + text[i..];
  }

  ghost function Completed(m: string, rest: string, n: string): seq<Piece> { [Variable(m), Literal(rest), Variable(n)] }

  lemma NamesOfFirst(p: Piece, t: seq<Piece>)
    ensures VariableNames([p] + t) == (if p.Variable? then [p.name] else []) + VariableNames(t)
  {
    assert ([p] + t)[1..] == t;
  }

  lemma SubstituteFirst(p: Piece, t: seq<Piece>, env: map<string, string>)
    requires (p.Variable? ==> p.name in env) && forall n :: n in VariableNames(t) ==> n in env
    ensures forall n :: n in VariableNames([p] + t) ==> n in env
    ensures Substitute([p] + t, env) == (if p.Variable? then env[p.name] else p.text) + Substitute(t, env)
  {
    assert ([p] + t)[1..] == t;
    NamesOfFirst(p, t);
  }

  lemma CompletedShape(env: map<string, string>, m: string, rest: string, n: string)
    requires m in env && n in env && ValidName(m) && ValidName(n) && DollarFree(rest)
    ensures var t := Completed(m, rest, n);
            && ValidTemplate(t) && VariableNames(t) == [m, n]
            && Substitute(t, env) == (env[m] + rest) + env[n]
  {
    var t := Completed(m, rest, n);
    assert ValidPiece(t[0]) && ValidPiece(t[1]) && ValidPiece(t[2]);
    var t2 := [Variable(n)] + [];
    var t1 := [Literal(rest)] + t2;
    assert t == [Variable(m)] + t1;
    NamesOfFirst(Variable(n), []);
    NamesOfFirst(Literal(rest), t2);
    NamesOfFirst(Variable(m), t1);
    SubstituteFirst(Variable(n), [], env);
    SubstituteFirst(Literal(rest), t2, env);
    SubstituteFirst(Variable(m), t1, env);
  }

  lemma ExpandTwo(text: string, m: string, n: string, env: map<string, string>)
    requires m in env && n in env
    ensures ExpandFrom(text, [m, n], env) ==
            Expanded(ReplaceAll(ReplaceAll(text, Reference(m), env[m]), Reference(n), env[n]))
  {
    assert [m, n][1..] == [n] && [n][1..] == [];
    var once := ReplaceAll(text, Reference(m), env[m]);
    assert ExpandFrom(once, [n], env) == ExpandFrom(ReplaceAll(once, Reference(n), env[n]), [], env);
  }

  lemma CompletedExpands(env: map<string, string>, m: string, rest: string, n: string)
    requires m in env && n in env && ValidName(m) && ValidName(n) && DollarFree(rest)
    ensures var z := if m == n then env[m] else Reference(n);
            Expand(Render(Completed(m, rest, n)), env)
            == Expanded(ReplaceAll((env[m] + rest) + z, Reference(n), env[n]))
  {
    var t := Completed(m, rest, n);
    CompletedShape(env, m, rest, n);
    ReferencesOfTemplate(t);
    ReplaceBinds(t, m, env[m]);
    BoundText(m, rest, n, env[m]);
    ExpandTwo(Render(t), m, n, env);
  }

  lemma BoundText(m: string, rest: string, n: string, value: string)
    ensures Render(Bind(Completed(m, rest, n), m, value)) == (value + rest) + if m == n then value else Reference(n)
  {
    var t := Completed(m, rest, n);
    var last := if m == n then Literal(value) else Variable(n);
    assert t[1..] == [Literal(rest), Variable(n)] && t[1..][1..] == [Variable(n)] && t[1..][1..][1..] == [];
    assert Bind(t[1..][1..], m, value) == [last];
    assert Bind(t[1..], m, value) == [Literal(rest), last];
    var b := [Literal(value), Literal(rest), last];
    assert Bind(t, m, value) == b;
    assert b[1..] == [Literal(rest), last] && b[1..][1..] == [last] && [last][1..] == [];
    assert Render([last]) == PieceText(last);
  }

  /** The completed reference is replaced, and that shows. */
  lemma CompletedDiffers(a: string, behind: string, n: string, w: string, z: string)
    requires ValidName(n) && w != Reference(n) && (z == w || z == Reference(n))
    ensures ReplaceAll(a + (Reference(n) + (behind + z)), Reference(n), w) != a + (Reference(n) + (behind + w))
  {
    var p := Reference(n);
    ReplaceAround(a, behind + z, n, w);
    if z == w {
      ReplaceLength(behind + z, p, w);
    } else {
      assert behind + z == behind + (p + "");
      ReplaceAround(behind, "", n, w);
      ReplaceLength(behind, p, w);
    }
    ReplacementShows(a, p, w, ReplaceAll(behind + z, p, w), behind + w);
  }

  /** Otherwise some template comes out differently: the text that completes the reference stands behind the value. */
  lemma NotInertBreaks(env: map<string, string>, m: string, n: string, i: nat) returns (t: seq<Piece>)
    requires m in env && n in env && ValidName(m) && ValidName(n) && env[n] != Reference(n)
    requires i < |env[m]| && (env[m][i..] <= Reference(n) || Reference(n) <= env[m][i..])
    ensures ValidTemplate(t) && VariableNames(t) == [m, n] && !Substitutes(t, env)
  {
    var rest, behind := Complete(env[m], i, n);
    t := Completed(m, rest, n);
    CompletedShape(env, m, rest, n);
    CompletedExpands(env, m, rest, n);
    var a := env[m][..i];
    var z := if m == n then env[m] else Reference(n);
    BehindCompleted(env[m] + rest, a, Reference(n), behind, z);
    BehindCompleted(env[m] + rest, a, Reference(n), behind, env[n]);
    CompletedDiffers(a, behind, n, env[n], z);
  }

  lemma BehindCompleted(s: string, a: string, p: string, behind: string, z: string)
    requires s == a + (p + behind)
    ensures s + z == a + (p + (behind + z))
  {
  }

  /**
   * Exactly when the values of some variables are inert, expansion is substitution for every template that uses only
   * these variables.
   */
  lemma ExpansionIsSubstitutionIff(env: map<string, string>, names: set<string>)
    requires names <= env.Keys && forall n :: n in names ==> ValidName(n)
    ensures Inert(env, names) <==> forall t :: UsesOnly(t, names) ==> Substitutes(t, env)
  {
    if Inert(env, names) {
      forall t | UsesOnly(t, names) ensures Substitutes(t, env) { InertSubstitutes(t, env, names); }
    } else {
      var m :| m in names && !ClearFor(env, names, env[m]);
      var n :| n in names && env[n] != Reference(n) && !Clear(env[m], Reference(n));
      var i: nat :| i < |env[m]| && (env[m][i..] <= Reference(n) || Reference(n) <= env[m][i..]);
      var t := NotInertBreaks(env, m, n, i);
      assert UsesOnly(t, names);
    }
  }

  /** In particular with values free of '$'; and expansion fails exactly when some referenced variable is unset. */
  lemma ExpansionIsSubstitution(t: seq<Piece>, env: map<string, string>)
    requires ValidTemplate(t)
    requires forall n :: n in VariableNames(t) && n in env ==> DollarFree(env[n])
    ensures Expand(Render(t), env).Unset? <==> exists n :: n in VariableNames(t) && n !in env
    ensures (forall n :: n in VariableNames(t) ==> n in env) ==> Substitutes(t, env)
  {
    ReferencesOfTemplate(t);
    ExpandStopsAtUnset(Render(t), VariableNames(t), env);
    if forall n :: n in VariableNames(t) ==> n in env {
      var names := set n | n in VariableNames(t);
      forall m, n | m in names && n in names ensures Clear(env[m], Reference(n)) { DollarFreeIsClear(env[m], n); }
      InertSubstitutes(t, env, names);
    }
  }

  // ---- Every input ----

  ghost predicate Occurs(pattern: string, s: string) {
    exists i: nat :: i <= |s| && pattern <= s[i..]
  }

  lemma {:induction false} NameLengthSound(s: string)
    ensures forall i :: 0 <= i < NameLength(s) ==> NameChar(s[i])
  {
    if s != "" && NameChar(s[0]) { NameLengthSound(s[1..]); }
  }

  /** What is matched is a reference to a name, standing at the beginning. */
  lemma MatchSound(s: string)
    requires MatchHere(s).At?
    ensures ValidName(MatchHere(s).name) && s == Reference(MatchHere(s).name) + s[|MatchHere(s).name| + 3..]
  {
    NameLengthSound(s[2..]);
    var n := NameLength(s[2..]);
    assert s[2..2 + n] == s[2..][..n];
    assert s == s[..2] + s[2..2 + n] + s[2 + n..2 + n + 1] + s[n + 3..];
    assert s[..2] == "${" && s[2 + n..2 + n + 1] == "}";
  }

  /** A match in front of another reference does not depend on it. */
  lemma MatchInFront(x: string, y: string, n: string)
    requires ValidName(n) && x != ""
    ensures MatchHere(x + (Reference(n) + y)) == MatchHere(x)
  {
    var s := x + (Reference(n) + y);
    if MatchHere(x).At? {
      var m := MatchHere(x).name;
      MatchSound(x);
      assert s == Reference(m) + (x[|m| + 3..] + (Reference(n) + y));
      MatchReference(m, x[|m| + 3..] + (Reference(n) + y));
    } else if MatchHere(s).At? {
      MatchSound(s);
      ReachesIn(x, y, n, MatchHere(s).name);
    }
  }

  lemma ReachesIn(x: string, y: string, n: string, m: string)
    requires ValidName(n) && ValidName(m) && x != "" && Reference(m) <= x + (Reference(n) + y)
    ensures MatchHere(x) == At(m)
  {
    var s, p := x + (Reference(n) + y), Reference(m);
    assert s[|x|] == '$' && forall i :: 0 < i < |p| ==> p[i] != '$';
    assert forall i :: 0 <= i < |p| ==> s[i] == p[i];
    assert |p| <= |x|;
    assert x == p + x[|p|..] by { assert x[..|p|] == s[..|p|]; }
    MatchReference(m, x[|p|..]);
  }

  /** The scan finds every reference, whatever stands around it. */
  lemma {:induction false} ReferencesAround(x: string, y: string, n: string)
    requires ValidName(n)
    ensures References(x + (Reference(n) + y)) == References(x) + ([n] + References(y))
    decreases |x|
  {
    var s := x + (Reference(n) + y);
    if x == "" {
      assert s == Reference(n) + y;
      MatchReference(n, y);
    } else {
      MatchInFront(x, y, n);
      if MatchHere(x).At? {
        var k := |MatchHere(x).name| + 3;
        assert s[k..] == x[k..] + (Reference(n) + y);
        ReferencesAround(x[k..], y, n);
      } else {
        assert s[1..] == x[1..] + (Reference(n) + y);
        ReferencesAround(x[1..], y, n);
      }
    }
  }

  lemma {:induction false} ReferencesOccur(s: string, n: string)
    requires n in References(s)
    ensures ValidName(n) && Occurs(Reference(n), s)
    decreases |s|
  {
    if MatchHere(s).At? {
      var m := MatchHere(s).name;
      MatchSound(s);
      assert s[0..] == s && Reference(m) <= s[0..];
      if n != m {
        ReferencesOccur(s[|m| + 3..], n);
        OccursBehind(Reference(n), s, |m| + 3);
      }
    } else {
      ReferencesOccur(s[1..], n);
      OccursBehind(Reference(n), s, 1);
    }
  }

  lemma OccursBehind(pattern: string, s: string, k: nat)
    requires k <= |s| && Occurs(pattern, s[k..])
    ensures Occurs(pattern, s)
  {
    var i: nat :| i <= |s[k..]| && pattern <= s[k..][i..];
    assert s[k..][i..] == s[k + i..];
  }

  /** The scan finds exactly the references that occur. */
  lemma ReferencesIff(s: string, n: string)
    ensures n in References(s) <==> ValidName(n) && Occurs(Reference(n), s)
  {
    if n in References(s) { ReferencesOccur(s, n); }
    if ValidName(n) && Occurs(Reference(n), s) {
      var p := Reference(n);
      var i: nat :| i <= |s| && p <= s[i..];
      assert s[i..] == p + s[i..][|p|..] && s[i..][|p|..] == s[i + |p|..];
      assert s == s[..i] + (p + s[i + |p|..]);
      ReferencesAround(s[..i], s[i + |p|..], n);
    }
  }

  /** The names that can be referenced: a letter or an underscore, then letters, digits and underscores, all ASCII. */
  lemma ValidNameIff(n: string)
    ensures ValidName(n) <==>
              && n != "" && !('0' <= n[0] <= '9')
              && forall i :: 0 <= i < |n| ==>
                   'A' <= n[i] <= 'Z' || 'a' <= n[i] <= 'z' || '0' <= n[i] <= '9' || n[i] == '_'
  {
  }

  /** For every input: expansion fails exactly when a reference that occurs in it is unset, and names such a one. */
  lemma ExpansionFailsIff(s: string, env: map<string, string>)
    ensures Expand(s, env).Unset? <==> exists n :: ValidName(n) && Occurs(Reference(n), s) && n !in env
    ensures Expand(s, env).Unset? ==>
              var n := Expand(s, env).name; ValidName(n) && Occurs(Reference(n), s) && n !in env
  {
    ExpandStopsAtUnset(s, References(s), env);
    forall n ensures n in References(s) <==> ValidName(n) && Occurs(Reference(n), s) { ReferencesIff(s, n); }
  }

  lemma {:induction false} ExpandPastSet(text: string, names: seq<string>, n: string, rest: seq<string>, env: map<string, string>)
    requires n !in env && forall m :: m in names ==> m in env
    ensures ExpandFrom(text, names + ([n] + rest), env) == Unset(n)
    decreases |names|
  {
    var all := names + ([n] + rest);
    if names == [] {
      assert all[0] == n;
    } else {
      assert all[1..] == names[1..] + ([n] + rest) && all[0] == names[0] && names[0] in names;
      ExpandPastSet(ReplaceAll(text, Reference(names[0]), env[names[0]]), names[1..], n, rest, env);
    }
  }

  /** The first unset reference from the left is the one reported. */
  lemma FirstUnsetIsReported(x: string, y: string, n: string, env: map<string, string>)
    requires ValidName(n) && n !in env
    requires forall m :: ValidName(m) && Occurs(Reference(m), x) ==> m in env
    ensures Expand(x + (Reference(n) + y), env) == Unset(n)
  {
    ReferencesAround(x, y, n);
    forall m | m in References(x) ensures m in env { ReferencesOccur(x, m); }
    ExpandPastSet(x + (Reference(n) + y), References(x), n, References(y), env);
  }

  /** A text without the pattern is left alone. */
  lemma {:induction false} ReplaceAbsent(s: string, pattern: string, value: string)
    requires pattern != "" && !Occurs(pattern, s)
    ensures ReplaceAll(s, pattern, value) == s
    decreases |s|
  {
    if s != "" {
      assert !(pattern <= s) by { assert s[0..] == s; }
      assert !Occurs(pattern, s[1..]) by { if Occurs(pattern, s[1..]) { OccursBehind(pattern, s, 1); } }
      ReplaceAbsent(s[1..], pattern, value);
      assert s == [s[0]] + s[1..];
    }
  }

  /** A value that itself contains a reference is expanded again by a later replacement. */
  lemma DollarValueIsExpandedTwice()
    ensures var t := [Variable("A"), Variable("B")];
            var env := map["A" := "${B}", "B" := "x"];
            Expand(Render(t), env) == Expanded("xx") && Substitute(t, env) == "${B}x"
  {
    var t, w := [Variable("A"), Variable("B")], [Variable("B"), Variable("B")];
    var env := map["A" := "${B}", "B" := "x"];
    assert t[1..] == [Variable("B")] && w[1..] == [Variable("B")] && [Variable("B")][1..] == [];
    assert ValidName("A") && ValidName("B") by {
      assert "A"[0] == 'A' && "B"[0] == 'B';
      assert NameStart('A') && NameStart('B');
    }
    assert ValidPiece(t[0]) && ValidPiece(t[1]) && ValidPiece(w[0]) && ValidPiece(w[1]);
    ReferencesOfTemplate(t);
    assert VariableNames(t) == ["A", "B"];
    FirstReplacement(t, w);
    SecondReplacement(w);
    assert ["A", "B"][1..] == ["B"] && ["B"][1..] == [];
    assert ExpandFrom("xx", [], env) == Expanded("xx");
    assert ExpandFrom(Render(w), ["B"], env) == Expanded("xx");
  }

  lemma FirstReplacement(t: seq<Piece>, w: seq<Piece>)
    requires t == [Variable("A"), Variable("B")] && w == [Variable("B"), Variable("B")] && ValidTemplate(t)
    ensures ReplaceAll(Render(t), Reference("A"), "${B}") == Render(w)
  {
    ReplaceBinds(t, "A", "${B}");
    assert Bind(t[1..], "A", "${B}") == [Variable("B")] by { assert t[1..][1..] == []; }
    var u := [Literal("${B}"), Variable("B")];
    assert Bind(t, "A", "${B}") == u;
    assert u[1..] == w[1..];
  }

  lemma SecondReplacement(w: seq<Piece>)
    requires w == [Variable("B"), Variable("B")] && ValidTemplate(w)
    ensures ReplaceAll(Render(w), Reference("B"), "x") == "xx"
  {
    ReplaceBinds(w, "B", "x");
    assert Bind(w[1..], "B", "x") == [Literal("x")] by { assert w[1..][1..] == []; }
    var u := [Literal("x"), Literal("x")];
    assert Bind(w, "B", "x") == u;
    assert u[1..] == [Literal("x")] && u[1..][1..] == [];
    assert Render(u[1..]) == "x";
  }
}

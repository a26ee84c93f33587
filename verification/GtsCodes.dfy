/** Error codes in GTS format: their validation and the accessor names derived from them. */
module GtsCodes {
  import opened Seqs
  import opened Strings

  datatype GtsError =
    | BadPrefix
    | EmptySegment
    | InvalidSegment(segment: string)
    | TooFewSegments(found: nat)
    | NotAVersion(segment: string)

  predicate Lower(c: char) { 'a' <= c <= 'z' }
  predicate IsDigit(c: char) { '0' <= c <= '9' }
  predicate CodeChar(c: char) { Lower(c) || IsDigit(c) || c == '_' }

  predicate ValidSegment(s: string) { s != "" && forall i :: 0 <= i < |s| ==> CodeChar(s[i]) }

  /** `v` followed by digits, possibly with dots between non-empty groups. */
  predicate IsVersion(s: string) {
    && |s| > 1 && s[0] == 'v'
    && (forall i :: 1 <= i < |s| ==> IsDigit(s[i]) || s[i] == '.')
    && (forall i :: 0 <= i < |Split(s[1..], '.')| ==> Split(s[1..], '.')[i] != "")
  }

  function Meaningful(segments: seq<string>): int {
    if |segments| > 0 && segments[0] == "gts" then |segments| - 1 else |segments|
  }

  ghost predicate ValidSegments(segments: seq<string>) {
    forall i :: 0 <= i < |segments| ==> ValidSegment(segments[i])
  }

  ghost predicate GoodLast(segments: seq<string>)
    requires segments != []
  {
    Meaningful(segments) >= 5 && IsVersion(segments[|segments| - 1])
  }

  /** What the validator accepts. */
  ghost predicate Accepts(code: string) {
    var parts := Split(code, '~');
    var last := Split(parts[|parts| - 1], '.');
    && "gts." <= code
    && ValidBefore(parts, |parts|)
    && GoodLast(last)
  }

  /** The first segment that is not valid, as an error. */
  ghost predicate FirstBad(segments: seq<string>, e: GtsError) {
    exists i :: 0 <= i < |segments| && ValidSegments(segments[..i]) && !ValidSegment(segments[i])
                && e == if segments[i] == "" then EmptySegment else InvalidSegment(segments[i])
  }

  ghost predicate ValidBefore(parts: seq<string>, n: int)
    requires n <= |parts|
  {
    forall i :: 0 <= i < n ==> ValidSegments(Split(parts[i], '.'))
  }

  /** What is wrong with one part of the chain; only the last one has to be complete. */
  ghost predicate PartFault(segments: seq<string>, isLast: bool, e: GtsError)
    requires segments != []
  {
    || FirstBad(segments, e)
    || (isLast && ValidSegments(segments) && Meaningful(segments) < 5 && e == TooFewSegments(Meaningful(segments)))
    || (isLast && ValidSegments(segments) && Meaningful(segments) >= 5 && !IsVersion(segments[|segments| - 1])
        && e == NotAVersion(segments[|segments| - 1]))
  }

  /** The error is about the first fault of the code, reading it from the left. */
  ghost predicate Explains(code: string, e: GtsError) {
    var parts := Split(code, '~');
    if !("gts." <= code) then e == BadPrefix
    else exists i :: 0 <= i < |parts| && ValidBefore(parts, i) && PartFault(Split(parts[i], '.'), i == |parts| - 1, e)
  }

  method CheckSegments(segments: seq<string>) returns (error: Option<GtsError>)
    ensures error.None? <==> ValidSegments(segments)
    ensures error.Some? ==> FirstBad(segments, error.value)
  {
    for i := 0 to |segments|
      invariant ValidSegments(segments[..i])
    {
      if segments[i] == "" { return Some(EmptySegment); }
      if !ValidSegment(segments[i]) { return Some(InvalidSegment(segments[i])); }
      assert segments[..i + 1] == segments[..i] + [segments[i]];
    }
    assert segments[..|segments|] == segments;
    return None;
  }

  /** The validator tests the prefix again on the first piece; that second test cannot fail. */
  lemma PrefixGivesFirst(code: string)
    requires "gts." <= code
    ensures Split(Split(code, '~')[0], '.')[0] == "gts"
  {
    var rest := code[4..];
    assert code == "gts." + rest;
    SplitKeepsPrefix("gts.", rest, '~');
    var first := Split(code, '~')[0];
    SplitFirst("gts", Split(rest, '~')[0], '.');
    assert first == "gts" + (['.'] + Split(rest, '~')[0]);
  }

  lemma {:induction false} SplitKeepsPrefix(a: string, t: string, sep: char)
    requires Free(a, sep)
    ensures Split(a + t, sep)[0] == a + Split(t, sep)[0]
  {
    if a == "" {
      assert a + t == t;
    } else {
      assert (a + t)[1..] == a[1..] + t;
      SplitKeepsPrefix(a[1..], t, sep);
    }
  }

  method CheckPart(segments: seq<string>, isLast: bool) returns (error: Option<GtsError>)
    requires segments != []
    ensures error.None? <==> ValidSegments(segments) && (isLast ==> GoodLast(segments))
    ensures error.Some? ==> PartFault(segments, isLast, error.value)
  {
    error := CheckSegments(segments);
    if error.None? && isLast {
      if Meaningful(segments) < 5 { return Some(TooFewSegments(Meaningful(segments))); }
      if !IsVersion(segments[|segments| - 1]) { return Some(NotAVersion(segments[|segments| - 1])); }
    }
  }

  method ValidateGtsFormat(code: string) returns (error: Option<GtsError>)
    ensures error.None? <==> Accepts(code)
    ensures error.Some? ==> Explains(code, error.value)
  {
    if !("gts." <= code) { return Some(BadPrefix); }
    var parts := Split(code, '~');
    for idx := 0 to |parts|
      invariant ValidBefore(parts, idx)
      invariant idx == |parts| ==> GoodLast(Split(parts[|parts| - 1], '.'))
    {
      // That the first part starts with the segment "gts" is known from the prefix: PrefixGivesFirst.
      error := CheckPart(Split(parts[idx], '.'), idx == |parts| - 1);
      if error.Some? { return; }
    }
    return None;
  }

  // ---- Derived names ----

  /** What follows the last `~`, or everything. */
  function LastGtx(s: string): string {
    if s == "" then ""
    else if s[|s| - 1] == '~' then ""
    else LastGtx(s[..|s| - 1]) + [s[|s| - 1]]
  }

  lemma {:induction false} SplitLast(a: string, b: string, sep: char)
    requires Free(b, sep)
    ensures |Split(a + ([sep] + b), sep)| > 1
    ensures Split(a + ([sep] + b), sep)[|Split(a + ([sep] + b), sep)| - 1] == b
  {
    var s := a + ([sep] + b);
    if a == "" {
      assert s[1..] == b;
      SplitWhole(b, sep);
    } else {
      assert s[1..] == a[1..] + ([sep] + b);
      SplitLast(a[1..], b, sep);
    }
  }

  /** Either the whole text, free of `~`, or what stands behind the last `~`. */
  lemma {:induction false} LastGtxBehind(s: string) returns (front: string)
    ensures Free(LastGtx(s), '~')
    ensures s == LastGtx(s) || s == front + (['~'] + LastGtx(s))
  {
    front := "";
    if s != "" {
      var shorter, c := s[..|s| - 1], s[|s| - 1];
      assert s == shorter + [c];
      if c == '~' {
        front := shorter;
      } else {
        front := LastGtxBehind(shorter);
        if shorter != LastGtx(shorter) { assert s == front + (['~'] + (LastGtx(shorter) + [c])); }
      }
    }
  }

  lemma LastGtxIsLastPart(s: string)
    ensures LastGtx(s) == Split(s, '~')[|Split(s, '~')| - 1]
  {
    var front := LastGtxBehind(s);
    if s == LastGtx(s) { SplitWhole(s, '~'); } else { SplitLast(front, LastGtx(s), '~'); }
  }

  lemma {:induction false} LastGtxExtends(front: string, t: string)
    requires Free(t, '~')
    ensures LastGtx(front + t) == LastGtx(front) + t
  {
    if t == "" {
      assert front + t == front;
    } else {
      var shorter := t[..|t| - 1];
      assert (front + t)[..|front + t| - 1] == front + shorter;
      LastGtxExtends(front, shorter);
      assert shorter + [t[|t| - 1]] == t;
    }
  }

  /**
   * The message of the validator offers `vN.M`, but a minor version is a segment of its own and is refused,
   * whatever stands before it.
   */
  lemma MinorVersionRefused(front: string, minor: string)
    requires minor != "" && forall i :: 0 <= i < |minor| ==> IsDigit(minor[i])
    ensures !Accepts(front + ("." + minor))
  {
    var code := front + ("." + minor);
    LastGtxExtends(front, "." + minor);
    LastGtxIsLastPart(code);
    SplitLast(LastGtx(front), minor, '.');
    assert LastGtx(code) == LastGtx(front) + (['.'] + minor);
    assert !IsVersion(minor);
  }

  // ---- Codes as they are written ----

  ghost predicate Word(s: string) {
    s != "" && forall i :: 0 <= i < |s| ==> 'a' <= s[i] <= 'z' || '0' <= s[i] <= '9' || s[i] == '_'
  }

  ghost predicate Version(s: string) {
    |s| >= 2 && s[0] == 'v' && forall i :: 1 <= i < |s| ==> '0' <= s[i] <= '9'
  }

  /** A chain of parts, each of them a list of segments. */
  ghost predicate Chain(chain: seq<seq<string>>) {
    && chain != []
    && (forall i :: 0 <= i < |chain| ==> chain[i] != [] && AllFree(chain[i], '.') && AllFree(chain[i], '~'))
  }

  function Parts(chain: seq<seq<string>>): seq<string> {
    seq(|chain|, i requires 0 <= i < |chain| => Join(chain[i], '.'))
  }

  function Code(chain: seq<seq<string>>): string { Join(Parts(chain), '~') }

  lemma {:induction false} JoinFree(parts: seq<string>, sep: char, c: char)
    requires AllFree(parts, c) && sep != c
    ensures Free(Join(parts, sep), c)
  {
    if |parts| > 1 { JoinFree(parts[1..], sep, c); }
  }

  lemma CodeSplits(chain: seq<seq<string>>)
    requires Chain(chain)
    ensures Split(Code(chain), '~') == Parts(chain)
    ensures forall i :: 0 <= i < |chain| ==> Split(Parts(chain)[i], '.') == chain[i]
  {
    forall i | 0 <= i < |chain| ensures Free(Parts(chain)[i], '~') && Split(Parts(chain)[i], '.') == chain[i] {
      JoinFree(chain[i], '.', '~');
      SplitJoin(chain[i], '.');
    }
    SplitJoin(Parts(chain), '~');
  }

  lemma VersionIff(s: string)
    requires Free(s, '.')
    ensures IsVersion(s) <==> Version(s)
  {
    if |s| >= 1 { SplitWhole(s[1..], '.'); }
  }

  lemma WordIff(s: string)
    ensures ValidSegment(s) <==> Word(s)
  {
  }

  /** Where the first part ends: at the end of the code, or at a tilde. */
  lemma FirstPartLeads(chain: seq<seq<string>>) returns (rest: string)
    requires Chain(chain)
    ensures Code(chain) == Join(chain[0], '.') + rest && (rest == "" || rest[0] == '~')
  {
    if |chain| == 1 {
      rest := "";
      assert Join(chain[0], '.') + "" == Join(chain[0], '.');
    } else {
      rest := ['~'] + Join(Parts(chain)[1..], '~');
    }
  }

  lemma DottedPrefix(first: string, tail: string)
    requires Free(first, '.')
    ensures "gts." <= first + (['.'] + tail) <==> first == "gts"
  {
    var s := first + (['.'] + tail);
    assert s[|first|] == '.' && forall i :: 0 <= i < |first| ==> s[i] == first[i] != '.';
    assert "gts." <= s ==> s[..3] == "gts" && s[3] == '.';
    if first == "gts" { assert s == "gts." + tail; }
  }

  lemma PrefixLetters(s: string)
    ensures "gts." <= s ==> |s| >= 4 && s[0] == 'g' && s[1] == 't' && s[2] == 's' && s[3] == '.'
  {
  }

  lemma UndottedPrefix(first: string, rest: string)
    requires Free(first, '.') && (rest == "" || rest[0] == '~')
    ensures !("gts." <= first + rest)
  {
    var s := first + rest;
    assert rest != "" ==> s[|first|] == '~';
    assert forall i :: 0 <= i < |first| ==> s[i] == first[i] != '.';
    PrefixLetters(s);
  }

  lemma PrefixIff(chain: seq<seq<string>>)
    requires Chain(chain)
    ensures "gts." <= Code(chain) <==> chain[0][0] == "gts" && |chain[0]| > 1
  {
    var rest := FirstPartLeads(chain);
    var first := chain[0][0];
    assert Free(first, '.');
    if |chain[0]| > 1 {
      var tail := Join(chain[0][1..], '.');
      assert (first + (['.'] + tail)) + rest == first + (['.'] + (tail + rest));
      DottedPrefix(first, tail + rest);
    } else {
      UndottedPrefix(first, rest);
    }
  }

  ghost predicate AllWords(chain: seq<seq<string>>) {
    forall i :: 0 <= i < |chain| ==> Words(chain[i])
  }

  ghost predicate Words(segments: seq<string>) { forall j :: 0 <= j < |segments| ==> Word(segments[j]) }

  lemma WordsIff(segments: seq<string>)
    ensures ValidSegments(segments) <==> Words(segments)
  {
    forall j | 0 <= j < |segments| ensures ValidSegment(segments[j]) <==> Word(segments[j]) { WordIff(segments[j]); }
  }

  lemma AllWordsIff(chain: seq<seq<string>>, parts: seq<string>)
    requires |parts| == |chain| && forall i :: 0 <= i < |chain| ==> Split(parts[i], '.') == chain[i]
    ensures ValidBefore(parts, |parts|) <==> AllWords(chain)
  {
    forall i | 0 <= i < |chain| ensures ValidSegments(Split(parts[i], '.')) <==> Words(chain[i]) { WordsIff(chain[i]); }
  }

  lemma AcceptsChain(chain: seq<seq<string>>, code: string, parts: seq<string>)
    requires chain != [] && Split(code, '~') == parts && |parts| == |chain|
    requires forall i :: 0 <= i < |chain| ==> chain[i] != [] && Split(parts[i], '.') == chain[i]
    ensures Accepts(code) <==> "gts." <= code && AllWords(chain) && GoodLast(chain[|chain| - 1])
  {
    AllWordsIff(chain, parts);
    AcceptsByParts(code, parts, chain[|chain| - 1]);
  }

  lemma AcceptsByParts(code: string, parts: seq<string>, last: seq<string>)
    requires parts == Split(code, '~') && last == Split(parts[|parts| - 1], '.')
    ensures Accepts(code) <==> "gts." <= code && ValidBefore(parts, |parts|) && GoodLast(last)
  {
  }

  lemma GoodLastIff(last: seq<string>)
    requires last != [] && AllFree(last, '.')
    ensures GoodLast(last) <==> |last| >= (if last[0] == "gts" then 6 else 5) && Version(last[|last| - 1])
  {
    VersionIff(last[|last| - 1]);
  }

  /**
   * Which codes are accepted, in terms of how they are written: the first part begins with `gts` and goes on, every
   * segment is a word, and the last part has five segments besides a leading `gts` and ends in `v` and digits.
   */
  lemma AcceptsIff(chain: seq<seq<string>>)
    requires Chain(chain)
    ensures var last := chain[|chain| - 1];
            Accepts(Code(chain)) <==>
              && chain[0][0] == "gts" && |chain[0]| > 1 && AllWords(chain)
              && |last| >= (if last[0] == "gts" then 6 else 5) && Version(last[|last| - 1])
  {
    CodeSplits(chain);
    PrefixIff(chain);
    AcceptsChain(chain, Code(chain), Parts(chain));
    GoodLastIff(chain[|chain| - 1]);
  }

  function Sanitize(s: string): string {
    seq(|s|, i requires 0 <= i < |s| => if s[i] == '-' || s[i] == '/' || s[i] == '~' then '_' else s[i])
  }

  function DeriveAlias(code: string): Option<string> {
    var parts := Split(LastGtx(code), '.');
    if |parts| < 5 then None
    else
      var ident := Sanitize(Join(parts[1..], '_'));
      Some(if ident != "" && IsDigit(ident[0]) then "_" + ident else ident)
  }

  /** The words that cannot serve as an identifier, by their first letters. */
  const KEYWORDS_A_E: seq<string> := [
    "_", "abstract", "as", "async", "await", "become", "box", "break", "const", "continue", "crate", "do", "dyn", "else",
    "enum", "extern" ]
  const KEYWORDS_F_R: seq<string> := [
    "false", "final", "fn", "for", "gen", "if", "impl", "in", "let", "loop", "macro", "match", "mod", "move", "mut",
    "override", "priv", "pub", "ref", "return" ]
  const KEYWORDS_S_Z: seq<string> := [
    "Self", "self", "static", "struct", "super", "trait", "true", "try", "type", "typeof", "unsafe", "unsized", "use",
    "virtual", "where", "while", "yield" ]

  predicate IsKeyword(w: string) { w in KEYWORDS_A_E || w in KEYWORDS_F_R || w in KEYWORDS_S_Z }

  lemma KeywordsEndInNoDigit(w: string)
    requires IsKeyword(w)
    ensures w != "" && !IsDigit(w[|w| - 1])
  {
    if w in KEYWORDS_A_E {
      var i :| 0 <= i < |KEYWORDS_A_E| && w == KEYWORDS_A_E[i];
    } else if w in KEYWORDS_F_R {
      var i :| 0 <= i < |KEYWORDS_F_R| && w == KEYWORDS_F_R[i];
    } else {
      var i :| 0 <= i < |KEYWORDS_S_Z| && w == KEYWORDS_S_Z[i];
    }
  }

  lemma {:induction false} JoinShape(parts: seq<string>)
    requires parts != [] && ValidSegments(parts)
    ensures var j := Join(parts, '_');
            && j != "" && (forall i :: 0 <= i < |j| ==> CodeChar(j[i]))
            && j[|j| - 1] == parts[|parts| - 1][|parts[|parts| - 1]| - 1]
  {
    if |parts| > 1 {
      JoinShape(parts[1..]);
      assert parts[1..][|parts| - 2] == parts[|parts| - 1];
    }
  }

  ghost predicate GoodIdentifier(name: string) {
    && name != "" && (forall i :: 0 <= i < |name| ==> CodeChar(name[i]))
    && !IsDigit(name[0]) && !IsKeyword(name)
  }

  /** A valid code always has a derived alias, and the alias is a usable identifier. */
  lemma AcceptedCodeHasAlias(code: string)
    requires Accepts(code)
    ensures DeriveAlias(code).Some? && GoodIdentifier(DeriveAlias(code).value)
  {
    LastGtxIsLastPart(code);
    var gtxs := Split(code, '~');
    var parts := Split(LastGtx(code), '.');
    assert ValidSegments(parts) by { assert ValidSegments(Split(gtxs[|gtxs| - 1], '.')); }
    assert ValidSegments(parts[1..]);
    JoinShape(parts[1..]);
    var joined := Join(parts[1..], '_');
    assert Sanitize(joined) == joined;
    var version := parts[|parts| - 1];
    assert parts[1..][|parts| - 2] == version;
    assert ValidSegment(version) && CodeChar(version[|version| - 1]);
    assert IsDigit(version[|version| - 1]);
    var alias := DeriveAlias(code).value;
    assert IsDigit(alias[|alias| - 1]);
    if IsKeyword(alias) { KeywordsEndInNoDigit(alias); }
  }

  function Underscored(s: string): string {
    seq(|s|, i requires 0 <= i < |s| => if s[i] == '.' then '_' else s[i])
  }

  lemma {:induction false} DotsBecomeUnderscores(s: string)
    ensures Join(Split(s, '.'), '_') == Underscored(s)
  {
    if s != "" {
      var rest := Split(s[1..], '.');
      DotsBecomeUnderscores(s[1..]);
      assert Underscored(s) == [if s[0] == '.' then '_' else s[0]] + Underscored(s[1..]);
      if s[0] == '.' {
        assert ([""] + rest)[1..] == rest;
      } else {
        assert ([[s[0]] + rest[0]] + rest[1..])[1..] == rest[1..];
      }
    }
  }

  /**
   * What the alias of a valid code says: the last part without its vendor, dots turned into underscores, with an
   * underscore in front if it would start with a digit.
   */
  lemma AliasText(code: string) returns (vendor: string, rest: string)
    requires Accepts(code)
    ensures LastGtx(code) == vendor + (['.'] + rest) && Free(vendor, '.') && rest != ""
    ensures DeriveAlias(code) == Some((if IsDigit(rest[0]) then "_" else "") + Underscored(rest))
  {
    var parts := Split(LastGtx(code), '.');
    SanitizeKeeps(code, parts);
    vendor, rest := DropFirstPart(LastGtx(code), parts);
    DotsBecomeUnderscores(rest);
    assert Join(parts[1..], '_') == Underscored(rest);
    assert |rest| == |Underscored(rest)| && "" + Underscored(rest) == Underscored(rest);
    assert IsDigit(Underscored(rest)[0]) <==> IsDigit(rest[0]);
  }

  lemma DropFirstPart(gtx: string, parts: seq<string>) returns (first: string, rest: string)
    requires parts == Split(gtx, '.') && |parts| > 1
    ensures gtx == first + (['.'] + rest) && Free(first, '.') && Split(rest, '.') == parts[1..]
  {
    first, rest := parts[0], Join(parts[1..], '.');
    JoinSplit(gtx, '.');
    SplitPartsFree(gtx, '.');
    SplitJoin(parts[1..], '.');
  }

  lemma SanitizeKeeps(code: string, parts: seq<string>)
    requires Accepts(code) && parts == Split(LastGtx(code), '.')
    ensures |parts| >= 5 && Join(parts[1..], '_') != "" && Sanitize(Join(parts[1..], '_')) == Join(parts[1..], '_')
  {
    LastGtxIsLastPart(code);
    var gtxs := Split(code, '~');
    assert ValidSegments(parts) by { assert ValidSegments(Split(gtxs[|gtxs| - 1], '.')); }
    JoinShape(parts[1..]);
  }

  // ---- Short names of a catalogue ----

  datatype Entry = Entry(code: string, alias: Option<string>)

  datatype Names = Short(names: seq<string>) | Underivable(code: string) | Collision(name: string, codes: seq<string>)

  function ShortName(e: Entry): Option<string> { if e.alias.Some? then e.alias else DeriveAlias(e.code) }

  ghost predicate Distinct(entries: seq<Entry>) {
    forall i, j :: 0 <= i < j < |entries| ==> ShortName(entries[i]) != ShortName(entries[j])
  }

  ghost predicate Derivable(entries: seq<Entry>) {
    forall i :: 0 <= i < |entries| ==> ShortName(entries[i]).Some?
  }

  /** The codes that would all be reached under one name, in entry order. */
  ghost function CodesUnder(entries: seq<Entry>, name: string): seq<string> {
    if entries == [] then []
    else
      var last := |entries| - 1;
      CodesUnder(entries[..last], name) + if ShortName(entries[last]) == Some(name) then [entries[last].code] else []
  }

  lemma {:induction false} NamedHasCode(entries: seq<Entry>, i: nat, name: string)
    requires i < |entries| && ShortName(entries[i]) == Some(name)
    ensures |CodesUnder(entries, name)| >= 1
  {
    if i < |entries| - 1 { NamedHasCode(entries[..|entries| - 1], i, name); }
  }

  lemma {:induction false} CodeHasNamed(entries: seq<Entry>, name: string) returns (i: nat)
    requires |CodesUnder(entries, name)| >= 1
    ensures i < |entries| && ShortName(entries[i]) == Some(name)
  {
    i := |entries| - 1;
    if ShortName(entries[i]) != Some(name) { i := CodeHasNamed(entries[..i], name); }
  }

  lemma {:induction false} TwoCodesCollide(entries: seq<Entry>, name: string) returns (i: nat, j: nat)
    requires |CodesUnder(entries, name)| > 1
    ensures i < j < |entries| && ShortName(entries[i]) == ShortName(entries[j]) == Some(name)
  {
    j := |entries| - 1;
    if ShortName(entries[j]) == Some(name) {
      i := CodeHasNamed(entries[..j], name);
    } else {
      i, j := TwoCodesCollide(entries[..j], name);
    }
  }

  lemma {:induction false} CollidersShareCodes(entries: seq<Entry>, i: nat, j: nat, name: string)
    requires i < j < |entries| && ShortName(entries[i]) == ShortName(entries[j]) == Some(name)
    ensures |CodesUnder(entries, name)| > 1
  {
    var front := entries[..|entries| - 1];
    if j < |entries| - 1 { CollidersShareCodes(front, i, j, name); } else { NamedHasCode(front, i, name); }
  }

  /** The table built from some entries: every name in use, with its codes. */
  ghost predicate Collected(entries: seq<Entry>, codes: map<string, seq<string>>) {
    && Derivable(entries)
    && (forall name :: name in codes <==> CodesUnder(entries, name) != [])
    && (forall name :: name in codes ==> codes[name] == CodesUnder(entries, name))
  }

  method CollectNames(entries: seq<Entry>) returns (failed: Option<string>, codes: map<string, seq<string>>)
    ensures failed.None? <==> Derivable(entries)
    ensures failed.None? ==> Collected(entries, codes)
    ensures failed.Some? ==> exists i :: 0 <= i < |entries| && entries[i].code == failed.value && ShortName(entries[i]).None?
  {
    codes := map[];
    for i := 0 to |entries|
      invariant Collected(entries[..i], codes)
    {
      var short := ShortName(entries[i]);
      if short.None? { return Some(entries[i].code), codes; }
      var earlier := if short.value in codes then codes[short.value] else [];
      codes := codes[short.value := earlier + [entries[i].code]];
      assert entries[..i + 1][..i] == entries[..i];
    }
    assert entries[..|entries|] == entries;
    return None, codes;
  }

  /**
   * Succeeds exactly when every name can be had and no two are equal; the names then come in entry order. A
   * collision names all the codes behind the name.
   */
  method ComputeShortNames(entries: seq<Entry>) returns (r: Names)
    ensures r.Short? <==> Derivable(entries) && Distinct(entries)
    ensures r.Short? ==> |r.names| == |entries| && forall i :: 0 <= i < |entries| ==> Some(r.names[i]) == ShortName(entries[i])
    ensures r.Short? ==> forall i :: 0 <= i < |entries| ==>
              if entries[i].alias.Some? then r.names[i] == entries[i].alias.value
              else DeriveAlias(entries[i].code) == Some(r.names[i])
    ensures r.Short? ==> NoDuplicates(r.names)
    ensures r.Underivable? <==> !Derivable(entries)
    ensures r.Collision? ==> r.codes == CodesUnder(entries, r.name) && |r.codes| > 1
  {
    var failed, codes := CollectNames(entries);
    if failed.Some? { return Underivable(failed.value); }
    var order := SomeOrder(codes.Keys);
    for k := 0 to |order|
      invariant forall m :: 0 <= m < k ==> order[m] in codes && |codes[order[m]]| <= 1
    {
      var name := order[k];
      assert name in codes.Keys;
      if |codes[name]| > 1 {
        var i, j := TwoCodesCollide(entries, name);
        return Collision(name, codes[name]);
      }
    }
    forall i: nat, j: nat | i < j < |entries| && ShortName(entries[i]) == ShortName(entries[j])
      ensures exists name :: name in codes.Keys && |codes[name]| > 1
    {
      CollidersShareCodes(entries, i, j, ShortName(entries[i]).value);
      assert ShortName(entries[i]).value in codes.Keys;
    }
    return Short(seq(|entries|, i requires 0 <= i < |entries| => ShortName(entries[i]).value));
  }
}

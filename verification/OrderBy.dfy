/** Sort orders: their signed-token text, their reading as row comparators, and their reversal. */
module OrderBy {
  import opened Strings
  import opened Seqs

  datatype SortDir = Asc | Desc {
    function Reverse(): SortDir { if this == Asc then Desc else Asc }
  }

  datatype OrderKey = OrderKey(field: string, dir: SortDir)

  // ---- Signed tokens ----

  datatype ParseResult = Parsed(keys: seq<OrderKey>) | InvalidOrderByField(text: string)

  function Token(k: OrderKey): string { [if k.dir == Asc then '+' else '-'] + k.field }

  function Tokens(keys: seq<OrderKey>): seq<string> {
    seq(|keys|, i requires 0 <= i < |keys| => Token(keys[i]))
  }

  function ToSignedTokens(keys: seq<OrderKey>): string { Join(Tokens(keys), ',') }

  /** Direction and name of a non-empty token; a token without a sign is ascending. */
  function ReadToken(t: string): OrderKey
    requires t != ""
  {
    if t[0] == '+' then OrderKey(t[1..], Asc)
    else if t[0] == '-' then OrderKey(t[1..], Desc)
    else OrderKey(t, Asc)
  }

  /** The strict reading of a list of segments: blank ones are skipped, a lone sign is an error. */
  function Strict(segs: seq<string>): ParseResult {
    if segs == [] then Parsed([])
    else
      var seg := Trim(segs[0]);
      if seg == "" then Strict(segs[1..])
      else if ReadToken(seg).field == "" then InvalidOrderByField(seg)
      else
        var rest := Strict(segs[1..]);
        if rest.Parsed? then Parsed([ReadToken(seg)] + rest.keys) else rest
  }

  function FromSigned(signed: string): ParseResult {
    var r := Strict(Split(signed, ','));
    if r == Parsed([]) then InvalidOrderByField("empty order") else r
  }

  lemma {:induction false} StrictAppend(a: seq<string>, b: seq<string>)
    ensures Strict(a + b) == if Strict(a).InvalidOrderByField? then Strict(a)
                             else if Strict(b).InvalidOrderByField? then Strict(b)
                             else Parsed(Strict(a).keys + Strict(b).keys)
  {
    if a == [] {
      assert a + b == b;
    } else {
      assert (a + b)[1..] == a[1..] + b;
      StrictAppend(a[1..], b);
    }
  }

  method FromSignedTokens(signed: string) returns (r: ParseResult)
    ensures r == FromSigned(signed)
  {
    var out: seq<OrderKey> := [];
    var segs := Split(signed, ',');
    for i := 0 to |segs|
      invariant Strict(segs[..i]) == Parsed(out)
    {
      assert segs[..i + 1] == segs[..i] + [segs[i]];
      assert segs == segs[..i + 1] + segs[i + 1..];
      StrictAppend(segs[..i], [segs[i]]);
      StrictAppend(segs[..i + 1], segs[i + 1..]);
      var seg := Trim(segs[i]);
      if seg == "" { continue; }
      var key := ReadToken(seg);
      if key.field == "" { return InvalidOrderByField(seg); }
      out := out + [key];
    }
    assert segs[..|segs|] == segs;
    if out == [] { return InvalidOrderByField("empty order"); }
    return Parsed(out);
  }

  /** The lenient reading used for comparison: a lone sign is skipped like a blank segment. */
  function Lenient(segs: seq<string>): seq<OrderKey> {
    if segs == [] then []
    else
      var seg := Trim(segs[0]);
      (if seg == "" || ReadToken(seg).field == "" then [] else [ReadToken(seg)]) + Lenient(segs[1..])
  }

  predicate EqualsSignedTokens(keys: seq<OrderKey>, signed: string) {
    var theirs := Lenient(Split(signed, ','));
    && |theirs| == |keys|
    && forall i :: 0 <= i < |keys| ==> keys[i].field == theirs[i].field && keys[i].dir == theirs[i].dir
  }

  /** Orders whose text can be read back: fields non-empty, comma-free, not ending in whitespace. */
  ghost predicate Printable(keys: seq<OrderKey>) {
    keys != [] && forall i :: 0 <= i < |keys| ==> PrintableField(keys[i].field)
  }

  ghost predicate PrintableField(f: string) { f != "" && Free(f, ',') && !IsWhitespace(f[|f| - 1]) }

  lemma {:induction false} StrictReadsTokens(keys: seq<OrderKey>)
    requires forall i :: 0 <= i < |keys| ==> PrintableField(keys[i].field)
    ensures Strict(Tokens(keys)) == Parsed(keys)
  {
    if keys != [] {
      assert Tokens(keys)[1..] == Tokens(keys[1..]);
      StrictReadsTokens(keys[1..]);
      var t := Token(keys[0]);
      assert t[|t| - 1] == keys[0].field[|keys[0].field| - 1];
      TrimKeeps(t);
      assert t[1..] == keys[0].field;
    }
  }

  lemma {:induction false} StrictFieldsPrintable(segs: seq<string>)
    requires AllFree(segs, ',')
    ensures Strict(segs).Parsed? ==>
              forall i :: 0 <= i < |Strict(segs).keys| ==> PrintableField(Strict(segs).keys[i].field)
  {
    if segs != [] {
      StrictFieldsPrintable(segs[1..]);
      TrimInside(segs[0], ',');
    }
  }

  /** An order survives printing and parsing exactly when it is printable. */
  lemma SignedTokensRoundTrip(keys: seq<OrderKey>)
    ensures FromSigned(ToSignedTokens(keys)) == Parsed(keys) <==> Printable(keys)
  {
    if Printable(keys) {
      StrictReadsTokens(keys);
      SplitJoin(Tokens(keys), ',');
    }
    if FromSigned(ToSignedTokens(keys)) == Parsed(keys) {
      SplitPartsFree(ToSignedTokens(keys), ',');
      StrictFieldsPrintable(Split(ToSignedTokens(keys), ','));
    }
  }

  lemma {:induction false} LenientAgrees(segs: seq<string>)
    ensures Strict(segs).Parsed? ==> Lenient(segs) == Strict(segs).keys
    ensures Strict(segs).Parsed? <==> forall i :: 0 <= i < |segs| ==> !LoneSign(segs[i])
  {
    if segs != [] { LenientAgrees(segs[1..]); }
  }

  predicate LoneSign(seg: string) { Trim(seg) == "+" || Trim(seg) == "-" }

  /** Whenever a text parses, comparing with it and comparing with the parsed order are the same. */
  lemma EqualsIffParsedEqual(keys: seq<OrderKey>, signed: string)
    requires FromSigned(signed).Parsed?
    ensures EqualsSignedTokens(keys, signed) <==> FromSigned(signed).keys == keys
  {
    LenientAgrees(Split(signed, ','));
    var theirs := Lenient(Split(signed, ','));
    if EqualsSignedTokens(keys, signed) {
      assert forall i :: 0 <= i < |keys| ==> keys[i] == theirs[i];
    }
  }

  /** A text parses exactly when some segment names a field and no segment is a lone sign. */
  lemma ParsesIff(signed: string)
    ensures FromSigned(signed).Parsed? <==>
              && Lenient(Split(signed, ',')) != []
              && forall i :: 0 <= i < |Split(signed, ',')| ==> !LoneSign(Split(signed, ',')[i])
  {
    LenientAgrees(Split(signed, ','));
  }

  /**
   * A text that equals an order yet does not parse: exactly the texts with a lone sign, and for the empty order every
   * text that it equals.
   */
  lemma EqualsWithoutParsingIff(keys: seq<OrderKey>, signed: string)
    requires EqualsSignedTokens(keys, signed)
    ensures !FromSigned(signed).Parsed? <==>
              keys == [] || exists i :: 0 <= i < |Split(signed, ',')| && LoneSign(Split(signed, ',')[i])
  {
    ParsesIff(signed);
  }

  /** The two cases: a lone sign, and the empty text. */
  lemma LoneSignEqualsWithoutParsing()
    ensures EqualsSignedTokens([OrderKey("a", Asc)], "+a,+") && !FromSigned("+a,+").Parsed?
    ensures EqualsSignedTokens([], "") && !FromSigned("").Parsed?
  {
    assert Join(["+a", "+"], ',') == "+a,+" by { assert ["+a", "+"][1..] == ["+"]; }
    SplitJoin(["+a", "+"], ',');
    TrimKeeps("+a");
    TrimKeeps("+");
    assert Strict(["+a", "+"][1..]) == InvalidOrderByField("+");
    assert Lenient(["+a", "+"][1..]) == [];
  }

  // ---- Every spelling of an order ----

  /** The field with its sign, which may be left out if the key is ascending and the field cannot be mistaken for it. */
  ghost predicate TokenOf(token: string, key: OrderKey) {
    && PrintableField(key.field)
    && match key.dir
       case Desc => token == ['-'] + key.field
       case Asc =>
         || token == ['+'] + key.field
         || (token == key.field && key.field[0] != '+' && key.field[0] != '-' && !IsWhitespace(key.field[0]))
  }

  /** A segment that stands for a key: its token with whitespace around it. */
  ghost predicate Spells(seg: string, key: OrderKey) {
    exists a, token, b :: Surrounds(seg, a, token, b) && TokenOf(token, key)
  }

  ghost predicate Surrounds(seg: string, a: string, token: string, b: string) {
    seg == a + (token + b) && Blank(a) && Blank(b)
  }

  lemma SegmentIsRead(seg: string, key: OrderKey)
    requires Spells(seg, key)
    ensures Trim(seg) != "" && ReadToken(Trim(seg)) == key
  {
    var a, token, b :| Surrounds(seg, a, token, b) && TokenOf(token, key);
    assert token[|token| - 1] == key.field[|key.field| - 1];
    TrimFinds(a, token, b);
    if token != key.field { assert token[1..] == key.field; }
  }

  lemma {:induction false} SegmentsAreRead(segs: seq<string>, keys: seq<OrderKey>)
    requires |segs| == |keys| && forall i :: 0 <= i < |segs| ==> Spells(segs[i], keys[i])
    ensures Strict(segs) == Parsed(keys)
  {
    if segs != [] {
      SegmentIsRead(segs[0], keys[0]);
      SegmentsAreRead(segs[1..], keys[1..]);
      assert keys == [keys[0]] + keys[1..];
    }
  }

  /** Whatever the spelling, the order comes out; a field without a sign is ascending. */
  lemma EverySpellingParses(segs: seq<string>, keys: seq<OrderKey>)
    requires |segs| == |keys| > 0 && AllFree(segs, ',')
    requires forall i :: 0 <= i < |segs| ==> Spells(segs[i], keys[i])
    ensures FromSigned(Join(segs, ',')) == Parsed(keys)
  {
    SplitJoin(segs, ',');
    SegmentsAreRead(segs, keys);
  }

  // ---- In-place updates ----

  function EnsureTiebreaker(keys: seq<OrderKey>, field: string, dir: SortDir): seq<OrderKey> {
    if exists i :: 0 <= i < |keys| && keys[i].field == field then keys else keys + [OrderKey(field, dir)]
  }

  function ReverseDirections(keys: seq<OrderKey>): seq<OrderKey> {
    seq(|keys|, i requires 0 <= i < |keys| => OrderKey(keys[i].field, keys[i].dir.Reverse()))
  }

  method ReverseInPlace(keys: array<OrderKey>)
    modifies keys
    ensures keys[..] == ReverseDirections(old(keys[..]))
  {
    for i := 0 to keys.Length
      invariant forall j :: 0 <= j < i ==> keys[j] == OrderKey(old(keys[j]).field, old(keys[j]).dir.Reverse())
      invariant forall j :: i <= j < keys.Length ==> keys[j] == old(keys[j])
    {
      keys[i] := keys[i].(dir := keys[i].dir.Reverse());
    }
  }
}

/** Pagination cursors: their token, and the check against the order and filter of the next request. */
module Cursor {
  import opened Seqs
  import opened Strings
  import opened OrderBy
  import opened Base64Url

  datatype CursorV1 = CursorV1(k: seq<string>, o: SortDir, s: string, f: Option<string>, d: string)

  datatype Wire = Wire(v: nat, k: seq<string>, o: string, s: string, f: Option<string>, d: string)

  datatype Error =
    | InvalidBase64
    | InvalidJson
    | InvalidVersion
    | InvalidKeys
    | InvalidFields
    | InvalidDirection
    | OrderMismatch
    | FilterMismatch

  datatype Result<+T> = Ok(value: T) | Err(error: Error)

  /** The JSON library on cursor records: printing is lossless. */
  datatype Json = Json(write: Wire -> seq<Byte>, read: seq<Byte> -> Option<Wire>) {
    ghost predicate Lossless() { forall w :: read(write(w)) == Some(w) }
  }

  function EncodeCursor(json: Json, c: CursorV1): string {
    Encode(json.write(Wire(1, c.k, if c.o == Asc then "asc" else "desc", c.s, c.f, c.d)))
  }

  function DecodeCursor(json: Json, token: string): Result<CursorV1> {
    var bytes := Decode(token);
    if bytes.None? then Err(InvalidBase64)
    else
      var w := json.read(bytes.value);
      if w.None? then Err(InvalidJson)
      else if w.value.v != 1 then Err(InvalidVersion)
      else if w.value.o != "asc" && w.value.o != "desc" then Err(InvalidDirection)
      else if w.value.k == [] then Err(InvalidKeys)
      else if Trim(w.value.s) == "" then Err(InvalidFields)
      else if w.value.d != "fwd" && w.value.d != "bwd" then Err(InvalidDirection)
      else Ok(CursorV1(w.value.k, if w.value.o == "asc" then Asc else Desc, w.value.s, w.value.f, w.value.d))
  }

  function ValidateCursor(c: CursorV1, order: seq<OrderKey>, filterHash: Option<string>): Result<()> {
    if !EqualsSignedTokens(order, c.s) then Err(OrderMismatch)
    else if filterHash.Some? && c.f.Some? && filterHash.value != c.f.value then Err(FilterMismatch)
    else Ok(())
  }

  ghost predicate WellFormed(c: CursorV1) {
    c.k != [] && Trim(c.s) != "" && (c.d == "fwd" || c.d == "bwd")
  }

  /** A cursor survives its token exactly when it is well formed; otherwise the first defect is reported. */
  lemma CursorRoundTrip(json: Json, c: CursorV1)
    requires json.Lossless()
    ensures DecodeCursor(json, EncodeCursor(json, c)) == Ok(c) <==> WellFormed(c)
    ensures DecodeCursor(json, EncodeCursor(json, c)) ==
            if c.k == [] then Err(InvalidKeys)
            else if Trim(c.s) == "" then Err(InvalidFields)
            else if !WellFormed(c) then Err(InvalidDirection)
            else Ok(c)
  {
    var w := Wire(1, c.k, if c.o == Asc then "asc" else "desc", c.s, c.f, c.d);
    DecodeEncode(json.write(w));
    assert json.read(json.write(w)) == Some(w);
    assert |"asc"| != |"desc"|;
  }

  /**
   * A token from elsewhere: every record that can be written is answered by its first defect, in the order of the
   * tests, and only one without defect is accepted, field by field.
   */
  lemma ForeignTokens(json: Json, w: Wire)
    requires json.Lossless()
    ensures var r := DecodeCursor(json, Encode(json.write(w)));
            && (w.v != 1 <==> r == Err(InvalidVersion))
            && (w.v == 1 && w.o != "asc" && w.o != "desc" ==> r == Err(InvalidDirection))
            && (w.v == 1 && (w.o == "asc" || w.o == "desc") ==>
                  && (w.k == [] <==> r == Err(InvalidKeys))
                  && (w.k != [] ==> (Blank(w.s) <==> r == Err(InvalidFields)))
                  && (w.k != [] && !Blank(w.s) ==> (w.d != "fwd" && w.d != "bwd" <==> r == Err(InvalidDirection))))
            && (r.Ok? <==> w.v == 1 && (w.o == "asc" || w.o == "desc") && w.k != [] && !Blank(w.s)
                           && (w.d == "fwd" || w.d == "bwd"))
            && (r.Ok? ==> r.value.k == w.k && r.value.s == w.s && r.value.f == w.f && r.value.d == w.d
                          && (r.value.o == Asc <==> w.o == "asc"))
  {
    DecodeEncode(json.write(w));
    assert json.read(json.write(w)) == Some(w);
    BlankIffTrimmedAway(w.s);
    assert |"asc"| != |"desc"|;
  }

  lemma BlankIffTrimmedAway(s: string)
    ensures Blank(s) <==> Trim(s) == ""
  {
    var a, b := TrimCuts(s);
    if Trim(s) == "" { assert s == a + b; } else { assert s[|a|] == Trim(s)[0]; }
  }

  /** Text that is not base64, or whose bytes are not such a record, is refused as that. */
  lemma UnreadableTokens(json: Json, token: string)
    ensures DecodeCursor(json, token) == Err(InvalidBase64) <==> Decode(token).None?
    ensures DecodeCursor(json, token) == Err(InvalidJson) <==> Decode(token).Some? && json.read(Decode(token).value).None?
  {
  }

  lemma TokensAreNotBlank(order: seq<OrderKey>)
    requires Printable(order)
    ensures Trim(ToSignedTokens(order)) != ""
  {
    var t := ToSignedTokens(order);
    assert Tokens(order)[0] == Token(order[0]);
    assert t[0] == Token(order[0])[0];
    TrimStartsWith(t);
  }

  lemma {:induction false} TrimEndKeepsFirst(s: string)
    requires s != "" && !IsWhitespace(s[0])
    ensures TrimEnd(s) != ""
  {
    if IsWhitespace(s[|s| - 1]) { TrimEndKeepsFirst(s[..|s| - 1]); }
  }

  lemma TrimStartsWith(s: string)
    requires s != "" && !IsWhitespace(s[0])
    ensures Trim(s) != ""
  {
    TrimEndKeepsFirst(s);
  }

  /**
   * A cursor issued for a printable order comes back from its token unchanged, and then validates against an
   * order and filter exactly when the order is the same and no two known filter hashes disagree.
   */
  lemma IssuedCursorValidates(json: Json, c: CursorV1, order: seq<OrderKey>, other: seq<OrderKey>, hash: Option<string>)
    requires json.Lossless() && Printable(order) && c.s == ToSignedTokens(order)
    requires c.k != [] && (c.d == "fwd" || c.d == "bwd")
    ensures DecodeCursor(json, EncodeCursor(json, c)) == Ok(c)
    ensures ValidateCursor(c, other, hash) == Err(OrderMismatch) <==> other != order
    ensures ValidateCursor(c, other, hash).Ok? <==>
              other == order && (hash.Some? && c.f.Some? ==> hash == c.f)
    ensures ValidateCursor(c, other, hash) == Err(FilterMismatch) <==>
              other == order && hash.Some? && c.f.Some? && hash != c.f
  {
    TokensAreNotBlank(order);
    CursorRoundTrip(json, c);
    SignedTokensRoundTrip(order);
    EqualsIffParsedEqual(other, c.s);
  }
}

/** The URL-safe base64 alphabet without padding, section 5 of RFC 4648, with strict decoding. */
module Base64Url {
  import opened Seqs

  type Byte = x: int | 0 <= x < 256
  type Sextet = x: int | 0 <= x < 64

  function Symbol(v: Sextet): char {
    if v < 26 then 'A' + v as char
    else if v < 52 then 'a' + (v - 26) as char
    else if v < 62 then '0' + (v - 52) as char
    else if v == 62 then '-' else '_'
  }

  function Digit(c: char): Option<Sextet> {
    if 'A' <= c <= 'Z' then Some(c as int - 'A' as int)
    else if 'a' <= c <= 'z' then Some(c as int - 'a' as int + 26)
    else if '0' <= c <= '9' then Some(c as int - '0' as int + 52)
    else if c == '-' then Some(62)
    else if c == '_' then Some(63)
    else None
  }

  lemma SymbolOfDigit(c: char)
    requires Digit(c).Some?
    ensures Symbol(Digit(c).value) == c
  {
  }

  function High(x: Byte): Sextet { x as int / 4 }
  function Second(x: Byte, y: Byte): Sextet { x as int % 4 * 16 + y as int / 16 }
  function Third(y: Byte, z: Byte): Sextet { y as int % 16 * 4 + z as int / 64 }
  function Low(z: Byte): Sextet { z as int % 64 }

  /** Eight bits to six, the leftover bits of a short last group filled with zeros. */
  function ToSextets(b: seq<Byte>): seq<Sextet> {
    if b == [] then []
    else if |b| == 1 then [High(b[0]), Second(b[0], 0)]
    else if |b| == 2 then [High(b[0]), Second(b[0], b[1]), Third(b[1], 0)]
    else [High(b[0]), Second(b[0], b[1]), Third(b[1], b[2]), Low(b[2])] + ToSextets(b[3..])
  }

  function Byte0(p: Sextet, q: Sextet): Byte { p as int * 4 + q as int / 16 }
  function Byte1(q: Sextet, r: Sextet): Byte { q as int % 16 * 16 + r as int / 4 }
  function Byte2(r: Sextet, s: Sextet): Byte { r as int % 4 * 64 + s as int }

  /** A lone last sextet and non-zero leftover bits are rejected. */
  function FromSextets(v: seq<Sextet>): Option<seq<Byte>> {
    if v == [] then Some([])
    else if |v| == 1 then None
    else if |v| == 2 then (if v[1] % 16 == 0 then Some([Byte0(v[0], v[1])]) else None)
    else if |v| == 3 then (if v[2] % 4 == 0 then Some([Byte0(v[0], v[1]), Byte1(v[1], v[2])]) else None)
    else
      var rest := FromSextets(v[4..]);
      if rest.None? then None
      else Some([Byte0(v[0], v[1]), Byte1(v[1], v[2]), Byte2(v[2], v[3])] + rest.value)
  }

  lemma FirstByte(x: Byte, y: Byte)
    ensures Byte0(High(x), Second(x, y)) == x && Second(x, 0) % 16 == 0
  {
    assert Second(x, y) as int / 16 == x as int % 4;
  }

  lemma SecondByte(x: Byte, y: Byte, z: Byte)
    ensures Byte1(Second(x, y), Third(y, z)) == y && Third(y, 0) % 4 == 0
  {
    assert Second(x, y) as int % 16 == y as int / 16;
    assert Third(y, z) as int / 4 == y as int % 16;
  }

  lemma ThirdByte(y: Byte, z: Byte)
    ensures Byte2(Third(y, z), Low(z)) == z
  {
    assert Third(y, z) as int % 4 == z as int / 64;
  }

  lemma GroupRoundTrip(x: Byte, y: Byte, z: Byte)
    ensures Byte0(High(x), Second(x, y)) == x
    ensures Byte1(Second(x, y), Third(y, z)) == y
    ensures Byte2(Third(y, z), Low(z)) == z
    ensures Second(x, 0) % 16 == 0 && Third(y, 0) % 4 == 0
  {
    FirstByte(x, y);
    SecondByte(x, y, z);
    ThirdByte(y, z);
  }

  lemma SplitByte0(p: Sextet, q: Sextet)
    ensures Byte0(p, q) as int / 4 == p as int && Byte0(p, q) as int % 4 == q as int / 16
  {
  }

  lemma SplitByte1(q: Sextet, r: Sextet)
    ensures Byte1(q, r) as int / 16 == q as int % 16 && Byte1(q, r) as int % 16 == r as int / 4
  {
  }

  lemma SplitByte2(r: Sextet, s: Sextet)
    ensures Byte2(r, s) as int / 64 == r as int % 4 && Byte2(r, s) as int % 64 == s as int
  {
  }

  lemma GroupCanonical(p: Sextet, q: Sextet, r: Sextet, s: Sextet)
    ensures High(Byte0(p, q)) == p
    ensures Second(Byte0(p, q), Byte1(q, r)) == q
    ensures Third(Byte1(q, r), Byte2(r, s)) == r
    ensures Low(Byte2(r, s)) == s
    ensures q % 16 == 0 ==> Second(Byte0(p, q), 0) == q
    ensures r % 4 == 0 ==> Third(Byte1(q, r), 0) == r
  {
    SplitByte0(p, q);
    SplitByte1(q, r);
    SplitByte2(r, s);
  }

  lemma FromTwo(p: Sextet, q: Sextet)
    requires q % 16 == 0
    ensures FromSextets([p, q]) == Some([Byte0(p, q)])
  {
  }

  lemma OneByteRoundTrip(x: Byte)
    ensures FromSextets([High(x), Second(x, 0)]) == Some([x])
  {
    GroupRoundTrip(x, 0, 0);
    FromTwo(High(x), Second(x, 0));
  }

  lemma TwoBytesRoundTrip(x: Byte, y: Byte)
    ensures FromSextets([High(x), Second(x, y), Third(y, 0)]) == Some([x, y])
  {
    GroupRoundTrip(x, y, 0);
  }

  lemma FromGroup(p: Sextet, q: Sextet, r: Sextet, s: Sextet, rest: seq<Sextet>)
    ensures var v := [p, q, r, s] + rest;
            FromSextets(v) == if FromSextets(rest).None? then None
                              else Some([Byte0(p, q), Byte1(q, r), Byte2(r, s)] + FromSextets(rest).value)
  {
    assert ([p, q, r, s] + rest)[4..] == rest;
  }

  lemma GroupThenRest(x: Byte, y: Byte, z: Byte, v: seq<Sextet>, b: seq<Byte>)
    requires FromSextets(v) == Some(b)
    ensures FromSextets([High(x), Second(x, y), Third(y, z), Low(z)] + v) == Some([x, y, z] + b)
  {
    FromGroup(High(x), Second(x, y), Third(y, z), Low(z), v);
    GroupRoundTrip(x, y, z);
  }

  lemma {:induction false} SextetsRoundTrip(b: seq<Byte>)
    ensures FromSextets(ToSextets(b)) == Some(b)
  {
    if |b| == 1 {
      OneByteRoundTrip(b[0]);
      assert b == [b[0]];
    } else if |b| == 2 {
      TwoBytesRoundTrip(b[0], b[1]);
      assert b == [b[0], b[1]];
    } else if b != [] {
      SextetsRoundTrip(b[3..]);
      GroupThenRest(b[0], b[1], b[2], ToSextets(b[3..]), b[3..]);
      assert b == [b[0], b[1], b[2]] + b[3..];
    }
  }

  lemma {:induction false} SextetsCanonical(v: seq<Sextet>)
    requires FromSextets(v).Some?
    ensures ToSextets(FromSextets(v).value) == v
  {
    if v == [] {
    } else if |v| == 2 {
      GroupCanonical(v[0], v[1], 0, 0);
    } else if |v| == 3 {
      GroupCanonical(v[0], v[1], v[2], 0);
    } else {
      GroupCanonical(v[0], v[1], v[2], v[3]);
      var b := FromSextets(v).value;
      assert b[3..] == FromSextets(v[4..]).value;
      SextetsCanonical(v[4..]);
      assert v == [v[0], v[1], v[2], v[3]] + v[4..];
    }
  }

  function Symbols(v: seq<Sextet>): string { seq(|v|, i requires 0 <= i < |v| => Symbol(v[i])) }

  function Digits(s: string): Option<seq<Sextet>> {
    if s == "" then Some([])
    else
      var rest := Digits(s[1..]);
      if Digit(s[0]).None? || rest.None? then None else Some([Digit(s[0]).value] + rest.value)
  }

  lemma {:induction false} DigitsOfSymbols(v: seq<Sextet>)
    ensures Digits(Symbols(v)) == Some(v)
  {
    if v != [] {
      assert Symbols(v)[1..] == Symbols(v[1..]);
      DigitsOfSymbols(v[1..]);
      assert v == [v[0]] + v[1..];
    }
  }

  lemma {:induction false} SymbolsOfDigits(s: string)
    requires Digits(s).Some?
    ensures Symbols(Digits(s).value) == s
  {
    if s != "" {
      SymbolsOfDigits(s[1..]);
      SymbolOfDigit(s[0]);
      assert Symbols(Digits(s).value) == [s[0]] + Symbols(Digits(s[1..]).value);
    }
  }

  function Encode(b: seq<Byte>): string { Symbols(ToSextets(b)) }

  function Decode(s: string): Option<seq<Byte>> {
    var v := Digits(s);
    if v.None? then None else FromSextets(v.value)
  }

  lemma DecodeEncode(b: seq<Byte>)
    ensures Decode(Encode(b)) == Some(b)
  {
    DigitsOfSymbols(ToSextets(b));
    SextetsRoundTrip(b);
  }

  /** Each byte string has one text: whatever decodes is what encoding would have produced. */
  lemma EncodeDecode(s: string)
    requires Decode(s).Some?
    ensures Encode(Decode(s).value) == s
  {
    SymbolsOfDigits(s);
    SextetsCanonical(Digits(s).value);
  }

  // ---- The encoding itself ----

  /** The symbols are those of the URL-safe alphabet, in its order: capitals, small letters, digits, `-` and `_`. */
  lemma SymbolsAreTheAlphabet(v: Sextet)
    ensures Symbol(0) == 'A' && Symbol(25) == 'Z' && Symbol(26) == 'a' && Symbol(51) == 'z' && Symbol(52) == '0'
    ensures Symbol(61) == '9' && Symbol(62) == '-' && Symbol(63) == '_'
    ensures v < 61 && v != 25 && v != 51 ==> Symbol(v + 1) as int == Symbol(v) as int + 1
  {
  }

  /** Three bytes and their four symbols denote the same 24-bit number; shorter groups are padded with zero bits. */
  lemma GroupValue(x: Byte, y: Byte, z: Byte)
    ensures High(x) * 262144 + Second(x, y) * 4096 + Third(y, z) * 64 + Low(z) == x * 65536 + y * 256 + z
  {
  }

  /** How many symbols there are: four for three bytes, and one more than the bytes of a shorter last group. */
  lemma {:induction false} EncodedLength(b: seq<Byte>)
    ensures |Encode(b)| == (4 * |b| + 2) / 3
  {
    if |b| >= 3 { EncodedLength(b[3..]); }
  }

  /** The symbols of a group of three bytes stand where they should, whatever comes behind it. */
  lemma EncodeGroup(x: Byte, y: Byte, z: Byte, rest: seq<Byte>)
    ensures Encode([x, y, z] + rest) ==
            [Symbol(High(x)), Symbol(Second(x, y)), Symbol(Third(y, z)), Symbol(Low(z))] + Encode(rest)
  {
    var b := [x, y, z] + rest;
    assert b[3..] == rest;
    assert ToSextets(b) == [High(x), Second(x, y), Third(y, z), Low(z)] + ToSextets(rest);
  }
}

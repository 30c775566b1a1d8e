/**
 * The key codec inside Shortener: the generated id's bytes are encoded with
 * base64url (the alphabet of section 5 of RFC 4648) without padding (as
 * section 3.2 of RFC 4648 allows), and the text is cut to seven symbols.
 */
module KeyCodec {
  import opened GoErrors

  newtype byte = x: int | 0 <= x < 256

  /** Number of symbols kept from the encoding. */
  const KeyLength: nat := 7

  function Min(a: int, b: int): int { if a <= b then a else b }

  /** A symbol of the base64url alphabet. */
  predicate IsUrlSafe(c: char)
  {
    ('A' <= c <= 'Z') || ('a' <= c <= 'z') || ('0' <= c <= '9') || c == '-' || c == '_'
  }

  /** The symbol for a 6-bit value. */
  function Symbol(v: int): (c: char)
    requires 0 <= v < 64
    ensures IsUrlSafe(c)
  {
    if v < 26 then ('A' as int + v) as char
    else if v < 52 then ('a' as int + (v - 26)) as char
    else if v < 62 then ('0' as int + (v - 52)) as char
    else if v == 62 then '-'
    else '_'
  }

  /** The 6-bit value of a symbol, None for a character outside the alphabet. */
  function ValueOf(c: char): (r: Option<int>)
    ensures r.Some? <==> IsUrlSafe(c)
    ensures r.Some? ==> 0 <= r.value < 64
  {
    if 'A' <= c <= 'Z' then Some(c as int - 'A' as int)
    else if 'a' <= c <= 'z' then Some(c as int - 'a' as int + 26)
    else if '0' <= c <= '9' then Some(c as int - '0' as int + 52)
    else if c == '-' then Some(62)
    else if c == '_' then Some(63)
    else None
  }

  lemma ValueOfSymbol(v: int)
    requires 0 <= v < 64
    ensures ValueOf(Symbol(v)) == Some(v)
  {
  }

  /** UTF-8 bytes of one Unicode scalar value. */
  function CharBytes(c: char): (b: seq<byte>)
    ensures 1 <= |b| <= 4
    ensures c as int < 0x80 ==> b == [c as int as byte]
  {
    var cp := c as int;
    if cp < 0x80 then [cp as byte]
    else if cp < 0x800 then [(0xC0 + cp / 64) as byte, (0x80 + cp % 64) as byte]
    else if cp < 0x10000 then
      [(0xE0 + cp / 4096) as byte, (0x80 + (cp / 64) % 64) as byte, (0x80 + cp % 64) as byte]
    else
      [(0xF0 + cp / 262144) as byte, (0x80 + (cp / 4096) % 64) as byte,
       (0x80 + (cp / 64) % 64) as byte, (0x80 + cp % 64) as byte]
  }

  /** []byte(s): the UTF-8 encoding of a string. */
  function Utf8(s: string): (b: seq<byte>)
    ensures |b| >= |s|
  {
    if s == [] then [] else CharBytes(s[0]) + Utf8(s[1..])
  }

  lemma {:induction false} Utf8Append(s: string, t: string)
    ensures Utf8(s + t) == Utf8(s) + Utf8(t)
  {
    if s != [] {
      assert (s + t)[0] == s[0];
      assert (s + t)[1..] == s[1..] + t;
      Utf8Append(s[1..], t);
    } else {
      assert s + t == t;
    }
  }

  /** The four symbols of a complete 3-byte group. */
  function EncodeGroup(b0: byte, b1: byte, b2: byte): string
  {
    [Symbol((b0 as int) / 4),
     Symbol(((b0 as int) % 4) * 16 + (b1 as int) / 16),
     Symbol(((b1 as int) % 16) * 4 + (b2 as int) / 64),
     Symbol((b2 as int) % 64)]
  }

  /** The two symbols of a last group of one byte. */
  function EncodeOne(b0: byte): string
  {
    [Symbol((b0 as int) / 4), Symbol(((b0 as int) % 4) * 16)]
  }

  /** The three symbols of a last group of two bytes. */
  function EncodeTwo(b0: byte, b1: byte): string
  {
    [Symbol((b0 as int) / 4),
     Symbol(((b0 as int) % 4) * 16 + (b1 as int) / 16),
     Symbol(((b1 as int) % 16) * 4)]
  }

  /** base64.RawURLEncoding.EncodeToString: two or three symbols for a last partial group, no '='. */
  function Encode(b: seq<byte>): (s: string)
    ensures |s| == (4 * |b| + 2) / 3
    decreases |b|
  {
    if |b| == 0 then []
    else if |b| == 1 then EncodeOne(b[0])
    else if |b| == 2 then EncodeTwo(b[0], b[1])
    else EncodeGroup(b[0], b[1], b[2]) + Encode(b[3..])
  }

  /** Every symbol of an encoding is in the base64url alphabet: no '=' and nothing that needs escaping. */
  lemma {:induction false} EncodeAlphabet(b: seq<byte>)
    ensures forall i :: 0 <= i < |Encode(b)| ==> IsUrlSafe(Encode(b)[i])
    decreases |b|
  {
    if |b| >= 3 {
      EncodeAlphabet(b[3..]);
      var g, rest := EncodeGroup(b[0], b[1], b[2]), Encode(b[3..]);
      assert Encode(b) == g + rest;
      forall i | 0 <= i < |Encode(b)| ensures IsUrlSafe(Encode(b)[i]) {
        if i >= 4 { assert Encode(b)[i] == rest[i - 4]; }
      }
    }
  }

  /** The three bytes of a complete group of four symbols. */
  function DecodeGroup(c0: char, c1: char, c2: char, c3: char): Option<seq<byte>>
  {
    if IsUrlSafe(c0) && IsUrlSafe(c1) && IsUrlSafe(c2) && IsUrlSafe(c3) then
      var d0, d1, d2, d3 := ValueOf(c0).value, ValueOf(c1).value, ValueOf(c2).value, ValueOf(c3).value;
      Some([(d0 * 4 + d1 / 16) as byte, ((d1 % 16) * 16 + d2 / 4) as byte, ((d2 % 4) * 64 + d3) as byte])
    else None
  }

  /** The bytes of a last group of two or three symbols; text of one symbol encodes nothing. */
  function DecodeLast(s: string): Option<seq<byte>>
    requires |s| < 4
  {
    if |s| == 0 then Some([])
    else if |s| == 1 || !IsUrlSafe(s[0]) || !IsUrlSafe(s[1]) then None
    else
      var d0, d1 := ValueOf(s[0]).value, ValueOf(s[1]).value;
      if |s| == 2 then Some([(d0 * 4 + d1 / 16) as byte])
      else if !IsUrlSafe(s[2]) then None
      else
        var d2 := ValueOf(s[2]).value;
        Some([(d0 * 4 + d1 / 16) as byte, ((d1 % 16) * 16 + d2 / 4) as byte])
  }

  /** The inverse of Encode: None for text that no byte sequence encodes to. */
  function Decode(s: string): Option<seq<byte>>
    decreases |s|
  {
    if |s| < 4 then DecodeLast(s)
    else
      var g := DecodeGroup(s[0], s[1], s[2], s[3]);
      var rest := Decode(s[4..]);
      if g.Some? && rest.Some? then Some(g.value + rest.value) else None
  }

  /** The bit arithmetic of one group: the symbols' values give back the three bytes. */
  lemma GroupBits(x0: int, x1: int, x2: int)
    requires 0 <= x0 < 256 && 0 <= x1 < 256 && 0 <= x2 < 256
    ensures var d0, d1, d2, d3 := x0 / 4, (x0 % 4) * 16 + x1 / 16, (x1 % 16) * 4 + x2 / 64, x2 % 64;
      && 0 <= d0 < 64 && 0 <= d1 < 64 && 0 <= d2 < 64 && 0 <= d3 < 64
      && d0 * 4 + d1 / 16 == x0
      && (d1 % 16) * 16 + d2 / 4 == x1
      && (d2 % 4) * 64 + d3 == x2
  {
    var d1, d2 := (x0 % 4) * 16 + x1 / 16, (x1 % 16) * 4 + x2 / 64;
    assert d1 / 16 == x0 % 4 && d1 % 16 == x1 / 16;
    assert d2 / 4 == x1 % 16 && d2 % 4 == x2 / 64;
  }

  lemma GroupRoundTrip(b0: byte, b1: byte, b2: byte)
    ensures var g := EncodeGroup(b0, b1, b2); DecodeGroup(g[0], g[1], g[2], g[3]) == Some([b0, b1, b2])
  {
    var x0, x1, x2 := b0 as int, b1 as int, b2 as int;
    GroupBits(x0, x1, x2);
    ValueOfSymbol(x0 / 4);
    ValueOfSymbol((x0 % 4) * 16 + x1 / 16);
    ValueOfSymbol((x1 % 16) * 4 + x2 / 64);
    ValueOfSymbol(x2 % 64);
  }

  lemma PairRoundTrip(b0: byte)
    ensures DecodeLast(EncodeOne(b0)) == Some([b0])
  {
    var x0 := b0 as int;
    GroupBits(x0, 0, 0);
    ValueOfSymbol(x0 / 4);
    ValueOfSymbol((x0 % 4) * 16);
  }

  lemma TripleRoundTrip(b0: byte, b1: byte)
    ensures DecodeLast(EncodeTwo(b0, b1)) == Some([b0, b1])
  {
    var x0, x1 := b0 as int, b1 as int;
    GroupBits(x0, x1, 0);
    ValueOfSymbol(x0 / 4);
    ValueOfSymbol((x0 % 4) * 16 + x1 / 16);
    ValueOfSymbol((x1 % 16) * 4);
  }

  /** Decoding consumes a leading group of four symbols and then the rest. */
  lemma DecodeStep(g: string, rest: string, bytes: seq<byte>, restBytes: seq<byte>)
    requires |g| == 4 && DecodeGroup(g[0], g[1], g[2], g[3]) == Some(bytes)
    requires Decode(rest) == Some(restBytes)
    ensures Decode(g + rest) == Some(bytes + restBytes)
  {
    var s := g + rest;
    assert s[0] == g[0] && s[1] == g[1] && s[2] == g[2] && s[3] == g[3];
    assert s[4..] == rest;
  }

  lemma EncodeStep(b: seq<byte>)
    requires |b| >= 3
    ensures Encode(b) == EncodeGroup(b[0], b[1], b[2]) + Encode(b[3..])
  {
  }

  /** A complete group decodes on its own, ahead of whatever follows it. */
  lemma DecodeAfterGroup(b: seq<byte>, s: string, rest: string)
    requires |b| >= 3 && s == EncodeGroup(b[0], b[1], b[2]) + rest
    requires Decode(rest) == Some(b[3..])
    ensures Decode(s) == Some(b)
  {
    GroupRoundTrip(b[0], b[1], b[2]);
    DecodeStep(EncodeGroup(b[0], b[1], b[2]), rest, [b[0], b[1], b[2]], b[3..]);
    assert b == [b[0], b[1], b[2]] + b[3..];
  }

  lemma DecodeOneByte(b: seq<byte>)
    requires |b| == 1
    ensures Decode(Encode(b)) == Some(b)
  {
    var s := Encode(b);
    assert s == EncodeOne(b[0]);
    PairRoundTrip(b[0]);
    assert [b[0]] == b;
  }

  lemma DecodeTwoBytes(b: seq<byte>)
    requires |b| == 2
    ensures Decode(Encode(b)) == Some(b)
  {
    var s := Encode(b);
    assert s == EncodeTwo(b[0], b[1]);
    TripleRoundTrip(b[0], b[1]);
    assert [b[0], b[1]] == b;
  }

  /** Decode undoes Encode for every byte sequence. */
  lemma {:induction false} DecodeEncode(b: seq<byte>)
    ensures Decode(Encode(b)) == Some(b)
    decreases |b|
  {
    if |b| == 1 {
      DecodeOneByte(b);
    } else if |b| == 2 {
      DecodeTwoBytes(b);
    } else if |b| >= 3 {
      DecodeEncode(b[3..]);
      EncodeStep(b);
      DecodeAfterGroup(b, Encode(b), Encode(b[3..]));
    }
  }

  /** Encoding is local to 3-byte groups: a prefix whose length is a multiple of three encodes on its own. */
  lemma {:induction false} EncodeAppend(a: seq<byte>, b: seq<byte>)
    requires |a| % 3 == 0
    ensures Encode(a + b) == Encode(a) + Encode(b)
    decreases |a|
  {
    if |a| == 0 {
      assert a + b == b;
    } else {
      var ab := a + b;
      assert ab[0] == a[0] && ab[1] == a[1] && ab[2] == a[2];
      assert ab[3..] == a[3..] + b;
      EncodeAppend(a[3..], b);
    }
  }

  /** The key of a generated id: its encoding cut to KeyLength symbols. */
  function DeriveKey(id: string): (k: string)
    ensures |k| == Min(KeyLength, |Encode(Utf8(id))|)
    ensures k == Encode(Utf8(id))[..|k|]
    ensures forall i :: 0 <= i < |k| ==> IsUrlSafe(k[i]) && k[i] != '='
  {
    var e := Encode(Utf8(id));
    EncodeAlphabet(Utf8(id));
    if |e| > KeyLength then e[..KeyLength] else e
  }

  /** Only a non-empty id gives a non-empty key. */
  lemma DeriveKeyEmpty(id: string)
    ensures DeriveKey(id) == "" <==> id == ""
  {
    if id != "" {
      assert |Utf8(id)| >= 1;
    }
  }

  /** Only the first six bytes of the id reach the key: ids that agree there collide. */
  lemma KeyUsesSixBytes(id: string, id': string)
    requires |Utf8(id)| >= 6 && |Utf8(id')| >= 6
    requires Utf8(id)[..6] == Utf8(id')[..6]
    ensures DeriveKey(id) == DeriveKey(id')
  {
    KeyOfLongId(id);
    KeyOfLongId(id');
  }

  lemma KeyOfLongId(id: string)
    requires |Utf8(id)| >= 6
    ensures DeriveKey(id) == Encode(Utf8(id)[..6])[..KeyLength]
  {
    var b := Utf8(id);
    assert b == b[..6] + b[6..];
    EncodeAppend(b[..6], b[6..]);
  }

  lemma Utf8OfRandom()
    ensures Utf8("random") == [114, 97, 110, 100, 111, 109]
  {
    var s := "random";
    assert s[1..] == "andom" && s[2..] == "ndom" && s[3..] == "dom" && s[4..] == "om" && s[5..] == "m";
    assert "m"[1..] == "";
  }

  lemma EncodeOfRandom()
    ensures Encode([114, 97, 110, 100, 111, 109]) == "cmFuZG9t"
  {
    var head: seq<byte> := [114, 97, 110, 100, 111, 109];
    var tail: seq<byte> := [100, 111, 109];
    assert head[0] == 114 && head[1] == 97 && head[2] == 110 && head[3..] == tail;
    assert tail[0] == 100 && tail[1] == 111 && tail[2] == 109 && tail[3..] == [];
    var x: int := 114;
    assert x / 4 == 28;
    assert EncodeGroup(114, 97, 110) == "cmFu";
    assert EncodeGroup(100, 111, 109) == "ZG9t";
  }

  /** Every id that starts with "random" gets the same key. */
  lemma KeyOfRandomPrefix(rest: string)
    ensures DeriveKey("random" + rest) == "cmFuZG9"
  {
    var id := "random" + rest;
    Utf8Append("random", rest);
    Utf8OfRandom();
    assert Utf8(id)[..6] == [114, 97, 110, 100, 111, 109];
    KeyOfLongId(id);
    EncodeOfRandom();
    assert "cmFuZG9t"[..KeyLength] == "cmFuZG9";
  }

  /** The generated id of the service's unit test gives the key its expected short URL ends in. */
  lemma KeyOfTestId(id: string)
    requires id == "random-generated-uuid"
    ensures DeriveKey(id) == "cmFuZG9"
  {
    assert id == "random" + "-generated-uuid";
    KeyOfRandomPrefix("-generated-uuid");
  }
}

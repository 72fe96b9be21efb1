/** Base 64 encoding as defined in section 4 of RFC 4648 (the alphabet of its
    Table 1, with `=` padding), which is what the browser's `btoa` produces
    from a string of byte-valued characters. */
module Base64 {
  import opened Js

  type byte = x: int | 0 <= x < 256

  /** The character for a 6-bit value (Table 1 of RFC 4648). */
  function Sextet(v: nat): (c: char)
    requires v < 64
  {
    if v < 26 then ('A' as int + v) as char
    else if v < 52 then ('a' as int + (v - 26)) as char
    else if v < 62 then ('0' as int + (v - 52)) as char
    else if v == 62 then '+'
    else '/'
  }

  /** The 6-bit value of an alphabet character, or `None` outside the alphabet. */
  function SextetValue(c: char): (r: Option<nat>)
    ensures r.Some? ==> r.value < 64 && Sextet(r.value) == c
  {
    if 'A' <= c <= 'Z' then Some(c as int - 'A' as int)
    else if 'a' <= c <= 'z' then Some(c as int - 'a' as int + 26)
    else if '0' <= c <= '9' then Some(c as int - '0' as int + 52)
    else if c == '+' then Some(62)
    else if c == '/' then Some(63)
    else None
  }

  lemma SextetValueOfSextet(v: nat)
    requires v < 64
    ensures SextetValue(Sextet(v)) == Some(v)
  {
  }

  /** The encoding of the last one or two bytes, padded with `=`. */
  function EncodeTail(b: seq<byte>): (s: string)
    requires 1 <= |b| <= 2
  {
    if |b| == 1 then [Sextet(b[0] / 4), Sextet((b[0] % 4) * 16), '=', '=']
    else [Sextet(b[0] / 4), Sextet((b[0] % 4) * 16 + b[1] / 16), Sextet((b[1] % 16) * 4), '=']
  }

  /** The encoding of three bytes as four characters. */
  function EncodeTriple(b0: byte, b1: byte, b2: byte): string {
    [Sextet(b0 / 4), Sextet((b0 % 4) * 16 + b1 / 16), Sextet((b1 % 16) * 4 + b2 / 64), Sextet(b2 % 64)]
  }

  /** The padded encoding: four characters for every started group of three bytes. */
  function Encode(b: seq<byte>): (s: string)
    ensures |s| == 4 * ((|b| + 2) / 3)
    decreases |b|
  {
    if |b| == 0 then []
    else if |b| < 3 then EncodeTail(b)
    else EncodeTriple(b[0], b[1], b[2]) + Encode(b[3..])
  }

  /** The bytes of one four-character group; padding is accepted only as the
      last one or two characters. */
  function DecodeGroup(g: string): Option<seq<byte>>
    requires |g| == 4
  {
    var v0, v1, v2, v3 := SextetValue(g[0]), SextetValue(g[1]), SextetValue(g[2]), SextetValue(g[3]);
    if v0.None? || v1.None? then None
    else if g[2] == '=' && g[3] == '=' then
      Some([v0.value * 4 + v1.value / 16])
    else if v2.None? then None
    else if g[3] == '=' then
      Some([v0.value * 4 + v1.value / 16, (v1.value % 16) * 16 + v2.value / 4])
    else if v3.None? then None
    else
      Some([v0.value * 4 + v1.value / 16, (v1.value % 16) * 16 + v2.value / 4, (v2.value % 4) * 64 + v3.value])
  }

  /** Decoding: groups of four characters, a padded group only at the end. */
  function Decode(s: string): Option<seq<byte>>
    decreases |s|
  {
    if s == [] then Some([])
    else if |s| < 4 then None
    else
      match DecodeGroup(s[..4])
      case None => None
      case Some(g) =>
        if |s| > 4 && |g| < 3 then None
        else
          match Decode(s[4..])
          case None => None
          case Some(rest) => Some(g + rest)
  }

  lemma DecodeTriple(b0: byte, b1: byte, b2: byte)
    ensures DecodeGroup(EncodeTriple(b0, b1, b2)) == Some([b0, b1, b2])
  {
    var v0, v1, v2, v3 := b0 / 4, (b0 % 4) * 16 + b1 / 16, (b1 % 16) * 4 + b2 / 64, b2 % 64;
    assert v1 / 16 == b0 % 4 && v1 % 16 == b1 / 16;
    assert v2 / 4 == b1 % 16 && v2 % 4 == b2 / 64;
    assert v0 * 4 + v1 / 16 == b0;
    assert (v1 % 16) * 16 + v2 / 4 == b1;
    assert (v2 % 4) * 64 + v3 == b2;
    var g := EncodeTriple(b0, b1, b2);
    assert g == [Sextet(v0), Sextet(v1), Sextet(v2), Sextet(v3)];
    SextetValueOfSextet(v0);
    SextetValueOfSextet(v1);
    SextetValueOfSextet(v2);
    SextetValueOfSextet(v3);
    assert g[2] != '=' && g[3] != '=';
  }

  lemma DecodeTail(b: seq<byte>)
    requires 1 <= |b| <= 2
    ensures DecodeGroup(EncodeTail(b)) == Some(b)
  {
    SextetValueOfSextet(b[0] / 4);
    if |b| == 1 {
      SextetValueOfSextet((b[0] % 4) * 16);
      assert (b[0] / 4) * 4 + ((b[0] % 4) * 16) / 16 == b[0];
      assert b == [b[0]];
    } else {
      SextetValueOfSextet((b[0] % 4) * 16 + b[1] / 16);
      SextetValueOfSextet((b[1] % 16) * 4);
      assert EncodeTail(b)[2] != '=';
      var v1 := (b[0] % 4) * 16 + b[1] / 16;
      assert v1 / 16 == b[0] % 4 && v1 % 16 == b[1] / 16;
      assert b == [b[0], b[1]];
    }
  }

  /** Decoding an encoding gives back the bytes. */
  lemma {:induction false} DecodeEncode(b: seq<byte>)
    ensures Decode(Encode(b)) == Some(b)
    decreases |b|
  {
    if |b| == 0 {
    } else if |b| < 3 {
      DecodeTail(b);
      assert Encode(b)[..4] == EncodeTail(b);
      assert Encode(b)[4..] == [];
      assert b + [] == b;
    } else {
      var head := EncodeTriple(b[0], b[1], b[2]);
      var s := Encode(b);
      assert s[..4] == head;
      assert s[4..] == Encode(b[3..]);
      DecodeTriple(b[0], b[1], b[2]);
      DecodeEncode(b[3..]);
      assert [b[0], b[1], b[2]] + b[3..] == b;
    }
  }

  /** Every character of an encoding is in the alphabet or is padding. */
  lemma {:induction false} EncodeAlphabet(b: seq<byte>)
    ensures forall i :: 0 <= i < |Encode(b)| ==> Encode(b)[i] == '=' || SextetValue(Encode(b)[i]).Some?
    decreases |b|
  {
    if |b| >= 3 {
      EncodeAlphabet(b[3..]);
      var head := EncodeTriple(b[0], b[1], b[2]);
      SextetValueOfSextet(b[0] / 4);
      SextetValueOfSextet((b[0] % 4) * 16 + b[1] / 16);
      SextetValueOfSextet((b[1] % 16) * 4 + b[2] / 64);
      SextetValueOfSextet(b[2] % 64);
    } else if |b| > 0 {
      SextetValueOfSextet(b[0] / 4);
      if |b| == 1 {
        SextetValueOfSextet((b[0] % 4) * 16);
      } else {
        SextetValueOfSextet((b[0] % 4) * 16 + b[1] / 16);
        SextetValueOfSextet((b[1] % 16) * 4);
      }
    }
  }

  /** `window.btoa`: each character must be a byte value (code below 256),
      otherwise it throws `InvalidCharacterError` (here `None`). */
  function Btoa(s: string): (r: Option<string>)
    ensures r.Some? <==> forall i :: 0 <= i < |s| ==> s[i] as int < 256
  {
    if forall i :: 0 <= i < |s| ==> s[i] as int < 256
    then Some(Encode(seq(|s|, i requires 0 <= i < |s| => s[i] as int)))
    else None
  }
}

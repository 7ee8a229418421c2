/** The URL-safe Base64 encoding of RFC 4648 (section 5), as produced by
    Python's `base64.urlsafe_b64encode`: alphabet `A-Z a-z 0-9 - _`, groups of
    three bytes become four characters, and a final group of one or two bytes
    is padded with `=`. */
module Base64Url {
  import opened Wrappers
  import opened Seqs

  type Byte = x: int | 0 <= x < 256
  type Sextet = x: int | 0 <= x < 64

  predicate IsAlphabetChar(c: char)
  {
    'A' <= c <= 'Z' || 'a' <= c <= 'z' || '0' <= c <= '9' || c == '-' || c == '_'
  }

  predicate IsAlphanumeric(c: char)
  {
    'A' <= c <= 'Z' || 'a' <= c <= 'z' || '0' <= c <= '9'
  }

  const Pad: char := '='

  /** The character for a 6-bit value: 0..25 upper case, 26..51 lower case,
      52..61 digits, 62 `-`, 63 `_`. */
  function CharOf(v: Sextet): (c: char)
    ensures IsAlphabetChar(c)
    ensures IsAlphanumeric(c) <==> v < 62
  {
    if v < 26 then ('A' as int + v) as char
    else if v < 52 then ('a' as int + (v - 26)) as char
    else if v < 62 then ('0' as int + (v - 52)) as char
    else if v == 62 then '-'
    else '_'
  }

  /** The 6-bit value of an alphabet character: the inverse of CharOf. */
  function SextetOf(c: char): (v: Sextet)
    requires IsAlphabetChar(c)
    ensures CharOf(v) == c
  {
    if 'A' <= c <= 'Z' then c as int - 'A' as int
    else if 'a' <= c <= 'z' then c as int - 'a' as int + 26
    else if '0' <= c <= '9' then c as int - '0' as int + 52
    else if c == '-' then 62
    else 63
  }

  lemma SextetOfCharOf(v: Sextet)
    ensures SextetOf(CharOf(v)) == v
  {
  }

  /** Three bytes as four characters. */
  function Group(b0: Byte, b1: Byte, b2: Byte): (g: string)
    ensures |g| == 4 && forall i :: 0 <= i < 4 ==> IsAlphabetChar(g[i])
  {
    [CharOf(b0 / 4), CharOf(b0 % 4 * 16 + b1 / 16), CharOf(b1 % 16 * 4 + b2 / 64), CharOf(b2 % 64)]
  }

  /** A final group of one or two bytes, padded with `=` to four characters. */
  function Tail(d: seq<Byte>): (t: string)
    requires 1 <= |d| <= 2
    ensures |t| == 4 && IsAlphabetChar(t[0]) && IsAlphabetChar(t[1]) && t[3] == Pad
    ensures |d| == 1 <==> t[2] == Pad
    ensures t[2] != Pad ==> IsAlphabetChar(t[2])
  {
    if |d| == 1 then [CharOf(d[0] / 4), CharOf(d[0] % 4 * 16), Pad, Pad]
    else [CharOf(d[0] / 4), CharOf(d[0] % 4 * 16 + d[1] / 16), CharOf(d[1] % 16 * 4), Pad]
  }

  /** `base64.urlsafe_b64encode(d).decode()`: four characters for every three
      bytes or final part of three. */
  function Encode(d: seq<Byte>): (s: string)
    ensures |s| == 4 * ((|d| + 2) / 3)
    decreases |d|
  {
    if |d| == 0 then []
    else if |d| < 3 then Tail(d)
    else
      var g, rest := Group(d[0], d[1], d[2]), Encode(d[3..]);
      assert (|d| + 2) / 3 == (|d| - 3 + 2) / 3 + 1;
      g + rest
  }

  /** Text made of alphabet characters except the padding, which is only in
      the last two places: none when `rem` (the byte count modulo three) is 0,
      one `=` when it is 2, two when it is 1. */
  predicate Padded(s: string, rem: nat)
  {
    && (forall i :: 0 <= i < |s| ==> IsAlphabetChar(s[i]) || (s[i] == Pad && i >= |s| - 2))
    && (rem == 0 ==> forall i :: 0 <= i < |s| ==> s[i] != Pad)
    && (rem != 0 ==> |s| >= 4 && s[|s| - 1] == Pad && (s[|s| - 2] == Pad <==> rem == 1))
  }

  lemma PaddedAfterGroup(g: string, rest: string, rem: nat)
    requires |g| == 4 && forall i :: 0 <= i < 4 ==> IsAlphabetChar(g[i])
    requires Padded(rest, rem)
    ensures Padded(g + rest, rem)
  {
    var s := g + rest;
    forall i | 0 <= i < |s|
      ensures IsAlphabetChar(s[i]) || (s[i] == Pad && i >= |s| - 2)
      ensures rem == 0 ==> s[i] != Pad
    {
      if i >= 4 {
        assert s[i] == rest[i - 4];
      }
    }
    if rem != 0 {
      assert s[|s| - 1] == rest[|rest| - 1] && s[|s| - 2] == rest[|rest| - 2];
    }
  }

  lemma PaddedTail(d: seq<Byte>)
    requires 1 <= |d| <= 2
    ensures Padded(Tail(d), |d| % 3)
  {
    var t := Tail(d);
    forall i | 0 <= i < 4
      ensures IsAlphabetChar(t[i]) || (t[i] == Pad && i >= 2)
    {
    }
  }

  /** Every encoding is padded as its byte count demands. */
  lemma {:induction false} EncodeAlphabet(d: seq<Byte>)
    ensures Padded(Encode(d), |d| % 3)
    decreases |d|
  {
    if 1 <= |d| < 3 {
      assert Encode(d) == Tail(d);
      PaddedTail(d);
    } else if |d| >= 3 {
      var rest := d[3..];
      assert |rest| % 3 == |d| % 3;
      EncodeAlphabet(rest);
      EncodeStep(d);
      PaddedAfterGroup(Group(d[0], d[1], d[2]), Encode(rest), |d| % 3);
    }
  }

  lemma EncodeStep(d: seq<Byte>)
    requires |d| >= 3
    ensures Encode(d) == Group(d[0], d[1], d[2]) + Encode(d[3..])
  {
  }

  /** Decoding of padded URL-safe Base64 text; `None` for text that is not a
      well-formed encoding, including a last character before the padding whose
      unused low bits are not zero (section 3.5 of RFC 4648). */
  function Decode(s: string): Option<seq<Byte>>
    decreases |s|
  {
    if |s| == 0 then Some([])
    else if |s| < 4 || !IsAlphabetChar(s[0]) || !IsAlphabetChar(s[1]) then None
    else
      var a, b := SextetOf(s[0]), SextetOf(s[1]);
      if |s| == 4 && s[2] == Pad && s[3] == Pad then
        if b % 16 == 0 then Some([a * 4 + b / 16]) else None
      else if !IsAlphabetChar(s[2]) then None
      else
        var c := SextetOf(s[2]);
        if |s| == 4 && s[3] == Pad then
          if c % 4 == 0 then Some([a * 4 + b / 16, b % 16 * 16 + c / 4]) else None
        else if !IsAlphabetChar(s[3]) then None
        else
          var e := SextetOf(s[3]);
          match Decode(s[4..])
          case None => None
          case Some(rest) => Some([a * 4 + b / 16, b % 16 * 16 + c / 4, c % 4 * 64 + e] + rest)
  }

  lemma FirstByte(b0: Byte, b1: Byte)
    ensures b0 / 4 * 4 + (b0 % 4 * 16 + b1 / 16) / 16 == b0
  {
  }

  lemma SecondByte(b0: Byte, b1: Byte, b2: Byte)
    ensures (b0 % 4 * 16 + b1 / 16) % 16 * 16 + (b1 % 16 * 4 + b2 / 64) / 4 == b1
  {
    var high, low := b1 / 16, b1 % 16;
    assert (b0 % 4 * 16 + high) % 16 == high;
    assert (low * 4 + b2 / 64) / 4 == low;
  }

  lemma ThirdByte(b1: Byte, b2: Byte)
    ensures (b1 % 16 * 4 + b2 / 64) % 4 * 64 + b2 % 64 == b2
  {
  }

  lemma DecodeTail(d: seq<Byte>)
    requires 1 <= |d| <= 2
    ensures Decode(Tail(d)) == Some(d)
  {
    var t := Tail(d);
    SextetOfCharOf(d[0] / 4);
    if |d| == 1 {
      SextetOfCharOf(d[0] % 4 * 16);
      FirstByte(d[0], 0);
      assert Decode(t) == Some([d[0]]);
      assert [d[0]] == d;
    } else {
      SextetOfCharOf(d[0] % 4 * 16 + d[1] / 16);
      SextetOfCharOf(d[1] % 16 * 4);
      FirstByte(d[0], d[1]);
      SecondByte(d[0], d[1], 0);
      assert Decode(t) == Some([d[0], d[1]]);
      assert [d[0], d[1]] == d;
    }
  }

  lemma DecodeGroup(b0: Byte, b1: Byte, b2: Byte, rest: string, r: seq<Byte>)
    requires Decode(rest) == Some(r)
    ensures Decode(Group(b0, b1, b2) + rest) == Some([b0, b1, b2] + r)
  {
    var s := Group(b0, b1, b2) + rest;
    SextetOfCharOf(b0 / 4);
    SextetOfCharOf(b0 % 4 * 16 + b1 / 16);
    SextetOfCharOf(b1 % 16 * 4 + b2 / 64);
    SextetOfCharOf(b2 % 64);
    FirstByte(b0, b1);
    SecondByte(b0, b1, b2);
    ThirdByte(b1, b2);
    PrefixOfAppend(Group(b0, b1, b2), rest);
  }

  lemma SplitThree(d: seq<Byte>)
    requires |d| >= 3
    ensures d == [d[0], d[1], d[2]] + d[3..]
  {
  }

  lemma DecodeEncodeStep(d: seq<Byte>)
    requires |d| >= 3
    requires Decode(Encode(d[3..])) == Some(d[3..])
    ensures Decode(Encode(d)) == Some(d)
  {
    EncodeStep(d);
    DecodeGroup(d[0], d[1], d[2], Encode(d[3..]), d[3..]);
    SplitThree(d);
  }

  /** Text whose last character before the padding carries bits that no
      encoding sets is refused, even though its other bits spell a byte. */
  lemma NonCanonicalRefused()
    ensures Decode("AB==") == None
    ensures Decode("AA==") == Some([0])
  {
    assert SextetOf('B') == 1;
    assert SextetOf('A') == 0;
  }

  /** Encoding loses nothing: the digest can be recovered from its encoding. */
  lemma {:induction false} DecodeEncode(d: seq<Byte>)
    ensures Decode(Encode(d)) == Some(d)
    decreases |d|
  {
    if 1 <= |d| <= 2 {
      assert Encode(d) == Tail(d);
      DecodeTail(d);
    } else if |d| >= 3 {
      DecodeEncode(d[3..]);
      DecodeEncodeStep(d);
    }
  }
}

/**
  Standard base64 with padding (section 4 of RFC 4648), as encoding/base64's StdEncoding
  writes and reads it: EncodeToString, and DecodeString with its rules for input it
  accepts — carriage returns and line feeds anywhere are skipped, the rest must come in
  groups of four, padding may only end the last group ("xx==" or "xxx="), bits left over
  in a padded group are ignored, and anything else is an error.
*/
module Base64 {
  import opened Wrappers

  type byte = x: int | 0 <= x < 256

  /** The 6-bit value a character of the alphabet A–Z a–z 0–9 + / stands for. */
  function CharValue(c: char): Option<nat> {
    if 'A' <= c <= 'Z' then Some(c as int - 'A' as int)
    else if 'a' <= c <= 'z' then Some(c as int - 'a' as int + 26)
    else if '0' <= c <= '9' then Some(c as int - '0' as int + 52)
    else if c == '+' then Some(62)
    else if c == '/' then Some(63)
    else None
  }

  /** The character of the alphabet for a 6-bit value. */
  function Alphabet(v: nat): (c: char)
    requires v < 64
    ensures CharValue(c) == Some(v)
  {
    if v < 26 then ('A' as int + v) as char
    else if v < 52 then ('a' as int + (v - 26)) as char
    else if v < 62 then ('0' as int + (v - 52)) as char
    else if v == 62 then '+'
    else '/'
  }

  predicate IsAlphabet(c: char) {
    CharValue(c).Some?
  }

  /** Three bytes as four characters. */
  function EncodeGroup(a: byte, b: byte, c: byte): (s: string)
    ensures |s| == 4 && forall i :: 0 <= i < 4 ==> IsAlphabet(s[i])
  {
    [Alphabet(a / 4), Alphabet((a % 4) * 16 + b / 16), Alphabet((b % 16) * 4 + c / 64), Alphabet(c % 64)]
  }

  /** EncodeToString: full groups of four characters, the last one padded with '=' when the input runs out. */
  function Encode(data: seq<byte>): (s: string)
    ensures |s| == 4 * ((|data| + 2) / 3)
    decreases |data|
  {
    if |data| == 0 then ""
    else if |data| == 1 then
      [Alphabet(data[0] / 4), Alphabet((data[0] % 4) * 16), '=', '=']
    else if |data| == 2 then
      [Alphabet(data[0] / 4), Alphabet((data[0] % 4) * 16 + data[1] / 16), Alphabet((data[1] % 16) * 4), '=']
    else
      EncodeGroup(data[0], data[1], data[2]) + Encode(data[3..])
  }

  /** The input with every '\r' and '\n' removed: the decoder skips them wherever they are. */
  function SkipNewlines(s: string): (t: string)
    ensures |t| <= |s|
    ensures forall i :: 0 <= i < |t| ==> t[i] != '\r' && t[i] != '\n'
    decreases |s|
  {
    if s == [] then []
    else (if s[0] == '\r' || s[0] == '\n' then [] else [s[0]]) + SkipNewlines(s[1..])
  }

  /** Four characters' values as three bytes; the low bits of a padded group are dropped with the bytes they would form. */
  function Byte0(v0: nat, v1: nat): byte
    requires v0 < 64 && v1 < 64
  {
    v0 * 4 + v1 / 16
  }

  function Byte1(v1: nat, v2: nat): byte
    requires v1 < 64 && v2 < 64
  {
    (v1 % 16) * 16 + v2 / 4
  }

  function Byte2(v2: nat, v3: nat): byte
    requires v2 < 64 && v3 < 64
  {
    (v2 % 4) * 64 + v3
  }

  /** Decoding once newlines are gone: groups of four, padding only at the very end. */
  function DecodeGroups(s: string): Option<seq<byte>>
    decreases |s|
  {
    if |s| == 0 then Some([])
    else if |s| < 4 then None
    else
      var c0, c1, c2, c3 := CharValue(s[0]), CharValue(s[1]), CharValue(s[2]), CharValue(s[3]);
      if c0.None? || c1.None? then None
      else if c2.Some? && c3.Some? then
        match DecodeGroups(s[4..])
        case None => None
        case Some(rest) =>
          Some([Byte0(c0.value, c1.value), Byte1(c1.value, c2.value), Byte2(c2.value, c3.value)] + rest)
      else if |s| == 4 && s[2] == '=' && s[3] == '=' then
        Some([Byte0(c0.value, c1.value)])
      else if |s| == 4 && c2.Some? && s[3] == '=' then
        Some([Byte0(c0.value, c1.value), Byte1(c1.value, c2.value)])
      else None
  }

  /** DecodeString. */
  function Decode(s: string): Option<seq<byte>> {
    DecodeGroups(SkipNewlines(s))
  }

  /** The three bytes of a group come back from its four characters. */
  lemma {:induction false} GroupRoundTrip(a: byte, b: byte, c: byte)
    ensures Byte0(a / 4, (a % 4) * 16 + b / 16) == a
    ensures Byte1((a % 4) * 16 + b / 16, (b % 16) * 4 + c / 64) == b
    ensures Byte2((b % 16) * 4 + c / 64, c % 64) == c
  {
    var v1 := (a % 4) * 16 + b / 16;
    var v2 := (b % 16) * 4 + c / 64;
    assert v1 / 16 == a % 4 && v1 % 16 == b / 16;
    assert v2 / 4 == b % 16 && v2 % 4 == c / 64;
  }

  /** Encoded text has no newlines to skip. */
  lemma {:induction false} NothingToSkip(s: string)
    requires forall i :: 0 <= i < |s| ==> s[i] != '\r' && s[i] != '\n'
    ensures SkipNewlines(s) == s
    decreases |s|
  {
    if s != [] {
      NothingToSkip(s[1..]);
      assert [s[0]] + s[1..] == s;
    }
  }

  /** EncodeToString writes only alphabet characters and padding. */
  lemma {:induction false} EncodedCharacters(data: seq<byte>)
    ensures forall i :: 0 <= i < |Encode(data)| ==> IsAlphabet(Encode(data)[i]) || Encode(data)[i] == '='
    decreases |data|
  {
    if |data| >= 3 {
      EncodedCharacters(data[3..]);
      var g, t := EncodeGroup(data[0], data[1], data[2]), Encode(data[3..]);
      assert Encode(data) == g + t;
      forall i | 0 <= i < |g + t|
        ensures IsAlphabet((g + t)[i]) || (g + t)[i] == '='
      {
        if i >= 4 {
          assert (g + t)[i] == t[i - 4];
        }
      }
    }
  }

  /** Decoding what EncodeToString produced gives the bytes back. */
  lemma {:induction false} DecodeEncode(data: seq<byte>)
    ensures Decode(Encode(data)) == Some(data)
  {
    var e := Encode(data);
    EncodedCharacters(data);
    NothingToSkip(e);
    DecodeGroupsEncode(data);
  }

  lemma DecodeOneByte(a: byte)
    ensures DecodeGroups(Encode([a])) == Some([a])
  {
    var e := Encode([a]);
    assert e == [Alphabet(a / 4), Alphabet((a % 4) * 16), '=', '='];
    assert Byte0(a / 4, (a % 4) * 16) == a;
  }

  lemma DecodeTwoBytes(a: byte, b: byte)
    ensures DecodeGroups(Encode([a, b])) == Some([a, b])
  {
    GroupRoundTrip(a, b, 0);
    var v1, v2 := (a % 4) * 16 + b / 16, (b % 16) * 4;
    var e := Encode([a, b]);
    assert e == [Alphabet(a / 4), Alphabet(v1), Alphabet(v2), '='];
    assert CharValue(e[2]) == Some(v2) && CharValue(e[3]).None?;
  }

  lemma DecodeFullGroup(a: byte, b: byte, c: byte, tail: string, rest: seq<byte>)
    requires DecodeGroups(tail) == Some(rest)
    ensures DecodeGroups(EncodeGroup(a, b, c) + tail) == Some([a, b, c] + rest)
  {
    GroupRoundTrip(a, b, c);
    var s := EncodeGroup(a, b, c) + tail;
    assert s[4..] == tail;
    assert CharValue(s[0]) == Some(a / 4);
    assert CharValue(s[1]) == Some((a % 4) * 16 + b / 16);
    assert CharValue(s[2]) == Some((b % 16) * 4 + c / 64);
    assert CharValue(s[3]) == Some(c % 64);
  }

  lemma DecodeLongerInput(a: byte, b: byte, c: byte, rest: seq<byte>)
    requires DecodeGroups(Encode(rest)) == Some(rest)
    ensures DecodeGroups(Encode([a, b, c] + rest)) == Some([a, b, c] + rest)
  {
    var data := [a, b, c] + rest;
    assert data[3..] == rest;
    assert Encode(data) == EncodeGroup(a, b, c) + Encode(rest);
    DecodeFullGroup(a, b, c, Encode(rest), rest);
  }

  lemma {:induction false} DecodeGroupsEncode(data: seq<byte>)
    ensures DecodeGroups(Encode(data)) == Some(data)
    decreases |data|
  {
    if |data| == 1 {
      assert data == [data[0]];
      DecodeOneByte(data[0]);
    } else if |data| == 2 {
      assert data == [data[0], data[1]];
      DecodeTwoBytes(data[0], data[1]);
    } else if |data| >= 3 {
      assert data == [data[0], data[1], data[2]] + data[3..];
      DecodeGroupsEncode(data[3..]);
      DecodeLongerInput(data[0], data[1], data[2], data[3..]);
    }
  }

  /** Text whose length, newlines aside, is not a multiple of four is rejected. */
  lemma {:induction false} RaggedLengthRejected(s: string)
    requires |s| % 4 != 0
    ensures DecodeGroups(s) == None
    decreases |s|
  {
    if |s| >= 4 {
      RaggedLengthRejected(s[4..]);
    }
  }

  /** A byte that is not in the alphabet, a newline or padding makes the whole text invalid. */
  lemma {:induction false} ForeignCharRejected(s: string, i: nat)
    requires i < |s| && !IsAlphabet(s[i]) && s[i] != '='
    ensures DecodeGroups(s) == None
    decreases |s|
  {
    if |s| >= 4 && i >= 4 {
      ForeignCharRejected(s[4..], i - 4);
    }
  }
}

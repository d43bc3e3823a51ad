/**
  The feed's `next_key` cursor (backend/internal/handler/post_handler.go): the store's
  LastEvaluatedKey, serialised, then base64 (StdEncoding). The JSON step is modelled by
  an injective byte serialiser of the key: each character as three bytes of its code
  point, the partition key and sort key separated by the byte 255, which no character's
  first byte can be. Go's own json.Unmarshal into an AttributeValue map does not restore
  the key; this serialiser stands for the round trip the cursor is meant to complete.
*/
module Cursor {
  import opened Wrappers
  import opened Keys
  import opened Base64

  function CharBytes(c: char): (b: seq<byte>)
    ensures |b| == 3 && b[0] <= 16
  {
    var v := c as int;
    [v / 65536, (v / 256) % 256, v % 256]
  }

  function StringBytes(s: string): (b: seq<byte>)
    ensures |b| == 3 * |s|
  {
    if s == [] then [] else CharBytes(s[0]) + StringBytes(s[1..])
  }

  /** The serialised key: the partition key's characters, the separator, the sort key's characters. */
  function Serialize(k: Key): (b: seq<byte>)
    ensures |b| > 0
  {
    StringBytes(k.pk) + [255] + StringBytes(k.sk)
  }

  /** The character whose code point three bytes spell, when it is a Unicode scalar value. */
  function CharOf(b0: byte, b1: byte, b2: byte): Option<char> {
    var v := b0 * 65536 + b1 * 256 + b2;
    if 0 <= v < 0xD800 || 0xE000 <= v < 0x11_0000 then Some(v as char) else None
  }

  function ParseString(b: seq<byte>): Option<string>
    decreases |b|
  {
    if |b| == 0 then Some("")
    else if |b| < 3 then None
    else
      match CharOf(b[0], b[1], b[2])
      case None => None
      case Some(c) =>
        match ParseString(b[3..])
        case None => None
        case Some(rest) => Some([c] + rest)
  }

  /** Reading a key back: characters up to the separator, then the sort key's characters to the end. */
  function Parse(b: seq<byte>): Option<Key>
    decreases |b|
  {
    if |b| == 0 then None
    else if b[0] == 255 then
      match ParseString(b[1..])
      case None => None
      case Some(sk) => Some(Key("", sk))
    else if |b| < 3 then None
    else
      match CharOf(b[0], b[1], b[2])
      case None => None
      case Some(c) =>
        match Parse(b[3..])
        case None => None
        case Some(k) => Some(Key([c] + k.pk, k.sk))
  }

  lemma CharRoundTrip(c: char)
    ensures CharOf(CharBytes(c)[0], CharBytes(c)[1], CharBytes(c)[2]) == Some(c)
  {
    var v := c as int;
    assert (v / 65536) * 65536 + ((v / 256) % 256) * 256 + v % 256 == v;
  }

  lemma {:induction false} ParseStringBytes(s: string)
    ensures ParseString(StringBytes(s)) == Some(s)
    decreases |s|
  {
    if s != [] {
      var b := StringBytes(s);
      CharRoundTrip(s[0]);
      ParseStringBytes(s[1..]);
      assert b[3..] == StringBytes(s[1..]);
      assert s == [s[0]] + s[1..];
    }
  }

  lemma ParseStep(c: char, tail: seq<byte>, k: Key)
    requires Parse(tail) == Some(k)
    ensures Parse(CharBytes(c) + tail) == Some(Key([c] + k.pk, k.sk))
  {
    CharRoundTrip(c);
    var b := CharBytes(c) + tail;
    assert b[0] != 255 && b[3..] == tail;
    assert b[..3] == CharBytes(c);
  }

  lemma {:induction false} ParseSerialized(pk: string, sk: string)
    ensures Parse(StringBytes(pk) + [255] + StringBytes(sk)) == Some(Key(pk, sk))
    decreases |pk|
  {
    if pk == [] {
      var b := [255] + StringBytes(sk);
      assert StringBytes(pk) + [255] + StringBytes(sk) == b;
      assert b[1..] == StringBytes(sk);
      ParseStringBytes(sk);
    } else {
      ParseSerialized(pk[1..], sk);
      ParseStep(pk[0], StringBytes(pk[1..]) + [255] + StringBytes(sk), Key(pk[1..], sk));
      assert StringBytes(pk) + [255] + StringBytes(sk) == CharBytes(pk[0]) + (StringBytes(pk[1..]) + [255] + StringBytes(sk));
      assert pk == [pk[0]] + pk[1..];
    }
  }

  /** The serialiser is injective: parsing gives the key back. */
  lemma ParseSerialize(k: Key)
    ensures Parse(Serialize(k)) == Some(k)
  {
    ParseSerialized(k.pk, k.sk);
  }

  /** next_key of a response: empty when the page has no LastEvaluatedKey. */
  function EncodeNextKey(k: Option<Key>): (s: string)
    ensures k.None? <==> s == ""
  {
    if k.None? then "" else Encode(Serialize(k.value))
  }

  /**
    The start key a request's next_key yields: none for an empty parameter, an error
    (answered with 400) when it is not valid base64, and otherwise the parsed key, or
    none when the bytes do not parse as a key.
  */
  function DecodeNextKey(s: string): (r: Result<Option<Key>>)
    ensures r.Err? <==> s != "" && Decode(s).None?
    ensures r.Err? ==> r.error == InvalidInput
    ensures s == "" ==> r == Ok(None)
  {
    if s == "" then Ok(None)
    else
      match Decode(s)
      case None => Err(InvalidInput)
      case Some(bytes) => Ok(Parse(bytes))
  }

  /** A next_key the feed handed out resumes at exactly the key it came from. */
  lemma NextKeyRoundTrip(k: Option<Key>)
    ensures DecodeNextKey(EncodeNextKey(k)) == Ok(k)
  {
    if k.Some? {
      DecodeEncode(Serialize(k.value));
      ParseSerialize(k.value);
    }
  }
}

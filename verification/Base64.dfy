/**
 Base64 with the alphabet and padding of section 4 of RFC 4648, and the decoder the replay store reads it with
 (python/services/replay/store.py): Python's lenient one, which passes over characters outside the alphabet.
*/
module Base64 {
  import opened Messages
  import opened PyJson

  type Byte = b: nat | b < 256

  const PAD: Code := 0x3d

  /** The character of a six-bit value. */
  function Letter(d: nat): Code
    requires d < 64
  {
    if d < 26 then 0x41 + d
    else if d < 52 then 0x61 + (d - 26)
    else if d < 62 then 0x30 + (d - 52)
    else if d == 62 then 0x2b
    else 0x2f
  }

  function Sextet(c: Code): (r: Option<nat>)
    ensures r.Some? ==> r.value < 64 && Letter(r.value) == c
  {
    if 0x41 <= c <= 0x5a then Some(c - 0x41)
    else if 0x61 <= c <= 0x7a then Some(c - 0x61 + 26)
    else if 0x30 <= c <= 0x39 then Some(c - 0x30 + 52)
    else if c == 0x2b then Some(62)
    else if c == 0x2f then Some(63)
    else None
  }

  lemma LetterReads(d: nat)
    requires d < 64
    ensures Sextet(Letter(d)) == Some(d)
  {
  }

  /** Three bytes become four characters; a last group of one or two bytes is padded. */
  function Encode(bytes: seq<Byte>): Str {
    if bytes == [] then []
    else if |bytes| == 1 then [Letter(bytes[0] / 4), Letter(bytes[0] % 4 * 16), PAD, PAD]
    else if |bytes| == 2 then
      [Letter(bytes[0] / 4), Letter(bytes[0] % 4 * 16 + bytes[1] / 16), Letter(bytes[1] % 16 * 4), PAD]
    else
      [Letter(bytes[0] / 4), Letter(bytes[0] % 4 * 16 + bytes[1] / 16), Letter(bytes[1] % 16 * 4 + bytes[2] / 64),
       Letter(bytes[2] % 64)] + Encode(bytes[3..])
  }

  /** The bits of a group that have not filled a byte yet. */
  predicate Pending(place: nat, left: nat) {
    place < 4 && (place == 1 ==> left < 64) && (place == 2 ==> left < 16) && (place == 3 ==> left < 4)
  }

  function Then(b: Byte, r: Option<seq<Byte>>): Option<seq<Byte>> {
    match r
    case None => None
    case Some(bytes) => Some([b] + bytes)
  }

  /**
   The decoder at position `place` of a group of four, `left` pending, after `pads` padding characters.  Enough
   padding ends the text; without it, a text that ends inside a group is an error.
  */
  function DecodeFrom(s: Str, place: nat, left: nat, pads: nat): Option<seq<Byte>>
    requires Pending(place, left)
    decreases |s|
  {
    if s == [] then if place == 0 then Some([]) else None
    else if s[0] == PAD then
      if place >= 2 && place + pads + 1 >= 4 then Some([])
      else DecodeFrom(s[1..], place, left, if place >= 2 then pads + 1 else pads)
    else if Sextet(s[0]).None? then DecodeFrom(s[1..], place, left, pads)
    else
      var d := Sextet(s[0]).value;
      if place == 0 then DecodeFrom(s[1..], 1, d, 0)
      else if place == 1 then Then(left * 4 + d / 16, DecodeFrom(s[1..], 2, d % 16, 0))
      else if place == 2 then Then(left * 16 + d / 4, DecodeFrom(s[1..], 3, d % 4, 0))
      else Then(left * 64 + d, DecodeFrom(s[1..], 0, 0, 0))
  }

  /** base64.b64decode of a string: None for a non-ASCII string or incorrect padding, both a ValueError. */
  function Decode(s: Str): Option<seq<Byte>> {
    if exists i :: 0 <= i < |s| && s[i] >= 128 then None else DecodeFrom(s, 0, 0, 0)
  }

  /** One character of the alphabet. */
  lemma LetterStep(d: nat, s: Str, place: nat, left: nat)
    requires d < 64 && Pending(place, left)
    ensures DecodeFrom([Letter(d)] + s, place, left, 0) ==
      if place == 0 then DecodeFrom(s, 1, d, 0)
      else if place == 1 then Then(left * 4 + d / 16, DecodeFrom(s, 2, d % 16, 0))
      else if place == 2 then Then(left * 16 + d / 4, DecodeFrom(s, 3, d % 4, 0))
      else Then(left * 64 + d, DecodeFrom(s, 0, 0, 0))
  {
    LetterReads(d);
    assert ([Letter(d)] + s)[1..] == s;
  }

  /** A byte split over two six-bit values, `low` of its values in the second one, above `high`. */
  lemma TwoSextets(b: Byte, low: nat, scale: nat, high: nat)
    requires (low == 4 && scale == 16) || (low == 16 && scale == 4)
    requires high < scale
    ensures (b % low * scale + high) / scale == b % low && (b % low * scale + high) % scale == high
    ensures b / low * low + b % low == b && b % low * scale + high < 64
  {
  }

  /** The first two characters of a group give its first byte. */
  lemma FirstByte(a: Byte, high: nat, s: Str)
    requires high < 16
    ensures DecodeFrom([Letter(a / 4)] + ([Letter(a % 4 * 16 + high)] + s), 0, 0, 0) ==
        Then(a, DecodeFrom(s, 2, high, 0))
  {
    TwoSextets(a, 4, 16, high);
    LetterStep(a / 4, [Letter(a % 4 * 16 + high)] + s, 0, 0);
    LetterStep(a % 4 * 16 + high, s, 1, a / 4);
  }

  lemma SecondByte(b: Byte, high: nat, s: Str)
    requires high < 4
    ensures DecodeFrom([Letter(b % 16 * 4 + high)] + s, 2, b / 16, 0) == Then(b, DecodeFrom(s, 3, high, 0))
  {
    TwoSextets(b, 16, 4, high);
    LetterStep(b % 16 * 4 + high, s, 2, b / 16);
  }

  lemma ThirdByte(c: Byte, u: Str)
    ensures DecodeFrom([Letter(c % 64)] + u, 3, c / 64, 0) == Then(c, DecodeFrom(u, 0, 0, 0))
  {
    LetterStep(c % 64, u, 3, c / 64);
  }

  lemma FirstTwoBytes(a: Byte, b: Byte, high: nat, s: Str)
    requires high < 4
    ensures DecodeFrom([Letter(a / 4)] + ([Letter(a % 4 * 16 + b / 16)] + ([Letter(b % 16 * 4 + high)] + s)), 0, 0, 0)
         == Then(a, Then(b, DecodeFrom(s, 3, high, 0)))
  {
    FirstByte(a, b / 16, [Letter(b % 16 * 4 + high)] + s);
    SecondByte(b, high, s);
  }

  lemma Padding(left: nat)
    ensures left < 16 ==> DecodeFrom([PAD, PAD], 2, left, 0) == Some([])
    ensures left < 4 ==> DecodeFrom([PAD], 3, left, 0) == Some([])
  {
    if left < 16 {
      assert DecodeFrom([PAD], 2, left, 1) == Some([]);
      assert [PAD, PAD][1..] == [PAD];
    }
  }

  lemma OneByteDecodes(a: Byte)
    ensures DecodeFrom(Encode([a]), 0, 0, 0) == Some([a])
  {
    assert Encode([a]) == [Letter(a / 4)] + ([Letter(a % 4 * 16 + 0)] + [PAD, PAD]);
    FirstByte(a, 0, [PAD, PAD]);
    Padding(0);
    assert [a] + [] == [a];
  }

  lemma TwoBytesDecode(a: Byte, b: Byte)
    ensures DecodeFrom(Encode([a, b]), 0, 0, 0) == Some([a, b])
  {
    assert Encode([a, b]) == [Letter(a / 4)] + ([Letter(a % 4 * 16 + b / 16)] + ([Letter(b % 16 * 4 + 0)] + [PAD]));
    FirstTwoBytes(a, b, 0, [PAD]);
    Padding(0);
    assert [a] + ([b] + []) == [a, b];
  }

  lemma FourInFront<T>(w: T, x: T, y: T, z: T, u: seq<T>)
    ensures [w, x, y, z] + u == [w] + ([x] + ([y] + ([z] + u)))
  {
  }

  lemma ThreeInFront<T>(s: seq<T>)
    requires |s| >= 3
    ensures [s[0]] + ([s[1]] + ([s[2]] + s[3..])) == s
  {
  }

  lemma GroupDecodes(a: Byte, b: Byte, c: Byte, u: Str)
    ensures DecodeFrom([Letter(a / 4), Letter(a % 4 * 16 + b / 16), Letter(b % 16 * 4 + c / 64), Letter(c % 64)] + u,
        0, 0, 0)
         == Then(a, Then(b, Then(c, DecodeFrom(u, 0, 0, 0))))
  {
    FourInFront(Letter(a / 4), Letter(a % 4 * 16 + b / 16), Letter(b % 16 * 4 + c / 64), Letter(c % 64), u);
    FirstTwoBytes(a, b, c / 64, [Letter(c % 64)] + u);
    ThirdByte(c, u);
  }

  lemma {:induction false} DecodeEncode(bytes: seq<Byte>)
    ensures DecodeFrom(Encode(bytes), 0, 0, 0) == Some(bytes)
    decreases |bytes|
  {
    if |bytes| == 1 {
      assert bytes == [bytes[0]];
      OneByteDecodes(bytes[0]);
    } else if |bytes| == 2 {
      assert bytes == [bytes[0], bytes[1]];
      TwoBytesDecode(bytes[0], bytes[1]);
    } else if |bytes| >= 3 {
      DecodeEncode(bytes[3..]);
      GroupDecodes(bytes[0], bytes[1], bytes[2], Encode(bytes[3..]));
      ThreeInFront(bytes);
    }
  }

  lemma {:induction false} EncodeIsAscii(bytes: seq<Byte>)
    ensures |Encode(bytes)| == (|bytes| + 2) / 3 * 4
    ensures forall i :: 0 <= i < |Encode(bytes)| ==> Encode(bytes)[i] < 128
    decreases |bytes|
  {
    if |bytes| >= 3 {
      EncodeIsAscii(bytes[3..]);
    }
  }

  lemma RoundTrip(bytes: seq<Byte>)
    ensures Decode(Encode(bytes)) == Some(bytes)
  {
    EncodeIsAscii(bytes);
    DecodeEncode(bytes);
  }
}

/**
  Strict incremental UTF-8 decoding, as section 3 of RFC 3629 defines it: the
  decoder the plan reader feeds block by block.
*/
module Utf8 {

  type Byte = b: int | 0 <= b < 256

  type Text = seq<char>

  /** The first scalar value of a byte string, or why there is none yet. */
  datatype Head = More | Bad | Scalar(c: char, width: nat)

  predicate IsTail(b: Byte) {
    0x80 <= b < 0xC0
  }

  /** The bytes that may follow lead byte `lead`: no overlong form, no surrogate,
      nothing above U+10FFFF. */
  predicate SecondOk(lead: Byte, b: Byte) {
    && IsTail(b)
    && (lead == 0xE0 ==> 0xA0 <= b)
    && (lead == 0xED ==> b < 0xA0)
    && (lead == 0xF0 ==> 0x90 <= b)
    && (lead == 0xF4 ==> b < 0x90)
  }

  function Width(lead: Byte): nat {
    if lead < 0x80 then 1
    else if 0xC2 <= lead < 0xE0 then 2
    else if 0xE0 <= lead < 0xF0 then 3
    else if 0xF0 <= lead < 0xF5 then 4
    else 0
  }

  /** Six more bits, taken from a tail byte. */
  function Join(high: int, b: Byte): int {
    high * 64 + (b - 0x80)
  }

  /** The first scalar value of `s`, read as section 4 of RFC 3629 lays it out. */
  function First(s: seq<Byte>): (h: Head)
    requires s != []
    ensures h.Scalar? ==> 1 <= h.width <= |s|
  {
    var n := Width(s[0]);
    if n == 0 then Bad
    else if n == 1 then Scalar(s[0] as char, 1)
    else if |s| == 1 then More
    else if !SecondOk(s[0], s[1]) then Bad
    else if n == 2 then Scalar(Join(s[0] - 0xC0, s[1]) as char, 2)
    else if |s| == 2 then More
    else if !IsTail(s[2]) then Bad
    else if n == 3 then Scalar(Join(Join(s[0] - 0xE0, s[1]), s[2]) as char, 3)
    else if |s| == 3 then More
    else if !IsTail(s[3]) then Bad
    else Scalar(Join(Join(Join(s[0] - 0xF0, s[1]), s[2]), s[3]) as char, 4)
  }

  /** What a byte string decodes to: the scalar values read, the bytes not yet
      decoded, and whether those bytes can never become a scalar value. */
  datatype Decoding = Decoding(text: Text, left: seq<Byte>, bad: bool)

  function Decode(s: seq<Byte>): Decoding {
    if s == [] then Decoding([], [], false)
    else
      match First(s)
      case More => Decoding([], s, false)
      case Bad => Decoding([], s, true)
      case Scalar(c, n) => var d := Decode(s[n..]); d.(text := [c] + d.text)
  }

  /** The whole byte string is the encoding of some text. */
  predicate Clean(s: seq<Byte>) {
    !Decode(s).bad && Decode(s).left == []
  }

  /** More input never changes a scalar value already read, nor repairs bad input. */
  lemma FirstStable(a: seq<Byte>, b: seq<Byte>)
    requires a != []
    ensures First(a) != More ==> First(a + b) == First(a)
  {
  }

  /** Decoding in two steps, carrying the undecoded bytes over, is decoding at once. */
  lemma {:induction false} DecodeAppend(a: seq<Byte>, b: seq<Byte>)
    ensures var d := Decode(a);
            if d.bad then Decode(a + b).bad && Decode(a + b).text == d.text
            else
              && Decode(a + b).text == d.text + Decode(d.left + b).text
              && Decode(a + b).left == Decode(d.left + b).left
              && Decode(a + b).bad == Decode(d.left + b).bad
    decreases |a|
  {
    if a == [] {
      assert a + b == b;
      assert Decode(a).left + b == b;
    } else {
      FirstStable(a, b);
      match First(a)
      case More =>
      case Bad =>
      case Scalar(c, n) =>
        assert (a + b)[n..] == a[n..] + b;
        DecodeAppend(a[n..], b);
    }
  }

  /** Every scalar value read takes at least one byte. */
  lemma {:induction false} DecodeShrinks(s: seq<Byte>)
    ensures |Decode(s).text| + |Decode(s).left| <= |s|
    decreases |s|
  {
    if s != [] {
      match First(s)
      case Scalar(c, n) => DecodeShrinks(s[n..]);
      case _ =>
    }
  }

  function TailOf(v: nat): Byte {
    0x80 + v % 64
  }

  function EncodeOne(c: char): seq<Byte> {
    var v := c as int;
    if v < 0x80 then [v]
    else if v < 0x800 then [0xC0 + v / 64, TailOf(v)]
    else if v < 0x10000 then [0xE0 + v / 64 / 64, TailOf(v / 64), TailOf(v)]
    else [0xF0 + v / 64 / 64 / 64, TailOf(v / 64 / 64), TailOf(v / 64), TailOf(v)]
  }

  function Encode(t: Text): seq<Byte> {
    if t == [] then [] else EncodeOne(t[0]) + Encode(t[1..])
  }

  lemma JoinTail(v: nat)
    ensures Join(v / 64, TailOf(v)) == v
  {
  }

  lemma FirstOfEncoded(c: char, rest: seq<Byte>)
    ensures First(EncodeOne(c) + rest) == Scalar(c, |EncodeOne(c)|)
  {
    var v := c as int;
    JoinTail(v);
    JoinTail(v / 64);
    JoinTail(v / 64 / 64);
    var s := EncodeOne(c) + rest;
    if v >= 0x10000 {
      assert s[0] == 0xF0 + v / 64 / 64 / 64 && s[1] == TailOf(v / 64 / 64) && s[2] == TailOf(v / 64) && s[3] == TailOf(v);
    } else if v >= 0x800 {
      assert s[0] == 0xE0 + v / 64 / 64 && s[1] == TailOf(v / 64) && s[2] == TailOf(v);
    }
  }

  /** Decoding undoes encoding, for every text. */
  lemma {:induction false} DecodeEncode(t: Text)
    ensures Decode(Encode(t)) == Decoding(t, [], false)
  {
    if t != [] {
      FirstOfEncoded(t[0], Encode(t[1..]));
      assert (EncodeOne(t[0]) + Encode(t[1..]))[|EncodeOne(t[0])|..] == Encode(t[1..]);
      DecodeEncode(t[1..]);
      assert [t[0]] + t[1..] == t;
    }
  }
}

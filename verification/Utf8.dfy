/**
 UTF-8 as sections 3 and 4 of RFC 3629 define it. A Go string is a sequence of bytes; ranging over one
 decodes it leniently, a malformed byte becoming U+FFFD.
 */
module Utf8 {
  type byte = b: int | 0 <= b < 256

  const REPLACEMENT: char := '\U{FFFD}'

  /** The octets of one code point. */
  function Encode(c: char): (b: seq<byte>)
    ensures 1 <= |b| <= 4
    ensures Starts(b[0]) && forall i :: 1 <= i < |b| ==> !Starts(b[i])
  {
    var r := c as int;
    if r < 0x80 then [r]
    else if r < 0x800 then [0xC0 + r / 64, 0x80 + r % 64]
    else if r < 0x10000 then [0xE0 + r / 4096, 0x80 + r / 64 % 64, 0x80 + r % 64]
    else [0xF0 + r / 262144, 0x80 + r / 4096 % 64, 0x80 + r / 64 % 64, 0x80 + r % 64]
  }

  function EncodeAll(s: string): (b: seq<byte>) {
    if s == "" then [] else Encode(s[0]) + EncodeAll(s[1..])
  }

  /** utf8.RuneStart. */
  predicate Starts(b: byte) {
    !(0x80 <= b <= 0xBF)
  }

  /** How many octets the well-formed code point at the front takes; 0 when it is malformed. */
  function Width(b: seq<byte>): (w: nat)
    ensures w <= |b| && w <= 4
  {
    if b == [] then 0
    else if b[0] < 0x80 then 1
    else if 0xC2 <= b[0] <= 0xDF then if |b| >= 2 && !Starts(b[1]) then 2 else 0
    else if 0xE0 <= b[0] <= 0xEF then if |b| >= 3 && Second(b[0], b[1]) && !Starts(b[2]) then 3 else 0
    else if 0xF0 <= b[0] <= 0xF4 then if |b| >= 4 && Second(b[0], b[1]) && !Starts(b[2]) && !Starts(b[3]) then 4 else 0
    else 0
  }

  /** The second octet of a longer sequence: no overlong form, no surrogate, nothing above U+10FFFF. */
  predicate Second(first: byte, second: byte) {
    && !Starts(second)
    && (first == 0xE0 ==> second >= 0xA0) && (first == 0xED ==> second <= 0x9F)
    && (first == 0xF0 ==> second >= 0x90) && (first == 0xF4 ==> second <= 0x8F)
  }

  /** The code point at the front, utf8.DecodeRune. */
  function Decode(b: seq<byte>): (c: char)
    requires b != []
  {
    match Width(b)
    case 0 => REPLACEMENT
    case 1 => b[0] as char
    case 2 => Join(b[0] - 0xC0, b[1]) as char
    case 3 => Join(Join(b[0] - 0xE0, b[1]), b[2]) as char
    case _ => Join(Join(Join(b[0] - 0xF0, b[1]), b[2]), b[3]) as char
  }

  /** Six more bits, from a continuation octet. */
  function Join(high: int, next: int): (r: int) {
    high * 64 + (next - 0x80)
  }

  /** The code points a range loop over the string yields. */
  function Runes(b: seq<byte>): (s: string)
    decreases |b|
  {
    if b == [] then "" else [Decode(b)] + Runes(b[if Width(b) == 0 then 1 else Width(b)..])
  }

  /** utf8.ValidString. */
  predicate ValidString(b: seq<byte>)
    decreases |b|
  {
    b == [] || (Width(b) > 0 && ValidString(b[Width(b)..]))
  }

  lemma Sextets(r: nat)
    ensures r == r / 64 * 64 + r % 64 && r / 64 == r / 4096 * 64 + r / 64 % 64 && r / 4096 == r / 262144 * 64 + r / 4096 % 64
  {
    assert r / 64 / 64 == r / 4096 && r / 4096 / 64 == r / 262144;
  }

  lemma EncodedRune(c: char, rest: seq<byte>)
    ensures Width(Encode(c) + rest) == |Encode(c)| && Decode(Encode(c) + rest) == c
    ensures (Encode(c) + rest)[|Encode(c)|..] == rest
  {
    Sextets(c as int);
    var b := Encode(c) + rest;
    assert b[0] == Encode(c)[0] && b[1..|Encode(c)|] == Encode(c)[1..];
  }

  lemma Unjoin(high: nat, next: byte)
    requires !Starts(next)
    ensures Join(high, next) / 64 == high && Join(high, next) % 64 == next - 0x80
  {
  }

  lemma DecodedRune(b: seq<byte>)
    requires Width(b) > 0
    ensures Encode(Decode(b)) == b[..Width(b)]
  {
    var r := Decode(b) as int;
    Sextets(r);
    match Width(b)
    case 1 =>
    case 2 =>
      Unjoin(b[0] - 0xC0, b[1]);
    case 3 =>
      Unjoin(b[0] - 0xE0, b[1]);
      Unjoin(Join(b[0] - 0xE0, b[1]), b[2]);
      hide Join;
      assert r / 4096 == b[0] - 0xE0;
    case _ =>
      FourOctets(b);
  }

  lemma FourOctets(b: seq<byte>)
    requires Width(b) == 4
    ensures Encode(Decode(b)) == b[..4]
  {
    var r := Decode(b) as int;
    Sextets(r);
    var two := Join(b[0] - 0xF0, b[1]);
    Unjoin(b[0] - 0xF0, b[1]);
    Unjoin(two, b[2]);
    Unjoin(Join(two, b[2]), b[3]);
    assert r >= 0x10000;
    hide Join;
    assert r / 4096 == two && r / 262144 == b[0] - 0xF0;
  }

  /** A place where no code point begins is one octet long and reads as U+FFFD; anywhere else the code point
      that begins there is read. */
  lemma RunesMean(b: seq<byte>)
    requires b != []
    ensures (forall c :: !(Encode(c) <= b)) ==> Runes(b) == ['\U{FFFD}'] + Runes(b[1..])
    ensures forall c :: Encode(c) <= b ==> Runes(b) == [c] + Runes(b[|Encode(c)|..])
  {
    if Width(b) > 0 {
      DecodedRune(b);
    }
    forall c | Encode(c) <= b
      ensures Width(b) == |Encode(c)| && Decode(b) == c
    {
      EncodedRune(c, b[|Encode(c)|..]);
      assert Encode(c) + b[|Encode(c)|..] == b;
    }
    hide Encode, Width, Decode;
  }

  /** Encoding then decoding gives the text back, and what encoding makes is valid. */
  lemma {:induction false} EncodeDecode(s: string)
    ensures ValidString(EncodeAll(s)) && Runes(EncodeAll(s)) == s
  {
    if s != "" {
      EncodeDecode(s[1..]);
      EncodedRune(s[0], EncodeAll(s[1..]));
      hide Encode, Width, Decode;
      assert s == [s[0]] + s[1..];
    }
  }

  /** The valid strings are exactly the encodings: decoding loses nothing if and only if it met no
      malformed byte. */
  lemma {:induction false} ValidIffEncoded(b: seq<byte>)
    ensures ValidString(b) <==> EncodeAll(Runes(b)) == b
  {
    EncodeDecode(Runes(b));
    ValidIsEncoded(b);
  }

  lemma {:induction false} ValidIsEncoded(b: seq<byte>)
    ensures ValidString(b) ==> EncodeAll(Runes(b)) == b
    decreases |b|
  {
    if b != [] && Width(b) > 0 {
      ValidIsEncoded(b[Width(b)..]);
      DecodedRune(b);
      hide Encode, Width, Decode;
    }
  }

  lemma {:induction false} EncodeConcat(s: string, t: string)
    ensures EncodeAll(s + t) == EncodeAll(s) + EncodeAll(t)
  {
    hide Encode;
    if s == "" {
      assert s + t == t;
    } else {
      assert (s + t)[1..] == s[1..] + t;
      EncodeConcat(s[1..], t);
    }
  }
}

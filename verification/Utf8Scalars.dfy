/**
 What Utf8.Valid means: the encodings of Unicode scalar values, as the table of
 section 3 of RFC 3629 writes them, and nothing else.
 */
module Utf8Scalars {
  import opened Prelude
  import opened Utf8

  /** A code point that is not a surrogate. */
  type Scalar = cp: int | 0 <= cp < 0xD800 || 0xE000 <= cp < 0x110000

  function Encode(cp: Scalar): Bytes {
    if cp < 0x80 then [cp]
    else if cp < 0x800 then [0xC0 + cp / 64, 0x80 + cp % 64]
    else if cp < 0x10000 then [0xE0 + cp / 4096, 0x80 + cp / 64 % 64, 0x80 + cp % 64]
    else [0xF0 + cp / 262144, 0x80 + cp / 4096 % 64, 0x80 + cp / 64 % 64, 0x80 + cp % 64]
  }

  function EncodeAll(scalars: seq<Scalar>): Bytes {
    if scalars == [] then [] else Encode(scalars[0]) + EncodeAll(scalars[1..])
  }

  /** The payload of the byte i. */
  function Payload(s: Bytes, i: nat, base: nat): int
    requires i < |s|
  {
    s[i] as int - base
  }

  /** The number the payload bits of the first rune spell. */
  function Decode(s: Bytes): (cp: int)
    requires RuneLen(s) > 0
  {
    match RuneLen(s)
    case 1 => s[0]
    case 2 => Payload(s, 0, 0xC0) * 64 + Payload(s, 1, 0x80)
    case 3 => (Payload(s, 0, 0xE0) * 64 + Payload(s, 1, 0x80)) * 64 + Payload(s, 2, 0x80)
    case _ => ((Payload(s, 0, 0xF0) * 64 + Payload(s, 1, 0x80)) * 64 + Payload(s, 2, 0x80)) * 64 + Payload(s, 3, 0x80)
  }

  lemma Digits(cp: nat)
    ensures cp == cp / 64 * 64 + cp % 64 && 0 <= cp % 64 < 64
    ensures cp / 64 / 64 == cp / 4096 && cp / 4096 / 64 == cp / 262144
  {
  }

  lemma DigitsBack(high: nat, low: nat)
    requires low < 64
    ensures (high * 64 + low) / 64 == high && (high * 64 + low) % 64 == low
  {
  }

  lemma LongEncoding(cp: Scalar, s: Bytes)
    requires cp >= 0x10000 && |s| >= 4 && s[..4] == Encode(cp)
    ensures RuneLen(s) == 4 && Decode(s) == cp
  {
    assert s[0] == s[..4][0] && s[1] == s[..4][1] && s[2] == s[..4][2] && s[3] == s[..4][3];
    Digits(cp);
    Digits(cp / 64);
    Digits(cp / 4096);
  }

  lemma ShortEncoding(cp: Scalar, s: Bytes)
    requires cp < 0x10000 && |s| >= |Encode(cp)| && s[..|Encode(cp)|] == Encode(cp)
    ensures RuneLen(s) == |Encode(cp)| && Decode(s) == cp
  {
    assert forall i :: 0 <= i < |Encode(cp)| ==> s[i] == s[..|Encode(cp)|][i];
    Digits(cp);
    Digits(cp / 64);
  }

  /** An encoded scalar is one rune, whatever follows, and reads back as itself. */
  lemma EncodedIsOneRune(cp: Scalar, rest: Bytes)
    ensures RuneLen(Encode(cp) + rest) == |Encode(cp)| > 0
    ensures Decode(Encode(cp) + rest) == cp
  {
    hide RuneLen, Decode;
    var s := Encode(cp) + rest;
    assert s[..|Encode(cp)|] == Encode(cp);
    if cp < 0x10000 {
      ShortEncoding(cp, s);
    } else {
      LongEncoding(cp, s);
    }
  }

  lemma TwoByteRune(s: Bytes)
    requires RuneLen(s) == 2
    ensures 0x80 <= Decode(s) < 0x800 && Encode(Decode(s)) == s[..2]
  {
    DigitsBack(Payload(s, 0, 0xC0), Payload(s, 1, 0x80));
  }

  lemma ThreeByteRune(s: Bytes)
    requires RuneLen(s) == 3
    ensures var cp := Decode(s);
      0x800 <= cp < 0x10000 && !(0xD800 <= cp < 0xE000) && Encode(cp) == s[..3]
  {
    var a, b, c := Payload(s, 0, 0xE0), Payload(s, 1, 0x80), Payload(s, 2, 0x80);
    assert SecondByte(s[0], s[1]);
    DigitsBack(a, b);
    DigitsBack(a * 64 + b, c);
    Digits(Decode(s));
  }

  lemma FourByteRune(s: Bytes)
    requires RuneLen(s) == 4
    ensures 0x10000 <= Decode(s) < 0x110000 && Encode(Decode(s)) == s[..4]
  {
    var a, b, c, d := Payload(s, 0, 0xF0), Payload(s, 1, 0x80), Payload(s, 2, 0x80), Payload(s, 3, 0x80);
    assert SecondByte(s[0], s[1]);
    DigitsBack(a, b);
    DigitsBack(a * 64 + b, c);
    DigitsBack((a * 64 + b) * 64 + c, d);
    Digits(Decode(s));
    Digits(Decode(s) / 64);
  }

  /** Whatever counts as one rune encodes one scalar: no overlong form, no surrogate, nothing too large. */
  lemma RuneIsEncoded(s: Bytes)
    requires RuneLen(s) > 0
    ensures var cp := Decode(s);
      (0 <= cp < 0xD800 || 0xE000 <= cp < 0x110000) && Encode(cp) == s[..RuneLen(s)]
  {
    hide Encode, Decode, RuneLen;
    if RuneLen(s) == 2 {
      TwoByteRune(s);
    } else if RuneLen(s) == 3 {
      ThreeByteRune(s);
    } else if RuneLen(s) == 4 {
      FourByteRune(s);
    } else {
      OneByteRune(s);
    }
  }

  lemma OneByteRune(s: Bytes)
    requires RuneLen(s) == 1
    ensures 0 <= Decode(s) < 0x80 && Encode(Decode(s)) == s[..1]
  {
  }

  lemma {:induction false} EncodedIsValid(scalars: seq<Scalar>)
    ensures Valid(EncodeAll(scalars))
  {
    if scalars != [] {
      var rest := EncodeAll(scalars[1..]);
      EncodedIsOneRune(scalars[0], rest);
      EncodedIsValid(scalars[1..]);
      assert (Encode(scalars[0]) + rest)[|Encode(scalars[0])|..] == rest;
    }
  }

  lemma {:induction false} ValidIsEncoded(s: Bytes) returns (scalars: seq<Scalar>)
    requires Valid(s)
    ensures EncodeAll(scalars) == s
    decreases |s|
  {
    hide RuneLen, Decode, Encode;
    scalars := [];
    if s != [] {
      RuneIsEncoded(s);
      var rest := ValidIsEncoded(s[RuneLen(s)..]);
      scalars := [Decode(s)] + rest;
      assert scalars[1..] == rest;
      assert s == s[..RuneLen(s)] + s[RuneLen(s)..];
    }
  }

  /** The valid byte strings are exactly the encodings of sequences of scalar values. */
  lemma ValidExactlyWhenEncoded(s: Bytes)
    ensures Valid(s) <==> exists scalars: seq<Scalar> :: EncodeAll(scalars) == s
  {
    if Valid(s) {
      var scalars := ValidIsEncoded(s);
    } else {
      forall scalars: seq<Scalar> ensures EncodeAll(scalars) != s {
        EncodedIsValid(scalars);
      }
    }
  }

  /** Different texts have different encodings. */
  lemma {:induction false} EncodingIsInjective(a: seq<Scalar>, b: seq<Scalar>)
    requires EncodeAll(a) == EncodeAll(b)
    ensures a == b
  {
    if a == [] || b == [] {
      if a != [] {
        EncodedIsOneRune(a[0], EncodeAll(a[1..]));
      }
      if b != [] {
        EncodedIsOneRune(b[0], EncodeAll(b[1..]));
      }
    } else {
      var restA, restB := EncodeAll(a[1..]), EncodeAll(b[1..]);
      EncodedIsOneRune(a[0], restA);
      EncodedIsOneRune(b[0], restB);
      ConcatCancels(Encode(a[0]), restA, restB);
      EncodingIsInjective(a[1..], b[1..]);
      assert a == [a[0]] + a[1..] && b == [b[0]] + b[1..];
    }
  }
}

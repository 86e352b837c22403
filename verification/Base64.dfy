/**
 The standard base64 alphabet and padding (section 4 of RFC 4648), which the
 credential store applies to every chunk it hands to the keyring.
 */
module Base64 {
  import opened Prelude

  function Symbol(v: nat): (c: char)
    requires v < 64
    ensures c != '='
    ensures Value(c) == Some(v)
  {
    if v < 26 then 'A' + v as char
    else if v < 52 then 'a' + (v - 26) as char
    else if v < 62 then '0' + (v - 52) as char
    else if v == 62 then '+'
    else '/'
  }

  function Value(c: char): (v: Option<nat>)
    ensures v.Some? ==> v.value < 64
  {
    if 'A' <= c <= 'Z' then Some((c - 'A') as nat)
    else if 'a' <= c <= 'z' then Some((c - 'a') as nat + 26)
    else if '0' <= c <= '9' then Some((c - '0') as nat + 52)
    else if c == '+' then Some(62)
    else if c == '/' then Some(63)
    else None
  }

  function Encode(data: Bytes): string {
    if |data| == 0 then ""
    else if |data| == 1 then
      [Symbol(data[0] / 4), Symbol(data[0] % 4 * 16), '=', '=']
    else if |data| == 2 then
      [Symbol(data[0] / 4), Symbol(data[0] % 4 * 16 + data[1] / 16), Symbol(data[1] % 16 * 4), '=']
    else
      Group(data[0], data[1], data[2]) + Encode(data[3..])
  }

  /** Three bytes as four symbols. */
  function Group(x: byte, y: byte, z: byte): (text: string)
    ensures |text| == 4
  {
    [Symbol(x / 4), Symbol(x % 4 * 16 + y / 16), Symbol(y % 16 * 4 + z / 64), Symbol(z % 64)]
  }

  function Decode(text: string): Option<Bytes> {
    if |text| == 0 then Some([])
    else if |text| < 4 then None
    else if text[3] == '=' then
      if |text| == 4 then DecodeTail(text) else None
    else
      match (Value(text[0]), Value(text[1]), Value(text[2]), Value(text[3]))
      case (Some(a), Some(b), Some(c), Some(d)) =>
        (match Decode(text[4..])
         case None => None
         case Some(rest) => Some([a * 4 + b / 16, b % 16 * 16 + c / 4, c % 4 * 64 + d] + rest))
      case _ => None
  }

  /** The last group of four when it is padded with one or two `=`. */
  function DecodeTail(text: string): Option<Bytes>
    requires |text| == 4
  {
    match (Value(text[0]), Value(text[1]))
    case (Some(a), Some(b)) =>
      if text[2] == '=' then Some([a * 4 + b / 16])
      else (match Value(text[2])
            case Some(c) => Some([a * 4 + b / 16, b % 16 * 16 + c / 4])
            case None => None)
    case _ => None
  }

  lemma {:induction false} EncodedLength(data: Bytes)
    ensures |Encode(data)| == (|data| + 2) / 3 * 4
  {
    hide Symbol, Group;
    if |data| >= 3 {
      EncodedLength(data[3..]);
    }
  }

  /** Cutting three bytes into four sextets and joining them again. */
  lemma SextetsRejoin(x: byte, y: byte, z: byte)
    ensures x / 4 * 4 + (x % 4 * 16 + y / 16) / 16 == x
    ensures (x % 4 * 16 + y / 16) % 16 * 16 + (y % 16 * 4 + z / 64) / 4 == y
    ensures (y % 16 * 4 + z / 64) % 4 * 64 + z % 64 == z
  {
  }

  lemma TailOfOne(a: nat, b: nat)
    requires a < 64 && b < 64
    ensures DecodeTail([Symbol(a), Symbol(b), '=', '=']) == Some([a * 4 + b / 16])
  {
  }

  lemma TailOfTwo(a: nat, b: nat, c: nat)
    requires a < 64 && b < 64 && c < 64
    ensures DecodeTail([Symbol(a), Symbol(b), Symbol(c), '=']) == Some([a * 4 + b / 16, b % 16 * 16 + c / 4])
  {
  }

  lemma RoundTripOne(x: byte)
    ensures Decode(Encode([x])) == Some([x])
  {
    var a, b := x / 4, x % 4 * 16;
    TailOfOne(a, b);
    assert a * 4 + b / 16 == x;
    assert Encode([x]) == [Symbol(a), Symbol(b), '=', '='];
  }

  lemma RoundTripTwo(x: byte, y: byte)
    ensures Decode(Encode([x, y])) == Some([x, y])
  {
    var a, b, c := x / 4, x % 4 * 16 + y / 16, y % 16 * 4;
    TailOfTwo(a, b, c);
    SextetsRejoin(x, y, 0);
    assert Encode([x, y]) == [Symbol(a), Symbol(b), Symbol(c), '='];
  }

  lemma DecodeStep(a: nat, b: nat, c: nat, d: nat, rest: string)
    requires a < 64 && b < 64 && c < 64 && d < 64
    requires Decode(rest).Some?
    ensures Decode([Symbol(a), Symbol(b), Symbol(c), Symbol(d)] + rest)
         == Some([a * 4 + b / 16, b % 16 * 16 + c / 4, c % 4 * 64 + d] + Decode(rest).value)
  {
    hide Symbol, Value;
    var text := [Symbol(a), Symbol(b), Symbol(c), Symbol(d)] + rest;
    assert text[4..] == rest;
  }

  lemma DecodeGroup(x: byte, y: byte, z: byte, rest: string)
    requires Decode(rest).Some?
    ensures Decode(Group(x, y, z) + rest) == Some([x, y, z] + Decode(rest).value)
  {
    hide Symbol, Value, Decode;
    SextetsRejoin(x, y, z);
    DecodeStep(x / 4, x % 4 * 16 + y / 16, y % 16 * 4 + z / 64, z % 64, rest);
  }

  lemma {:induction false} RoundTrip(data: Bytes)
    ensures Decode(Encode(data)) == Some(data)
  {
    hide Symbol, Value, Group, DecodeTail;
    if |data| >= 3 {
      RoundTrip(data[3..]);
      DecodeGroup(data[0], data[1], data[2], Encode(data[3..]));
      assert data == [data[0], data[1], data[2]] + data[3..];
    } else if |data| == 2 {
      RoundTripTwo(data[0], data[1]);
      assert data == [data[0], data[1]];
    } else if |data| == 1 {
      RoundTripOne(data[0]);
      assert data == [data[0]];
    }
  }

  /** Table 1 of section 4 of RFC 4648. */
  lemma StandardAlphabet(v: nat)
    requires v < 64
    ensures v < 26 ==> Symbol(v) == "ABCDEFGHIJKLMNOPQRSTUVWXYZ"[v]
    ensures 26 <= v < 52 ==> Symbol(v) == "abcdefghijklmnopqrstuvwxyz"[v - 26]
    ensures 52 <= v ==> Symbol(v) == "0123456789+/"[v - 52]
  {
    if v < 26 {
      UpperCase(v);
    } else if v < 52 {
      LowerCase(v - 26);
    }
  }

  lemma UpperCase(n: nat)
    requires n < 26
    ensures "ABCDEFGHIJKLMNOPQRSTUVWXYZ"[n] == 'A' + n as char
  {
    var s := "ABCDEFGHIJKLMNOPQRSTUVWXYZ";
    assert s[..13] == "ABCDEFGHIJKLM" && s[13..] == "NOPQRSTUVWXYZ";
    if n < 13 {
      assert s[n] == s[..13][n];
    } else {
      assert s[n] == s[13..][n - 13];
    }
  }

  lemma LowerCase(n: nat)
    requires n < 26
    ensures "abcdefghijklmnopqrstuvwxyz"[n] == 'a' + n as char
  {
    var s := "abcdefghijklmnopqrstuvwxyz";
    assert s[..13] == "abcdefghijklm" && s[13..] == "nopqrstuvwxyz";
    if n < 13 {
      assert s[n] == s[..13][n];
    } else {
      assert s[n] == s[13..][n - 13];
    }
  }

  /** The order of the bits and the padding: test vectors of section 10 of RFC 4648. */
  lemma TestVectors()
    ensures Encode([0x66]) == "Zg==" && Encode([0x66, 0x6f]) == "Zm8=" && Encode([0x66, 0x6f, 0x6f]) == "Zm9v"
    ensures Encode([0x66, 0x6f, 0x6f, 0x62]) == "Zm9vYg=="
  {
    assert [0x66, 0x6f, 0x6f, 0x62][3..] == [0x62];
  }
}

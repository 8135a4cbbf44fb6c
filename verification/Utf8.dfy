/** UTF-8 as section 3 of RFC 3629 defines it: `str.encode("utf-8")` and the strict
    `bytes.decode("utf-8")`. Characters are Unicode scalar values. The wire format, the cache keys
    and the byte decoder of tree lines are built on it. */
module Utf8 {
  import opened Wrappers

  type Byte = b: int | 0 <= b < 256

  function EncodeChar(c: char): (bs: seq<Byte>)
    ensures 1 <= |bs| <= 4
    ensures |bs| == 1 <==> (c as int) < 0x80
  {
    var n := c as int;
    if n < 0x80 then [n]
    else if n < 0x800 then [0xC0 + n / 64, 0x80 + n % 64]
    else if n < 0x1_0000 then [0xE0 + n / 4096, 0x80 + n / 64 % 64, 0x80 + n % 64]
    else [0xF0 + n / 262144, 0x80 + n / 4096 % 64, 0x80 + n / 64 % 64, 0x80 + n % 64]
  }

  function Encode(s: string): (bs: seq<Byte>) {
    if s == "" then [] else EncodeChar(s[0]) + Encode(s[1..])
  }

  predicate IsContinuation(b: Byte) {
    0x80 <= b < 0xC0
  }

  /** How many bytes the sequence announced by a lead byte has; `None` for an invalid lead byte. */
  function SequenceLength(lead: Byte): Option<nat> {
    if lead < 0x80 then Some(1)
    else if 0xC2 <= lead < 0xE0 then Some(2)
    else if 0xE0 <= lead < 0xF0 then Some(3)
    else if 0xF0 <= lead < 0xF5 then Some(4)
    else None
  }

  /** The scalar value of the first `k` bytes, without the range checks. */
  function RawValue(bs: seq<Byte>, k: nat): int
    requires 1 <= k <= 4 && k <= |bs|
  {
    var b0: int := bs[0];
    if k == 1 then b0
    else
      var b1: int := bs[1];
      if k == 2 then (b0 - 0xC0) * 64 + (b1 - 0x80)
      else
        var b2: int := bs[2];
        if k == 3 then (b0 - 0xE0) * 4096 + (b1 - 0x80) * 64 + (b2 - 0x80)
        else
          var b3: int := bs[3];
          (b0 - 0xF0) * 262144 + (b1 - 0x80) * 4096 + (b2 - 0x80) * 64 + (b3 - 0x80)
  }

  /** No overlong form, no surrogate, nothing above U+10FFFF. */
  predicate IsScalar(n: int, k: nat) {
    match k
    case 1 => 0 <= n < 0x80
    case 2 => 0x80 <= n < 0x800
    case 3 => (0x800 <= n < 0xD800) || (0xE000 <= n < 0x1_0000)
    case _ => 0x1_0000 <= n < 0x11_0000
  }

  function DecodeChar(bs: seq<Byte>): (r: Option<(char, nat)>)
    requires bs != []
    ensures r.Some? ==> 1 <= r.value.1 <= |bs|
  {
    match SequenceLength(bs[0])
    case None => None
    case Some(k) =>
      if |bs| < k || exists i :: 1 <= i < k && !IsContinuation(bs[i]) then None
      else
        var n := RawValue(bs, k);
        if IsScalar(n, k) then Some((n as char, k)) else None
  }

  function Decode(bs: seq<Byte>): (r: Option<string>)
    decreases |bs|
  {
    if bs == [] then Some("")
    else
      match DecodeChar(bs)
      case None => None
      case Some((c, k)) =>
        match Decode(bs[k..])
        case None => None
        case Some(s) => Some([c] + s)
  }

  lemma DecodeEncodedChar(c: char, tail: seq<Byte>)
    ensures DecodeChar(EncodeChar(c) + tail) == Some((c, |EncodeChar(c)|))
  {
    var n := c as int;
    var bs := EncodeChar(c) + tail;
    var k := |EncodeChar(c)|;
    if n < 0x80 {
    } else if n < 0x800 {
      assert RawValue(bs, 2) == n / 64 * 64 + n % 64;
    } else if n < 0x1_0000 {
      assert n / 4096 == n / 64 / 64;
      assert RawValue(bs, 3) == n / 4096 * 4096 + n / 64 % 64 * 64 + n % 64 == n;
    } else {
      assert n / 4096 == n / 64 / 64 && n / 262144 == n / 4096 / 64;
      assert RawValue(bs, 4) == n;
    }
    assert SequenceLength(bs[0]) == Some(k);
  }

  /** Decoding undoes encoding, for every string. */
  lemma {:induction false} DecodeEncode(s: string)
    ensures Decode(Encode(s)) == Some(s)
  {
    if s != "" {
      DecodeEncodedChar(s[0], Encode(s[1..]));
      var k := |EncodeChar(s[0])|;
      assert Encode(s)[k..] == Encode(s[1..]);
      DecodeEncode(s[1..]);
      assert [s[0]] + s[1..] == s;
    }
  }

  lemma EncodeDecodedChar(bs: seq<Byte>)
    requires bs != [] && DecodeChar(bs).Some?
    ensures var (c, k) := DecodeChar(bs).value; EncodeChar(c) == bs[..k]
  {
    var k := SequenceLength(bs[0]).value;
    var n := RawValue(bs, k);
    assert forall i :: 1 <= i < k ==> IsContinuation(bs[i]);
    if k == 1 {
      assert bs[..1] == [n];
    } else if k == 2 {
      assert IsContinuation(bs[1]);
      TwoBytes(bs[0] - 0xC0, bs[1] - 0x80);
      assert bs[..2] == [bs[0], bs[1]];
    } else if k == 3 {
      assert IsContinuation(bs[1]) && IsContinuation(bs[2]);
      ThreeBytes(bs[0] - 0xE0, bs[1] - 0x80, bs[2] - 0x80);
      assert bs[..3] == [bs[0], bs[1], bs[2]];
    } else {
      assert IsContinuation(bs[1]) && IsContinuation(bs[2]) && IsContinuation(bs[3]);
      FourBytes(bs[0] - 0xF0, bs[1] - 0x80, bs[2] - 0x80, bs[3] - 0x80);
      assert bs[..4] == [bs[0], bs[1], bs[2], bs[3]];
    }
  }

  lemma TwoBytes(a: int, b: int)
    requires 0 <= b < 64
    ensures (a * 64 + b) / 64 == a && (a * 64 + b) % 64 == b
  {
  }

  lemma ThreeBytes(a: int, b: int, c: int)
    requires 0 <= b < 64 && 0 <= c < 64
    ensures var n := a * 4096 + b * 64 + c; n / 4096 == a && n / 64 % 64 == b && n % 64 == c
  {
    var n := a * 4096 + b * 64 + c;
    TwoBytes(a * 64 + b, c);
    TwoBytes(a, b);
    assert n == (a * 64 + b) * 64 + c;
    assert n / 4096 == n / 64 / 64;
  }

  lemma FourBytes(a: int, b: int, c: int, d: int)
    requires 0 <= b < 64 && 0 <= c < 64 && 0 <= d < 64
    ensures var n := a * 262144 + b * 4096 + c * 64 + d;
      n / 262144 == a && n / 4096 % 64 == b && n / 64 % 64 == c && n % 64 == d
  {
    var n := a * 262144 + b * 4096 + c * 64 + d;
    var m := a * 4096 + b * 64 + c;
    TwoBytes(m, d);
    ThreeBytes(a, b, c);
    assert n == m * 64 + d;
    assert n / 262144 == n / 64 / 4096 && n / 4096 == n / 64 / 64;
  }

  /** Strictness: only the encoding of a string decodes, and it decodes to that string. */
  lemma {:induction false} EncodeDecoded(bs: seq<Byte>)
    ensures Decode(bs).Some? ==> Encode(Decode(bs).value) == bs
    decreases |bs|
  {
    hide EncodeChar, DecodeChar;
    if bs != [] && Decode(bs).Some? {
      var (c, k) := DecodeChar(bs).value;
      EncodeDecodedChar(bs);
      EncodeDecoded(bs[k..]);
      var t := Decode(bs[k..]).value;
      assert ([c] + t)[1..] == t;
      assert bs == bs[..k] + bs[k..];
    }
  }

  /** Two different strings never share an encoding. */
  lemma EncodeInjective(s: string, t: string)
    requires Encode(s) == Encode(t)
    ensures s == t
  {
    DecodeEncode(s);
    DecodeEncode(t);
  }

  lemma {:induction false} EncodeConcat(s: string, t: string)
    ensures Encode(s + t) == Encode(s) + Encode(t)
  {
    if s == "" {
      assert s + t == t;
    } else {
      assert (s + t)[1..] == s[1..] + t;
      EncodeConcat(s[1..], t);
    }
  }

  predicate IsAscii(s: string) {
    forall i :: 0 <= i < |s| ==> (s[i] as int) < 0x80
  }

  /** For ASCII text the encoding is the character codes, so `len(str)` is the byte length. */
  lemma {:induction false} AsciiEncoding(s: string)
    requires IsAscii(s)
    ensures |Encode(s)| == |s|
    ensures forall i :: 0 <= i < |s| ==> Encode(s)[i] == s[i] as int
  {
    if s != "" {
      AsciiEncoding(s[1..]);
      assert EncodeChar(s[0]) == [s[0] as int];
    }
  }
}

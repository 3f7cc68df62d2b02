/** Bytes, big-endian words and hexadecimal text. */
module Words {
  import opened Common

  type Byte = b: int | 0 <= b < 256

  function Pow256(n: nat): nat
    ensures Pow256(n) > 0
  {
    if n == 0 then 1 else 256 * Pow256(n - 1)
  }

  /** The number big-endian bytes stand for. */
  function ToNat(w: seq<Byte>): nat {
    if w == [] then 0 else 256 * ToNat(w[..|w| - 1]) + w[|w| - 1]
  }

  /** The low `len` bytes of `n`, big-endian. */
  function ToBytes(n: nat, len: nat): (w: seq<Byte>)
    ensures |w| == len
  {
    if len == 0 then [] else ToBytes(n / 256, len - 1) + [n % 256]
  }

  function ZeroBytes(n: nat): (z: seq<Byte>)
    ensures |z| == n
  {
    seq(n, i => 0)
  }

  function HexChar(d: nat): char
    requires d < 16
  {
    "0123456789abcdef"[d]
  }

  function Hex(bytes: seq<Byte>): (s: string)
    ensures |s| == 2 * |bytes|
  {
    if bytes == [] then "" else [HexChar(bytes[0] / 16), HexChar(bytes[0] % 16)] + Hex(bytes[1..])
  }

  function DecodeHex(s: string): Option<seq<Byte>> {
    if s == "" then Some([])
    else if |s| == 1 then None
    else
      match (HexDigit(s[0]), HexDigit(s[1]), DecodeHex(s[2..]))
      case (Some(hi), Some(lo), Some(rest)) => if hi < 16 && lo < 16 then Some([16 * hi + lo] + rest) else None
      case _ => None
  }

  /** Optional 0x, then hex digits in pairs. */
  function HexToBytes(s: string): Option<seq<Byte>> {
    DecodeHex(TrimPrefix(TrimPrefix(s, "0x"), "0X"))
  }

  predicate IsHex(c: char) {
    '0' <= c <= '9' || 'a' <= c <= 'f' || 'A' <= c <= 'F'
  }

  predicate AllHex(s: string) {
    forall i :: 0 <= i < |s| ==> IsHex(s[i])
  }

  /** Text decodes exactly if it is an even number of digits, each pair of which is one byte. */
  lemma {:induction false} DecodeHexIff(s: string)
    ensures DecodeHex(s).Some? <==> |s| % 2 == 0 && AllHex(s)
    ensures DecodeHex(s).Some? ==> |DecodeHex(s).value| == |s| / 2
    decreases |s|
  {
    if |s| >= 2 {
      DecodeHexIff(s[2..]);
      assert AllHex(s) <==> IsHex(s[0]) && IsHex(s[1]) && AllHex(s[2..]) by {
        assert forall i :: 0 <= i < |s| - 2 ==> s[2..][i] == s[i + 2];
        assert forall i :: 2 <= i < |s| ==> s[i] == s[2..][i - 2];
      }
    }
  }

  /** Bytes are read if there is an even number of digits after the prefix, and nothing else. */
  lemma HexToBytesIff(s: string)
    ensures var digits := TrimPrefix(TrimPrefix(s, "0x"), "0X");
            && (HexToBytes(s).Some? <==> |digits| % 2 == 0 && AllHex(digits))
            && (HexToBytes(s).Some? ==> |HexToBytes(s).value| == |digits| / 2)
  {
    DecodeHexIff(TrimPrefix(TrimPrefix(s, "0x"), "0X"));
  }

  lemma {:induction false} ToBytesToNat(n: nat, len: nat)
    requires n < Pow256(len)
    ensures ToNat(ToBytes(n, len)) == n
  {
    if len > 0 {
      ToBytesToNat(n / 256, len - 1);
      assert ToBytes(n, len)[..len - 1] == ToBytes(n / 256, len - 1);
    }
  }

  lemma {:induction false} Pow256Monotone(a: nat, b: nat)
    requires a <= b
    ensures Pow256(a) <= Pow256(b)
    decreases b
  {
    if a < b {
      Pow256Monotone(a, b - 1);
    }
  }

  /** The top byte tells whether a number is in the upper half of its range. */
  lemma {:induction false} HighBit(n: nat, len: nat)
    requires len > 0 && n < Pow256(len)
    ensures ToBytes(n, len)[0] >= 128 <==> n >= 128 * Pow256(len - 1)
  {
    if len > 1 {
      HighBit(n / 256, len - 1);
    }
  }

  lemma HexCharDigit(d: nat)
    requires d < 16
    ensures HexDigit(HexChar(d)) == Some(d)
  {
  }

  lemma DecodeHexStep(b: Byte, text: string, rest: seq<Byte>)
    requires DecodeHex(text) == Some(rest)
    ensures DecodeHex([HexChar(b / 16), HexChar(b % 16)] + text) == Some([b] + rest)
  {
    HexCharDigit(b / 16);
    HexCharDigit(b % 16);
    assert ([HexChar(b / 16), HexChar(b % 16)] + text)[2..] == text;
  }

  lemma {:induction false} DecodeHexOfHex(bytes: seq<Byte>)
    ensures DecodeHex(Hex(bytes)) == Some(bytes)
  {
    if bytes != [] {
      DecodeHexOfHex(bytes[1..]);
      DecodeHexStep(bytes[0], Hex(bytes[1..]), bytes[1..]);
      assert [bytes[0]] + bytes[1..] == bytes;
    }
  }

  /** Hexadecimal text reads back as the bytes it prints. */
  lemma HexRoundTrip(bytes: seq<Byte>)
    ensures HexToBytes("0x" + Hex(bytes)) == Some(bytes)
  {
    var s := "0x" + Hex(bytes);
    assert "0x" <= s && s[2..] == Hex(bytes);
    if bytes != [] {
      assert Hex(bytes)[1] == HexChar(bytes[0] % 16) != 'X';
    }
    DecodeHexOfHex(bytes);
  }
}

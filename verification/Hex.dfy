/** Lower-case hexadecimal text (section 8 of RFC 4648), as hex.EncodeToString writes it. */
module Hex {
  import opened Common

  function Digit(v: int): (c: char)
    requires 0 <= v < 16
  {
    "0123456789abcdef"[v]
  }

  function Encode(b: seq<byte>): (text: string) {
    if b == [] then "" else [Digit(b[0] / 16), Digit(b[0] % 16)] + Encode(b[1..])
  }

  lemma DigitInjective(u: int, v: int)
    requires 0 <= u < 16 && 0 <= v < 16
    ensures Digit(u) == Digit(v) ==> u == v
  {
    var digits := "0123456789abcdef";
    assert forall i, j | 0 <= i < j < 16 :: digits[i] != digits[j];
  }

  lemma {:induction false} EncodeInjective(a: seq<byte>, b: seq<byte>)
    ensures Encode(a) == Encode(b) ==> a == b
  {
    if a != [] && b != [] && Encode(a) == Encode(b) {
      var s, t := Encode(a), Encode(b);
      assert s[0] == t[0] && s[1] == t[1] && s[2..] == t[2..];
      DigitInjective(a[0] / 16, b[0] / 16);
      DigitInjective(a[0] % 16, b[0] % 16);
      assert s[2..] == Encode(a[1..]) && t[2..] == Encode(b[1..]);
      EncodeInjective(a[1..], b[1..]);
      assert a == [a[0]] + a[1..] && b == [b[0]] + b[1..];
    }
  }

  /** Two digits for each byte, the high one first, in lower case. */
  lemma {:induction false} EncodeAt(b: seq<byte>, k: nat)
    requires k < |b|
    ensures |Encode(b)| == 2 * |b|
    ensures Encode(b)[2 * k] == "0123456789abcdef"[b[k] / 16] && Encode(b)[2 * k + 1] == "0123456789abcdef"[b[k] % 16]
  {
    if k == 0 {
      EncodeLength(b);
    } else {
      EncodeAt(b[1..], k - 1);
      var head := [Digit(b[0] / 16), Digit(b[0] % 16)];
      assert Encode(b) == head + Encode(b[1..]);
    }
  }

  lemma {:induction false} EncodeLength(b: seq<byte>)
    ensures |Encode(b)| == 2 * |b|
  {
    if b != [] {
      EncodeLength(b[1..]);
    }
  }
}

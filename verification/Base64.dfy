/** Standard padded base64 (section 4 of RFC 4648), the text encoding/json gives a byte slice. */
module Base64 {
  import opened Common

  type sextet = x: int | 0 <= x < 64

  function Digit(v: sextet): (c: char) {
    if v < 26 then 'A' + v as char
    else if v < 52 then 'a' + (v - 26) as char
    else if v < 62 then '0' + (v - 52) as char
    else if v == 62 then '+'
    else '/'
  }

  function Value(c: char): (r: Option<sextet>) {
    if 'A' <= c <= 'Z' then Some((c - 'A') as int)
    else if 'a' <= c <= 'z' then Some((c - 'a') as int + 26)
    else if '0' <= c <= '9' then Some((c - '0') as int + 52)
    else if c == '+' then Some(62)
    else if c == '/' then Some(63)
    else None
  }

  /** The four digits of three bytes. */
  function Group(b0: byte, b1: byte, b2: byte): (text: string) {
    [Digit(b0 / 4), Digit(b0 % 4 * 16 + b1 / 16), Digit(b1 % 16 * 4 + b2 / 64), Digit(b2 % 64)]
  }

  /** One or two bytes at the end, padded. */
  function OneLeft(b0: byte): (text: string) {
    [Digit(b0 / 4), Digit(b0 % 4 * 16), '=', '=']
  }

  function TwoLeft(b0: byte, b1: byte): (text: string) {
    [Digit(b0 / 4), Digit(b0 % 4 * 16 + b1 / 16), Digit(b1 % 16 * 4), '=']
  }

  function Encode(b: seq<byte>): (text: string) {
    if |b| == 0 then ""
    else if |b| == 1 then OneLeft(b[0])
    else if |b| == 2 then TwoLeft(b[0], b[1])
    else
      Group(b[0], b[1], b[2]) + Encode(b[3..])
  }

  /** Decodes padded text. As Go's StdEncoding does, it drops the bits a short last group leaves over. */
  function Decode(t: string): (r: Option<seq<byte>>) {
    if t == "" then Some([])
    else if |t| < 4 then None
    else
      var v0, v1 := Value(t[0]), Value(t[1]);
      if v0.None? || v1.None? then None
      else
        var first: byte := v0.value * 4 + v1.value / 16;
        if |t| == 4 && t[2] == '=' then
          if t[3] == '=' then Some([first]) else None
        else
          var v2 := Value(t[2]);
          if v2.None? then None
          else
            var second: byte := v1.value % 16 * 16 + v2.value / 4;
            if |t| == 4 && t[3] == '=' then Some([first, second])
            else
              var v3, rest := Value(t[3]), Decode(t[4..]);
              if v3.None? || rest.None? then None
              else Some([first, second, v2.value % 4 * 64 + v3.value] + rest.value)
  }

  lemma ValueOfDigit(v: sextet)
    ensures Value(Digit(v)) == Some(v)
    ensures Digit(v) != '=' && Digit(v) != '"' && Digit(v) != '\\' && Digit(v) >= ' '
  {
  }

  /** The bits of one full group, apart from the digits. */
  lemma GroupBits(b0: byte, b1: byte, b2: byte)
    ensures b0 / 4 * 4 + (b0 % 4 * 16 + b1 / 16) / 16 == b0
    ensures (b0 % 4 * 16 + b1 / 16) % 16 * 16 + (b1 % 16 * 4 + b2 / 64) / 4 == b1
    ensures (b1 % 16 * 4 + b2 / 64) % 4 * 64 + b2 % 64 == b2
  {
  }

  lemma DecodeGroup(b0: byte, b1: byte, b2: byte, rest: string)
    ensures Decode(Group(b0, b1, b2) + rest)
         == if Decode(rest).None? then None else Some([b0, b1, b2] + Decode(rest).value)
  {
    var v0: sextet, v1: sextet, v2: sextet, v3: sextet :=
      b0 / 4, b0 % 4 * 16 + b1 / 16, b1 % 16 * 4 + b2 / 64, b2 % 64;
    var t := [Digit(v0), Digit(v1), Digit(v2), Digit(v3)] + rest;
    ValueOfDigit(v0); ValueOfDigit(v1); ValueOfDigit(v2); ValueOfDigit(v3);
    assert t[4..] == rest;
    assert t[0] == Digit(v0) && t[1] == Digit(v1) && t[2] == Digit(v2) && t[3] == Digit(v3);
    GroupBits(b0, b1, b2);
  }

  /** A last group of one byte, and of two: the padding tells how many bits are left over. */
  lemma DecodeOne(b: seq<byte>)
    requires |b| == 1
    ensures Decode(OneLeft(b[0])) == Some(b)
  {
    ValueOfDigit(b[0] / 4);
    ValueOfDigit(b[0] % 4 * 16);
    assert b == [b[0]];
  }

  lemma DecodeTwo(b: seq<byte>)
    requires |b| == 2
    ensures Decode(TwoLeft(b[0], b[1])) == Some(b)
  {
    ValueOfDigit(b[0] / 4);
    ValueOfDigit(b[0] % 4 * 16 + b[1] / 16);
    ValueOfDigit(b[1] % 16 * 4);
    GroupBits(b[0], b[1], 0);
    assert b == [b[0], b[1]];
  }

  lemma DecodeLong(b: seq<byte>, rest: string)
    requires |b| >= 3 && Decode(rest) == Some(b[3..])
    ensures Decode(Group(b[0], b[1], b[2]) + rest) == Some(b)
  {
    DecodeGroup(b[0], b[1], b[2], rest);
    assert b == [b[0], b[1], b[2]] + b[3..];
  }

  /** Decoding gives back every byte string, whatever its length modulo three. */
  lemma {:induction false} DecodeEncode(b: seq<byte>)
    ensures Decode(Encode(b)) == Some(b)
  {
    if |b| == 0 {
    } else if |b| == 1 {
      DecodeOne(b);
    } else if |b| == 2 {
      DecodeTwo(b);
    } else {
      DecodeEncode(b[3..]);
      DecodeLong(b, Encode(b[3..]));
    }
  }

  /** The text never holds a character that JSON would end the string at or escape. */
  lemma {:induction false} EncodePlain(b: seq<byte>)
    ensures forall k | 0 <= k < |Encode(b)| :: Encode(b)[k] != '"' && Encode(b)[k] != '\\' && Encode(b)[k] >= ' '
    ensures b != [] ==> Encode(b) != ""
  {
    if |b| == 1 {
      ValueOfDigit(b[0] / 4);
      ValueOfDigit(b[0] % 4 * 16);
    } else if |b| == 2 {
      ValueOfDigit(b[0] / 4);
      ValueOfDigit(b[0] % 4 * 16 + b[1] / 16);
      ValueOfDigit(b[1] % 16 * 4);
    } else if |b| >= 3 {
      ValueOfDigit(b[0] / 4);
      ValueOfDigit(b[0] % 4 * 16 + b[1] / 16);
      ValueOfDigit(b[1] % 16 * 4 + b[2] / 64);
      ValueOfDigit(b[2] % 64);
      EncodePlain(b[3..]);
    }
  }

  // ---------------------------------------------------------------------------------- the alphabet

  /** Table 1 of RFC 4648. */
  const ALPHABET := "ABCDEFGHIJKLMNOPQRSTUVWXYZabcdefghijklmnopqrstuvwxyz0123456789+/"

  function At(b: seq<byte>, k: nat): (v: byte) {
    if k < |b| then b[k] else 0
  }

  /** The 24 bits of a group of three bytes, zeros past the end. */
  function Bits(b: seq<byte>, g: nat): (n: nat) {
    At(b, 3 * g) * 65536 + At(b, 3 * g + 1) * 256 + At(b, 3 * g + 2)
  }

  /** The six bits at one of four places of a group, from the left. */
  function Six(n: nat, j: nat): (v: sextet)
    requires j < 4
  {
    if j == 0 then n / 262144 % 64 else if j == 1 then n / 4096 % 64 else if j == 2 then n / 64 % 64 else n % 64
  }

  function Padding(b: seq<byte>): (n: nat) {
    if |b| % 3 == 0 then 0 else 3 - |b| % 3
  }

  lemma UpperCase(v: sextet)
    requires v < 26
    ensures Digit(v) == ALPHABET[v]
  {
    var upper := "ABCDEFGHIJKLMNOPQRSTUVWXYZ";
    assert ALPHABET[v] == upper[v];
  }

  lemma LowerCase(v: sextet)
    requires 26 <= v < 52
    ensures Digit(v) == ALPHABET[v]
  {
    var lower := "abcdefghijklmnopqrstuvwxyz";
    assert ALPHABET[v] == lower[v - 26];
  }

  lemma OtherDigits(v: sextet)
    requires 52 <= v
    ensures Digit(v) == ALPHABET[v]
  {
  }

  lemma DigitInAlphabet(v: sextet)
    ensures Digit(v) == ALPHABET[v]
  {
    if v < 26 {
      UpperCase(v);
    } else if v < 52 {
      LowerCase(v);
    } else {
      OtherDigits(v);
    }
  }

  lemma SixOfSextets(a: sextet, b: sextet, c: sextet, d: sextet)
    ensures var n := a * 262144 + b * 4096 + c * 64 + d;
      Six(n, 0) == a && Six(n, 1) == b && Six(n, 2) == c && Six(n, 3) == d
  {
    var n := a * 262144 + b * 4096 + c * 64 + d;
    assert n / 64 == a * 4096 + b * 64 + c;
    assert n / 4096 == a * 64 + b;
    assert n / 262144 == a;
  }

  /** Three bytes and four sextets of the same 24 bits. */
  lemma BitsOfGroup(b0: byte, b1: byte, b2: byte)
    ensures b0 * 65536 + b1 * 256 + b2
         == b0 / 4 * 262144 + (b0 % 4 * 16 + b1 / 16) * 4096 + (b1 % 16 * 4 + b2 / 64) * 64 + b2 % 64
  {
    assert b0 == b0 / 4 * 4 + b0 % 4 && b1 == b1 / 16 * 16 + b1 % 16 && b2 == b2 / 64 * 64 + b2 % 64;
  }

  lemma SixOfGroup(b0: byte, b1: byte, b2: byte, n: nat)
    requires n == b0 * 65536 + b1 * 256 + b2
    ensures Six(n, 0) == b0 / 4 && Six(n, 1) == b0 % 4 * 16 + b1 / 16
    ensures Six(n, 2) == b1 % 16 * 4 + b2 / 64 && Six(n, 3) == b2 % 64
  {
    BitsOfGroup(b0, b1, b2);
    SixOfSextets(b0 / 4, b0 % 4 * 16 + b1 / 16, b1 % 16 * 4 + b2 / 64, b2 % 64);
  }

  /** The digits of a group, by table and bits. */
  lemma GroupDigits(b0: byte, b1: byte, b2: byte, n: nat)
    requires n == b0 * 65536 + b1 * 256 + b2
    ensures Digit(b0 / 4) == ALPHABET[Six(n, 0)] && Digit(b0 % 4 * 16 + b1 / 16) == ALPHABET[Six(n, 1)]
    ensures Digit(b1 % 16 * 4 + b2 / 64) == ALPHABET[Six(n, 2)] && Digit(b2 % 64) == ALPHABET[Six(n, 3)]
  {
    SixOfGroup(b0, b1, b2, n);
    TableDigit(b0 / 4, Six(n, 0));
    TableDigit(b0 % 4 * 16 + b1 / 16, Six(n, 1));
    TableDigit(b1 % 16 * 4 + b2 / 64, Six(n, 2));
    TableDigit(b2 % 64, Six(n, 3));
  }

  lemma TableDigit(v: sextet, w: sextet)
    requires v == w
    ensures Digit(v) == ALPHABET[w]
  {
    DigitInAlphabet(v);
  }

  /** The text at one place of one group. */
  ghost predicate LetterAt(b: seq<byte>, t: string, g: nat, j: nat)
    requires j < 4 && 4 * g + j < |t|
  {
    t[4 * g + j] == if 4 * g + j < |t| - Padding(b) then ALPHABET[Six(Bits(b, g), j)] else '='
  }

  lemma FirstOfOne(b: seq<byte>, j: nat)
    requires |b| == 1 && j < 4
    ensures LetterAt(b, OneLeft(b[0]), 0, j)
  {
    GroupDigits(b[0], 0, 0, Bits(b, 0));
  }

  lemma FirstOfTwo(b: seq<byte>, j: nat)
    requires |b| == 2 && j < 4
    ensures LetterAt(b, TwoLeft(b[0], b[1]), 0, j)
  {
    GroupDigits(b[0], b[1], 0, Bits(b, 0));
  }

  lemma FirstOfMany(b: seq<byte>, rest: string, j: nat)
    requires |b| >= 3 && j < 4 && (|rest| >= 4 || Padding(b) == 0)
    ensures LetterAt(b, Group(b[0], b[1], b[2]) + rest, 0, j)
  {
    GroupDigits(b[0], b[1], b[2], Bits(b, 0));
  }

  lemma LaterGroup(b: seq<byte>, rest: string, g: nat, j: nat)
    requires |b| >= 3 && g > 0 && j < 4 && 4 * (g - 1) + j < |rest| && LetterAt(b[3..], rest, g - 1, j)
    ensures LetterAt(b, Group(b[0], b[1], b[2]) + rest, g, j)
  {
    BitsShift(b, g);
    var k := 4 * (g - 1) + j;
    assert (Group(b[0], b[1], b[2]) + rest)[k + 4] == rest[k];
  }

  lemma BitsShift(b: seq<byte>, g: nat)
    requires |b| >= 3 && g > 0
    ensures Bits(b, g) == Bits(b[3..], g - 1)
  {
  }

  lemma {:induction false} EncodeLength(b: seq<byte>)
    ensures |Encode(b)| == (|b| + 2) / 3 * 4
  {
    if |b| >= 3 {
      EncodeLength(b[3..]);
      assert (|b| + 2) / 3 == (|b| - 1) / 3 + 1;
    }
  }

  lemma {:induction false} LetterIn(b: seq<byte>, g: nat, j: nat)
    requires j < 4 && 4 * g + j < |Encode(b)|
    ensures LetterAt(b, Encode(b), g, j)
    decreases |b|
  {
    if |b| < 3 {
      if |b| == 1 {
        FirstOfOne(b, j);
      } else if |b| == 2 {
        FirstOfTwo(b, j);
      }
    } else {
      EncodeLength(b[3..]);
      if g == 0 {
        FirstOfMany(b, Encode(b[3..]), j);
      } else {
        LetterIn(b[3..], g - 1, j);
        LaterGroup(b, Encode(b[3..]), g, j);
      }
    }
  }

  /**
   * The text character by character: place j of group g is the letter of the table for its six bits, and the
   * characters of padding at the end are equals signs.
   */
  lemma EncodeAt(b: seq<byte>, g: nat, j: nat)
    requires j < 4 && 4 * g + j < (|b| + 2) / 3 * 4
    ensures |Encode(b)| == (|b| + 2) / 3 * 4
    ensures Encode(b)[4 * g + j]
         == if 4 * g + j < |Encode(b)| - Padding(b) then ALPHABET[Six(Bits(b, g), j)] else '='
  {
    EncodeLength(b);
    LetterIn(b, g, j);
  }

  /** What Decode accepts at one place: a letter of the table, or padding among the last two places. */
  ghost predicate Accepted(t: string, k: nat)
    requires k < |t|
  {
    || t[k] in ALPHABET
    || (t[k] == '=' && (k == |t| - 1 || (k == |t| - 2 && t[k + 1] == '=')))
  }

  ghost predicate WellFormed(t: string) {
    |t| % 4 == 0 && forall k: nat | k < |t| :: Accepted(t, k)
  }

  lemma ValueInAlphabet(c: char)
    ensures Value(c).Some? <==> c in ALPHABET
  {
    if Value(c).Some? {
      DigitInAlphabet(Value(c).value);
      assert Digit(Value(c).value) == c;
    }
    if c in ALPHABET {
      var v :| 0 <= v < |ALPHABET| && ALPHABET[v] == c;
      DigitInAlphabet(v);
      ValueOfDigit(v);
    }
  }

  lemma PadNoLetter()
    ensures '=' !in ALPHABET
  {
    ValueInAlphabet('=');
  }

  lemma WellFormedRest(t: string)
    requires |t| > 4
    ensures WellFormed(t)
       <==> WellFormed(t[4..]) && t[0] in ALPHABET && t[1] in ALPHABET && t[2] in ALPHABET && t[3] in ALPHABET
  {
    forall k: nat | k < |t| - 4 ensures Accepted(t, k + 4) <==> Accepted(t[4..], k) {
      assert t[4..][k] == t[k + 4];
    }
    if WellFormed(t) {
      assert Accepted(t, 0) && Accepted(t, 1) && Accepted(t, 2) && Accepted(t, 3);
      forall k: nat | k < |t[4..]| ensures Accepted(t[4..], k) {
        assert Accepted(t, k + 4);
      }
    }
    if WellFormed(t[4..]) && t[0] in ALPHABET && t[1] in ALPHABET && t[2] in ALPHABET && t[3] in ALPHABET {
      forall k: nat | k < |t| ensures Accepted(t, k) {
        if k >= 4 {
          assert Accepted(t[4..], k - 4);
        }
      }
    }
  }

  /** A single group: two letters, then two more, or one and a pad, or two pads. */
  ghost predicate LastGroup(t: string)
    requires |t| == 4
  {
    && t[0] in ALPHABET && t[1] in ALPHABET
    && ((t[2] in ALPHABET && (t[3] in ALPHABET || t[3] == '=')) || (t[2] == '=' && t[3] == '='))
  }

  lemma WellFormedLast(t: string)
    requires |t| == 4
    ensures WellFormed(t) <==> LastGroup(t)
  {
    assert WellFormed(t) <==> Accepted(t, 0) && Accepted(t, 1) && Accepted(t, 2) && Accepted(t, 3);
  }

  lemma DecodesLast(t: string)
    requires |t| == 4
    ensures Decode(t).Some? <==> LastGroup(t)
  {
    ValueInAlphabet(t[0]);
    ValueInAlphabet(t[1]);
    ValueInAlphabet(t[2]);
    ValueInAlphabet(t[3]);
    PadNoLetter();
    assert t[4..] == "";
  }

  /** Decode accepts exactly the texts of the standard: whole groups of letters, the last one padded or not. */
  lemma {:induction false} DecodesExactly(t: string)
    ensures Decode(t).Some? <==> WellFormed(t)
  {
    if |t| == 4 {
      DecodesLast(t);
      WellFormedLast(t);
    } else if |t| > 4 {
      ValueInAlphabet(t[0]);
      ValueInAlphabet(t[1]);
      ValueInAlphabet(t[2]);
      ValueInAlphabet(t[3]);
      DecodesExactly(t[4..]);
      WellFormedRest(t);
    }
  }
}

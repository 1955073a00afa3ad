/** Bytes as numbers: words in either byte order, and exclusive or. */
module Bytes {

  type byte = x: int | 0 <= x < 256

  function Pow2(n: nat): (r: nat)
    ensures r > 0
  {
    if n == 0 then 1 else 2 * Pow2(n - 1)
  }

  lemma Pow2Eight()
    ensures Pow2(8) == 256
  {
    assert Pow2(4) == 16;
    assert Pow2(8) == 16 * Pow2(4);
  }

  // --- Words -------------------------------------------------------------------------------------------------

  /** The number the bytes stand for, the least significant first. */
  function Value(b: seq<byte>): nat {
    if b == [] then 0 else b[0] + 256 * Value(b[1..])
  }

  function Digits(w: nat, n: nat): (r: seq<byte>)
    ensures |r| == n
    decreases n
  {
    if n == 0 then [] else [w % 256] + Digits(w / 256, n - 1)
  }

  lemma LowByte(low: byte, high: nat)
    ensures (low + 256 * high) % 256 == low && (low + 256 * high) / 256 == high
  {
  }

  lemma {:induction false} DigitsOfValue(b: seq<byte>)
    ensures Digits(Value(b), |b|) == b
  {
    if b != [] {
      LowByte(b[0], Value(b[1..]));
      DigitsOfValue(b[1..]);
      assert b == [b[0]] + b[1..];
    }
  }

  lemma {:induction false} ValueOfDigits(w: nat, n: nat)
    requires w < Pow2(8 * n)
    ensures Value(Digits(w, n)) == w
    decreases n
  {
    if n > 0 {
      Pow2Adds(8 * (n - 1), 8);
      Pow2Eight();
      ValueOfDigits(w / 256, n - 1);
    }
  }

  lemma {:induction false} Pow2Adds(a: nat, b: nat)
    ensures Pow2(a + b) == Pow2(b) * Pow2(a)
    decreases b
  {
    if b > 0 {
      Pow2Adds(a, b - 1);
      assert Pow2(a + b) == 2 * Pow2(a + (b - 1));
    }
  }

  function Reversed(b: seq<byte>): (r: seq<byte>)
    ensures |r| == |b|
    ensures forall i :: 0 <= i < |b| ==> r[i] == b[|b| - 1 - i]
  {
    if b == [] then [] else [b[|b| - 1]] + Reversed(b[..|b| - 1])
  }

  /** Big-endian numbers, as the wire formats have them. */
  function BigEndian(b: seq<byte>): nat {
    Value(Reversed(b))
  }

  function ToBigEndian(w: nat, n: nat): (r: seq<byte>)
    ensures |r| == n
  {
    Reversed(Digits(w, n))
  }

  lemma BigEndianRoundTrip(w: nat, n: nat)
    requires w < Pow2(8 * n)
    ensures BigEndian(ToBigEndian(w, n)) == w
  {
    assert Reversed(Reversed(Digits(w, n))) == Digits(w, n);
    ValueOfDigits(w, n);
  }

  lemma ToBigEndianRoundTrip(b: seq<byte>)
    ensures ToBigEndian(BigEndian(b), |b|) == b
  {
    DigitsOfValue(Reversed(b));
    assert Reversed(Reversed(b)) == b;
  }

  /** The most significant byte comes first: each further byte is worth less. */
  lemma NetworkOrder(b: seq<byte>, last: byte)
    ensures BigEndian(b + [last]) == 256 * BigEndian(b) + last && BigEndian([]) == 0
  {
    assert Reversed(b + [last]) == [last] + Reversed(b);
    assert ([last] + Reversed(b))[1..] == Reversed(b);
  }

  lemma {:induction false} ValueBound(b: seq<byte>)
    ensures Value(b) < Pow2(8 * |b|)
  {
    if b != [] {
      ValueBound(b[1..]);
      Pow2Adds(8 * (|b| - 1), 8);
      Pow2Eight();
    }
  }

  lemma BigEndianBound(b: seq<byte>)
    ensures BigEndian(b) < Pow2(8 * |b|)
  {
    ValueBound(Reversed(b));
  }

  // --- Exclusive or --------------------------------------------------------------------------------------------

  /** The lowest `n` bits of a number, the least significant first. */
  function BitsOf(x: nat, n: nat): (r: seq<bool>)
    ensures |r| == n
    decreases n
  {
    if n == 0 then [] else [x % 2 == 1] + BitsOf(x / 2, n - 1)
  }

  function Number(bits: seq<bool>): (r: nat)
    ensures r < Pow2(|bits|)
  {
    if bits == [] then 0 else (if bits[0] then 1 else 0) + 2 * Number(bits[1..])
  }

  lemma {:induction false} BitsOfNumber(bits: seq<bool>)
    ensures BitsOf(Number(bits), |bits|) == bits
  {
    if bits != [] {
      LowBit(if bits[0] then 1 else 0, Number(bits[1..]));
      BitsOfNumber(bits[1..]);
      assert bits == [bits[0]] + bits[1..];
    }
  }

  lemma {:induction false} NumberOfBits(x: nat, n: nat)
    requires x < Pow2(n)
    ensures Number(BitsOf(x, n)) == x
    decreases n
  {
    if n > 0 {
      NumberOfBits(x / 2, n - 1);
    }
  }

  lemma LowBit(bit: nat, half: nat)
    requires bit < 2
    ensures (bit + 2 * half) % 2 == bit && (bit + 2 * half) / 2 == half
  {
  }

  function XorBits(a: seq<bool>, b: seq<bool>): (r: seq<bool>)
    requires |a| == |b|
    ensures |r| == |a|
  {
    seq(|a|, i requires 0 <= i < |a| => a[i] != b[i])
  }

  function XorByte(a: byte, b: byte): byte {
    Pow2Eight();
    Number(XorBits(BitsOf(a, 8), BitsOf(b, 8)))
  }

  lemma XorTwice(a: byte, m: byte)
    ensures XorByte(XorByte(a, m), m) == a
  {
    var x, y := BitsOf(a, 8), BitsOf(m, 8);
    BitsOfNumber(XorBits(x, y));
    assert XorBits(XorBits(x, y), y) == x;
    Pow2Eight();
    NumberOfBits(a, 8);
  }

  function XorEach(a: seq<byte>, b: seq<byte>): (r: seq<byte>)
    requires |a| == |b|
    ensures |r| == |a|
    ensures forall i :: 0 <= i < |a| ==> r[i] == XorByte(a[i], b[i])
  {
    seq(|a|, i requires 0 <= i < |a| => XorByte(a[i], b[i]))
  }

  /** The bits of a machine word: those of its bytes, the least significant byte first. */
  function WordBits(b: seq<byte>): (r: seq<bool>)
    ensures |r| == 8 * |b|
  {
    if b == [] then [] else BitsOf(b[0], 8) + WordBits(b[1..])
  }

  function WordBytes(w: seq<bool>): (r: seq<byte>)
    requires |w| % 8 == 0
    ensures 8 * |r| == |w|
  {
    if w == [] then [] else
      Pow2Eight();
      [Number(w[..8])] + WordBytes(w[8..])
  }

  /** Two words read from bytes, combined, and written back. */
  function WordXor(a: seq<byte>, b: seq<byte>): (r: seq<byte>)
    requires |a| == |b|
    ensures |r| == |a|
  {
    WordBytes(XorBits(WordBits(a), WordBits(b)))
  }

  lemma XorOfConcat(a: seq<bool>, b: seq<bool>, c: seq<bool>, d: seq<bool>)
    requires |a| == |c| && |b| == |d|
    ensures XorBits(a + b, c + d) == XorBits(a, c) + XorBits(b, d)
  {
  }

  lemma {:induction false} XorOfWords(a: seq<byte>, b: seq<byte>)
    requires |a| == |b|
    ensures WordXor(a, b) == XorEach(a, b)
  {
    if a != [] {
      XorOfConcat(BitsOf(a[0], 8), WordBits(a[1..]), BitsOf(b[0], 8), WordBits(b[1..]));
      FirstByteOfWord(XorBits(BitsOf(a[0], 8), BitsOf(b[0], 8)), XorBits(WordBits(a[1..]), WordBits(b[1..])));
      XorOfWords(a[1..], b[1..]);
      assert XorEach(a, b) == [XorByte(a[0], b[0])] + XorEach(a[1..], b[1..]);
    }
  }

  lemma FirstByteOfWord(u: seq<bool>, v: seq<bool>)
    requires |u| == 8 && |v| % 8 == 0
    ensures Number(u) < 256 && WordBytes(u + v) == [Number(u)] + WordBytes(v)
  {
    Pow2Eight();
    assert (u + v)[..8] == u && (u + v)[8..] == v;
  }

  /** Memory order: a big-endian machine has the most significant byte of a word first. */
  function Ordered(b: seq<byte>, little: bool): (r: seq<byte>)
    ensures |r| == |b|
  {
    if little then b else Reversed(b)
  }

  lemma ReversedXor(a: seq<byte>, b: seq<byte>)
    requires |a| == |b|
    ensures Reversed(XorEach(Reversed(a), Reversed(b))) == XorEach(a, b)
  {
  }

  /** One exclusive or of two words is exclusive or of their bytes, whatever the byte order. */
  lemma WideXorIsBytewise(a: seq<byte>, b: seq<byte>, little: bool)
    requires |a| == |b|
    ensures Ordered(WordXor(Ordered(a, little), Ordered(b, little)), little) == XorEach(a, b)
  {
    XorOfWords(Ordered(a, little), Ordered(b, little));
    if !little {
      ReversedXor(a, b);
    }
  }
}

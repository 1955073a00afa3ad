/** What machines sign of a request to each other (peer_auth.rs): its parts, each after its length. */
module Replay {
  import opened Bytes

  /** A part with its length in front, as 32 bits. */
  function Framed(part: seq<byte>): seq<byte> { ToBigEndian(|part| % Pow2(32), 4) + part }

  function Message(parts: seq<seq<byte>>): seq<byte> {
    if parts == [] then [] else Framed(parts[0]) + Message(parts[1..])
  }

  method BuildMessage(parts: seq<seq<byte>>) returns (message: seq<byte>)
    ensures message == Message(parts)
  {
    hide Framed;
    message := [];
    for i := 0 to |parts|
      invariant message + Message(parts[i..]) == Message(parts)
    {
      assert parts[i..][1..] == parts[i + 1..];
      assert Message(parts[i..]) == Framed(parts[i]) + Message(parts[i + 1..]);
      message := message + Framed(parts[i]);
    }
    assert parts[|parts|..] == [];
  }

  ghost predicate Shorter(parts: seq<seq<byte>>, bound: nat) { forall i :: 0 <= i < |parts| ==> |parts[i]| < bound }

  lemma FramedIsRead(part: seq<byte>, rest: seq<byte>)
    requires |part| < Pow2(32)
    ensures var m := Framed(part) + rest;
            |m| >= 4 + |part| && BigEndian(m[..4]) == |part| && m[4..4 + |part|] == part && m[4 + |part|..] == rest
  {
    SmallMod(|part|, Pow2(32));
    var n := ToBigEndian(|part|, 4);
    BigEndianRoundTrip(|part|, 4);
    hide ToBigEndian, BigEndian, Pow2;
    assert (Framed(part) + rest)[..4] == n;
  }

  lemma SmallMod(a: nat, b: nat)
    requires a < b
    ensures a % b == a
  {
  }

  /** Lists that give one message are one list. */
  lemma {:induction false} MessageIsInjective(a: seq<seq<byte>>, b: seq<seq<byte>>)
    requires Shorter(a, Pow2(32)) && Shorter(b, Pow2(32)) && Message(a) == Message(b)
    ensures a == b
  {
    hide Framed, Pow2;
    if a == [] || b == [] {
      if a != [] { FramedIsLong(a[0]); }
      if b != [] { FramedIsLong(b[0]); }
    } else {
      FramedIsInjective(a[0], Message(a[1..]), b[0], Message(b[1..]));
      MessageIsInjective(a[1..], b[1..]);
      assert a == [a[0]] + a[1..] && b == [b[0]] + b[1..];
    }
  }

  lemma FramedIsLong(part: seq<byte>)
    ensures |Framed(part)| >= 4
  {
  }

  lemma FramedIsInjective(p: seq<byte>, r: seq<byte>, q: seq<byte>, t: seq<byte>)
    requires |p| < Pow2(32) && |q| < Pow2(32) && Framed(p) + r == Framed(q) + t
    ensures p == q && r == t
  {
    FramedIsRead(p, r);
    FramedIsRead(q, t);
    hide *;
  }

  function Zeros(n: nat): (z: seq<byte>)
    ensures |z| == n && forall i :: 0 <= i < n ==> z[i] == 0
  {
    seq(n, i => 0)
  }

  lemma ZeroLength()
    ensures ToBigEndian(0, 4) == Zeros(4)
  {
    assert Digits(0, 4) == [0] + Digits(0, 3) && Digits(0, 3) == [0] + Digits(0, 2)
           && Digits(0, 2) == [0] + Digits(0, 1);
  }

  lemma {:induction false} EmptyParts(parts: seq<seq<byte>>)
    requires forall i :: 0 <= i < |parts| ==> parts[i] == []
    ensures Message(parts) == Zeros(4 * |parts|)
  {
    if parts != [] {
      EmptyParts(parts[1..]);
      ZeroLength();
      SmallMod(0, Pow2(32));
      hide ToBigEndian, Pow2;
      assert Framed(parts[0]) == Zeros(4) + [];
    }
  }

  /** A part of 4 GiB of zeros signs like many empty parts: the length no longer fits. */
  lemma OversizedPartCollides()
    ensures var n := Pow2(32); Pow2(30) + 1 >= 2 && Message([Zeros(n)]) == Message(seq(Pow2(30) + 1, i => []))
  {
    FourTimes();
    FullPart(Pow2(32));
    hide *;
    Collides(Pow2(32), Pow2(30) + 1);
  }

  lemma Collides(n: nat, k: nat)
    requires Framed(Zeros(n)) == Zeros(4) + Zeros(n) && 4 * k == 4 + n
    ensures Message([Zeros(n)]) == Message(seq(k, i => []))
  {
    var many: seq<seq<byte>> := seq(k, i => []);
    EmptyParts(many);
    OnePart(Zeros(n));
    ZerosJoin(4, n);
  }

  lemma FourTimes()
    ensures 4 * (Pow2(30) + 1) == 4 + Pow2(32)
  {
    Pow2Adds(30, 2);
    assert Pow2(2) == 4;
  }

  lemma OnePart(part: seq<byte>)
    ensures Message([part]) == Framed(part)
  {
    hide Framed;
    assert [part][1..] == [];
    assert Framed(part) + [] == Framed(part);
  }

  lemma ZerosJoin(a: nat, b: nat)
    ensures Zeros(a) + Zeros(b) == Zeros(a + b)
  {
  }

  lemma FullPart(n: nat)
    requires n == Pow2(32)
    ensures Framed(Zeros(n)) == Zeros(4) + Zeros(n)
  {
    ZeroLength();
    hide ToBigEndian, Pow2;
    assert n % n == 0;
  }

  ghost predicate Distinguishes(a: seq<seq<byte>>, b: seq<seq<byte>>, bound: nat) {
    Shorter(a, bound) && Shorter(b, bound) && Message(a) == Message(b) ==> a == b
  }

  /** Lists of parts below a length are told apart iff that length fits 32 bits. */
  lemma MessageIsInjectiveIff(bound: nat)
    ensures (forall a, b :: Distinguishes(a, b, bound)) <==> bound <= Pow2(32)
  {
    hide Message, Pow2;
    if bound <= Pow2(32) {
      forall a, b ensures Distinguishes(a, b, bound) {
        if Shorter(a, bound) && Shorter(b, bound) && Message(a) == Message(b) { MessageIsInjective(a, b); }
      }
    } else {
      OversizedPartCollides();
      var a, b := [Zeros(Pow2(32))], seq(Pow2(30) + 1, i => []);
      assert |a| != |b|;
      assert !Distinguishes(a, b, bound);
    }
  }
}

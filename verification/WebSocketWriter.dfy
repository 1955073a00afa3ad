/** The server's side of the conversation: whole unmasked frames, through partial writes (websocket.rs). */
module WebSocketWriter {
  import opened Common
  import opened Bytes
  import opened WebSocket
  import opened WebSocketCodec

  /** The shortest way to write a length. */
  function Shortest(n: nat): Form {
    if n < 126 then Short else if n < Pow2(16) then Medium else Long
  }

  /** No form that fits is shorter. */
  lemma ShortestIsShortest(n: nat, form: Form)
    requires n < Pow2(64) && Fits(n, form)
    ensures Fits(n, Shortest(n))
    ensures |LengthBytes(n, Shortest(n), false)| <= |LengthBytes(n, form, false)|
    ensures form != Shortest(n) ==> |LengthBytes(n, Shortest(n), false)| < |LengthBytes(n, form, false)|
  {
    Pow2Eight();
    Pow2Adds(8, 8);
    var x := Pow2(16);
    assert x == 65536;
    hide Pow2, ToBigEndian;
  }

  function Header(opcode: byte, n: nat): seq<byte>
    requires opcode < 16 && n < Pow2(64)
  {
    [FirstByte(Frame(true, opcode, []))] + LengthBytes(n, Shortest(n), false)
  }

  function ServerFrame(opcode: byte, payload: seq<byte>): seq<byte>
    requires opcode < 16 && |payload| < Pow2(64)
  {
    Header(opcode, |payload|) + payload
  }

  /**
   * The unmasked frame at the front of the bytes and how long it is, as a client reads it: section 5.2 of RFC 6455
   * asks for the shortest form of the length.
   */
  function ReadServerFrame(b: seq<byte>): Option<(Frame, nat)> {
    if |b| < 2 || (b[0] / 16) % 8 != 0 || b[1] >= 128 then None
    else if (b[1] == 126 && |b| < 4) || (b[1] == 127 && |b| < 10) then None
    else
      var (n, at) := if b[1] == 126 then (BigEndian(b[2..4]), 4)
                     else if b[1] == 127 then (BigEndian(b[2..10]), 10)
                     else (b[1] as nat, 2);
      if |b| < at + n || at != Offset(Shortest(n)) then None
      else Some((Frame(b[0] >= 128, b[0] % 16, b[at..at + n]), at + n))
  }

  lemma ShortestLengthIsRead(b: seq<byte>, n: nat)
    requires n < Pow2(64) && |b| >= Offset(Shortest(n))
    requires b[1..Offset(Shortest(n))] == LengthBytes(n, Shortest(n), false)
    ensures match Shortest(n)
            case Short => b[1] == n
            case Medium => b[1] == 126 && BigEndian(b[2..4]) == n
            case Long => b[1] == 127 && BigEndian(b[2..10]) == n
  {
    assert b[1] == b[1..Offset(Shortest(n))][0];
    match Shortest(n)
    case Short =>
    case Medium =>
      assert b[2..4] == b[1..4][1..];
      BigEndianRoundTrip(n, 2);
    case Long =>
      assert b[2..10] == b[1..10][1..];
      BigEndianRoundTrip(n, 8);
  }

  lemma ServerFrameLayout(opcode: byte, payload: seq<byte>, rest: seq<byte>)
    requires opcode < 16 && |payload| < Pow2(64)
    ensures var b, n := ServerFrame(opcode, payload) + rest, |payload|; var at := Offset(Shortest(n));
            && |ServerFrame(opcode, payload)| == at + n
            && b[0] == FirstByte(Frame(true, opcode, []))
            && b[1..at] == LengthBytes(n, Shortest(n), false)
            && b[at..at + n] == payload
  {
    hide Pow2, ToBigEndian;
  }

  /** With the shortest length bytes in place and all of it there, a frame is read. */
  lemma ServerFrameIsRead(b: seq<byte>, n: nat)
    requires n < Pow2(64) && |b| >= Offset(Shortest(n)) + n && (b[0] / 16) % 8 == 0
    requires b[1..Offset(Shortest(n))] == LengthBytes(n, Shortest(n), false)
    ensures var at := Offset(Shortest(n));
            ReadServerFrame(b) == Some((Frame(b[0] >= 128, b[0] % 16, b[at..at + n]), at + n))
  {
    ShortestLengthIsRead(b, n);
    hide LengthBytes, BigEndian, Pow2;
  }

  /**
   * A frame the server writes is one final frame that a client
   * reads back, with the shortest length, whatever follows.
   */
  lemma ServerFrameRoundTrip(opcode: byte, payload: seq<byte>, rest: seq<byte>)
    requires opcode < 16 && |payload| < Pow2(64)
    ensures ReadServerFrame(ServerFrame(opcode, payload) + rest)
         == Some((Frame(true, opcode, payload), |ServerFrame(opcode, payload)|))
  {
    ServerFrameLayout(opcode, payload, rest);
    FirstByteIsRead(Frame(true, opcode, []));
    hide *;
    ServerFrameIsRead(ServerFrame(opcode, payload) + rest, |payload|);
  }

  // --- Writing ------------------------------------------------------------------------------------------------

  /** The bytes still to write, in pieces. */
  function Flat(slices: seq<seq<byte>>): seq<byte> {
    if slices == [] then [] else slices[0] + Flat(slices[1..])
  }

  /** Steps over bytes that were written, and over pieces with none left. */
  function Advance(slices: seq<seq<byte>>, n: nat): (r: seq<seq<byte>>)
    requires n <= |Flat(slices)|
    ensures Flat(r) == Flat(slices)[n..]
    ensures r != [] ==> r[0] != []
  {
    if slices == [] then []
    else if n < |slices[0]| then
      assert slices[0][n..] + Flat(slices[1..]) == Flat(slices)[n..];
      [slices[0][n..]] + slices[1..]
    else Advance(slices[1..], n - |slices[0]|)
  }

  /** Not inside a character of UTF-8. */
  predicate IsBoundary(reason: seq<byte>, i: nat) {
    i == 0 || i == |reason| || (i < |reason| && !(128 <= reason[i] < 192))
  }

  /** A character as UTF-8 has it: its first byte is not one that continues another, and the rest are. */
  ghost predicate IsCharacter(c: seq<byte>) {
    c != [] && !(128 <= c[0] < 192) && forall k :: 0 < k < |c| ==> 128 <= c[k] < 192
  }

  /** The text up to so many characters ends there. */
  ghost predicate EndsAt(cs: seq<seq<byte>>, k: nat, i: nat) { k <= |cs| && |Joined(cs[..k])| == i }

  /** A place in a text is a boundary iff it is between two of its characters, or at an end. */
  lemma {:induction false} BoundaryIff(cs: seq<seq<byte>>, i: nat)
    requires (forall k :: 0 <= k < |cs| ==> IsCharacter(cs[k])) && i <= |Joined(cs)|
    ensures IsBoundary(Joined(cs), i) <==> exists k :: EndsAt(cs, k, i)
    decreases |cs|
  {
    if i == 0 {
      assert cs[..0] == [] && EndsAt(cs, 0, 0);
    } else {
      var c, rest := cs[0], cs[1..];
      assert IsCharacter(c) && Joined(cs) == c + Joined(rest);
      if i < |c| {
        assert Joined(cs)[i] == c[i];
        forall k: nat ensures !EndsAt(cs, k, i) { EndsAfterFirst(cs, k, i); }
      } else {
        var j := i - |c|;
        BoundaryIff(rest, j);
        BoundaryOfRest(c, Joined(rest), i, rest);
        if k: nat :| EndsAt(cs, k, i) {
          EndsAfterFirst(cs, k, i);
          assert EndsAt(rest, k - 1, j);
        }
        if k: nat :| EndsAt(rest, k, j) {
          EndsAfterFirst(cs, k + 1, i);
          assert EndsAt(cs, k + 1, i);
        }
      }
    }
  }

  lemma EndsAfterFirst(cs: seq<seq<byte>>, k: nat, i: nat)
    requires cs != [] && i > 0
    ensures EndsAt(cs, k, i) <==> k > 0 && i >= |cs[0]| && EndsAt(cs[1..], k - 1, i - |cs[0]|)
  {
    if k == 0 {
      assert cs[..0] == [];
    } else if k <= |cs| {
      assert cs[..k][0] == cs[0] && cs[..k][1..] == cs[1..][..k - 1];
    }
  }

  lemma BoundaryOfRest(c: seq<byte>, text: seq<byte>, i: nat, rest: seq<seq<byte>>)
    requires IsCharacter(c) && |c| <= i <= |c + text| && text == Joined(rest)
    requires forall k :: 0 <= k < |rest| ==> IsCharacter(rest[k])
    ensures IsBoundary(c + text, i) <==> IsBoundary(text, i - |c|)
  {
    if i == |c| && text != [] {
      FirstStartsOne(rest);
      assert (c + text)[i] == text[0];
    }
  }

  lemma FirstStartsOne(cs: seq<seq<byte>>)
    requires Joined(cs) != [] && forall k :: 0 <= k < |cs| ==> IsCharacter(cs[k])
    ensures !(128 <= Joined(cs)[0] < 192)
  {
    assert IsCharacter(cs[0]) && Joined(cs) == cs[0] + Joined(cs[1..]);
  }

  class Writer {
    /** What the stream has taken. */
    var sent: seq<byte>
    /** Whether it failed or took nothing. */
    var broken: bool

    constructor ()
      ensures sent == [] && !broken
    {
      sent, broken := [], false;
    }

    /** One vectored write: the stream takes some of the bytes, or fails. */
    method Write(slices: seq<seq<byte>>) returns (written: Option<nat>)
      modifies this
      ensures written.None? ==> sent == old(sent)
      ensures broken == (old(broken) || written.None? || written.value == 0)
      ensures written.Some? ==> written.value <= |Flat(slices)| && sent == old(sent) + Flat(slices)[..written.value]
    {
      var fails: bool := *;
      if fails {
        broken := true;
        return None;
      }
      var n: nat :| n <= |Flat(slices)|;
      sent := sent + Flat(slices)[..n];
      broken := broken || n == 0;
      return Some(n);
    }

    /**
     * Writes a frame, however few bytes each write takes: all of it, or an error and a part of it (all of it if only
     * the flush at the end failed).
     */
    method WriteFrame(opcode: byte, prefix: seq<byte>, payload: seq<byte>) returns (ok: bool)
      requires opcode < 16 && |prefix + payload| < Pow2(64)
      modifies this
      ensures old(sent) <= sent <= old(sent) + ServerFrame(opcode, prefix + payload)
      ensures if ok then sent == old(sent) + ServerFrame(opcode, prefix + payload) else broken
    {
      var header := Header(opcode, |prefix| + |payload|);
      ghost var frame := ServerFrame(opcode, prefix + payload);
      FlatOfThree(header, prefix, payload);
      assert frame == Flat([header, prefix, payload]);
      hide *;
      ok := WriteSlices([header, prefix, payload]);
    }

    method WriteSlices(all: seq<seq<byte>>) returns (ok: bool)
      modifies this
      ensures old(sent) <= sent <= old(sent) + Flat(all)
      ensures if ok then sent == old(sent) + Flat(all) else broken
    {
      var slices := Advance(all, 0);
      while slices != []
        invariant slices != [] ==> slices[0] != []
        invariant sent + Flat(slices) == old(sent) + Flat(all)
        invariant old(sent) <= sent
        decreases |Flat(slices)|
      {
        hide Flat;
        ghost var before, left := sent, Flat(slices);
        var written := Write(slices);
        if written.None? || written.value == 0 {
          return false;
        }
        slices := Advance(slices, written.value);
        assert left == left[..written.value] + Flat(slices);
      }
      ok := *;
      broken := broken || !ok;
    }

    method SendText(text: seq<byte>) returns (ok: bool)
      requires |text| < Pow2(64)
      modifies this
      ensures if ok then sent == old(sent) + ServerFrame(TEXT, text) else broken
    {
      assert [] + text == text;
      ok := WriteFrame(TEXT, [], text);
    }

    method SendBinary(data: seq<byte>) returns (ok: bool)
      requires |data| < Pow2(64)
      modifies this
      ensures if ok then sent == old(sent) + ServerFrame(BINARY, data) else broken
    {
      assert [] + data == data;
      ok := WriteFrame(BINARY, [], data);
    }

    /** A close frame: the code and as many whole characters of the reason as a control frame takes. */
    method SendClose(close: Option<(nat, seq<byte>)>) returns (ok: bool, ghost end: nat)
      requires close.Some? ==> close.value.0 < Pow2(16)
      modifies this
      ensures !ok ==> broken
      ensures close.None? && ok ==> sent == old(sent) + ServerFrame(CLOSE, [])
      ensures close.Some? ==>
                var reason := close.value.1;
                && end <= |reason| && end <= 123 && IsBoundary(reason, end)
                && (forall i: nat :: end < i <= |reason| && i <= 123 ==> !IsBoundary(reason, i))
      ensures close.Some? && ok ==>
                var payload := ToBigEndian(close.value.0, 2) + close.value.1[..end];
                |payload| <= 125 && |payload| < Pow2(64) && sent == old(sent) + ServerFrame(CLOSE, payload)
    {
      SixtyFourBits();
      hide ServerFrame, Pow2, ToBigEndian;
      end := 0;
      match close
      case None =>
        ok := WriteFrame(CLOSE, [], []);
      case Some((code, reason)) =>
        var cut: nat := if |reason| < 123 then |reason| else 123;
        while !IsBoundary(reason, cut)
          invariant 0 <= cut <= |reason| && cut <= 123
          invariant forall i: nat :: cut < i <= |reason| && i <= 123 ==> !IsBoundary(reason, i)
          decreases cut
        {
          cut := cut - 1;
        }
        end := cut;
        ok := WriteFrame(CLOSE, ToBigEndian(code, 2), reason[..cut]);
    }
  }

  lemma FlatOfThree(a: seq<byte>, b: seq<byte>, c: seq<byte>)
    ensures Flat([a, b, c]) == a + (b + c)
  {
    assert [a, b, c][1..] == [b, c] && [b, c][1..] == [c] && [c][1..] == [];
    assert Flat([c]) == c + [];
  }

  lemma SixtyFourBits()
    ensures Pow2(64) > 125
  {
    Pow2Eight();
    Pow2Adds(8, 8);
    Pow2Adds(16, 48);
  }
}

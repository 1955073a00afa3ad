/**
 * The other half of what a client may send: a stream that is read to its end without an error is a conversation, so
 * everything else is refused (websocket.rs; sections 5.1 to 5.5 of RFC 6455).
 */
module WebSocketAccept {
  import opened Common
  import opened Bytes
  import opened WebSocket
  import opened WebSocketCodec

  // --- Frames ------------------------------------------------------------------------------------------------

  function FormOf(code: nat): Form { if code == 126 then Medium else if code == 127 then Long else Short }

  /** The length a header says, by its form. */
  function SaidLength(b: seq<byte>, form: Form): nat
    requires |b| >= Offset(form)
  {
    match form
    case Short => b[1] % 128
    case Medium => BigEndian(b[2..4])
    case Long => BigEndian(b[2..10])
  }

  lemma SecondByte(x: byte)
    requires x >= 128
    ensures match FormOf(x % 128)
            case Short => x == 128 + x % 128 && x % 128 < 126
            case Medium => x == 254
            case Long => x == 255
  {
    LowBits(x);
  }

  /** The length bytes of a masked frame are those of its length. */
  lemma LengthIsWritten(b: seq<byte>, form: Form)
    requires |b| >= Offset(form) && b[1] >= 128 && form == FormOf(b[1] % 128)
    ensures Fits(SaidLength(b, form), form) && LengthBytes(SaidLength(b, form), form, true) == b[1..Offset(form)]
  {
    SecondByte(b[1]);
    hide Pow2, BigEndian, ToBigEndian, FormOf;
    match form
    case Short => assert b[1..2] == [b[1]];
    case Medium => NumberIsWritten(b, 2);
    case Long => NumberIsWritten(b, 8);
  }

  lemma NumberIsWritten(b: seq<byte>, k: nat)
    requires |b| >= 2 + k
    ensures BigEndian(b[2..2 + k]) < Pow2(8 * k) && b[1..2 + k] == [b[1]] + ToBigEndian(BigEndian(b[2..2 + k]), k)
  {
    hide Pow2, BigEndian, ToBigEndian;
    BigEndianBound(b[2..2 + k]);
    ToBigEndianRoundTrip(b[2..2 + k]);
    assert b[1..2 + k] == [b[1]] + b[2..2 + k];
  }

  lemma FirstByteIsWritten(x: byte)
    requires (x / 16) % 8 == 0
    ensures FirstByte(Frame(x >= 128, x % 16, [])) == x
  {
  }

  /** Where the parts of an accepted frame are. */
  lemma Parts(b: seq<byte>, max: nat)
    requires ParseFrame(b, max).Got?
    ensures var Got(f, used) := ParseFrame(b, max); var form := FormOf(b[1] % 128); var at := Offset(form);
            && b[1] >= 128 && (b[0] / 16) % 8 == 0 && at + 4 <= used <= |b|
            && used - at - 4 <= max
            && used - at - 4 == SaidLength(b, form)
            && f == Frame(b[0] >= 128, b[0] % 16, Masked(b[at + 4..used], b[at..at + 4]))
  {
    hide Masked, BigEndian;
  }

  /** A frame that is accepted is one a client may send: masked, with no reserved bit, and within the limit. */
  lemma AcceptedFrameIsWire(b: seq<byte>, max: nat) returns (w: Wire)
    requires ParseFrame(b, max).Got?
    ensures Sendable(w, max) && w.frame == ParseFrame(b, max).frame
    ensures ParseFrame(b, max).used <= |b| && ClientFrame(w) == b[..ParseFrame(b, max).used]
  {
    Parts(b, max);
    hide ParseFrame, Masked, SaidLength, FormOf;
    var Got(f, used) := ParseFrame(b, max);
    var form := FormOf(b[1] % 128);
    var at := Offset(form);
    var body := b[at + 4..used];
    w := Wire(f, b[at..at + 4], form);
    LengthIsWritten(b, form);
    MaskIsItsOwnInverse(body, w.mask);
    FirstByteIsWritten(b[0]);
    hide LengthBytes, Fits, FirstByte;
    Joins(b, at, used);
  }

  lemma Joins(b: seq<byte>, at: nat, used: nat)
    requires 1 <= at && at + 4 <= used <= |b|
    ensures b[..used] == [b[0]] + b[1..at] + b[at..at + 4] + b[at + 4..used]
  {
  }

  /** A frame refused as too large is one that a larger limit takes; what else is wrong with one, no limit cures. */
  lemma TooLargeIff(b: seq<byte>, max: nat)
    requires ParseFrame(b, max).Bad?
    ensures ParseFrame(b, max).error.TooLarge? <==> !ParseFrame(b, Pow2(64)).Bad?
    ensures ParseFrame(b, max).error.Protocol? <==> forall other: nat :: ParseFrame(b, other) == ParseFrame(b, max)
  {
    hide Masked, Pow2, BigEndian;
    assert |b| >= 2;
    if ParseFrame(b, max).error.TooLarge? {
      var code := b[1] % 128;
      if code == 126 { Bound16(b[2..4]); } else if code == 127 { BigEndianBound(b[2..10]); } else { TwoTo64(); }
      assert ParseFrame(b, Pow2(64)) != ParseFrame(b, max);
    }
  }

  lemma TwoTo64()
    ensures Pow2(64) > 65_536
  {
    Pow2Eight();
    Pow2Adds(8, 8);
    Pow2Adds(16, 16);
    Pow2Adds(32, 32);
  }

  lemma Bound16(b: seq<byte>)
    requires |b| == 2
    ensures BigEndian(b) < Pow2(64)
  {
    BigEndianBound(b);
    Pow2Eight();
    Pow2Adds(8, 8);
    TwoTo64();
  }

  // --- From bytes to frames ------------------------------------------------------------------------------------

  /** What is left when a stream is read without an error: bytes of an incomplete frame, fragments of a message. */
  function Leftover(b: seq<byte>, p: Option<Partial>, cfg: Config): Option<(seq<byte>, Option<Partial>)>
    decreases |b|
  {
    match Parse(b, p, cfg)
    case More(rest, p') => Some((rest, p'))
    case Found(_, rest, p') => Leftover(rest, p', cfg)
    case Failed(_) => None
  }

  lemma LeftoverOfNothing(p: Option<Partial>, cfg: Config)
    ensures Leftover([], p, cfg) == Some(([], p))
  {
  }

  /** Reading on after the first frame. */
  lemma LeftoverAfterFrame(b: seq<byte>, p: Option<Partial>, cfg: Config)
    requires ParseFrame(b, cfg.max).Got?
    ensures ParseFrame(b, cfg.max).used <= |b|
    ensures var Got(f, used) := ParseFrame(b, cfg.max); var a := Assemble(p, f, cfg);
            Leftover(b, p, cfg) == if a.Fail? then None else Leftover(b[used..], a.partial, cfg)
  {
    FrameIsWithinBounds(b, cfg.max);
    hide ParseFrame, Assemble;
  }

  /** Bytes read to the end are frames, and what is left is what those frames leave. */
  lemma {:induction false} BytesAreFrames(b: seq<byte>, p: Option<Partial>, cfg: Config) returns (ws: seq<Wire>)
    requires Leftover(b, p, cfg).Some? && Leftover(b, p, cfg).value.0 == []
    ensures forall i :: 0 <= i < |ws| ==> Sendable(ws[i], cfg.max)
    ensures WireBytes(ws, cfg.max) == b
    ensures AssembleAll(ws, p, cfg).Made? && AssembleAll(ws, p, cfg).partial == Leftover(b, p, cfg).value.1
    decreases |b|
  {
    if b == [] {
      ws := [];
      LeftoverOfNothing(p, cfg);
    } else {
      assert ParseFrame(b, cfg.max).Got? by { OnlyWholeFrames(b, p, cfg); }
      hide ParseFrame, Assemble, ClientFrame, Parse, Leftover, Sendable;
      LeftoverAfterFrame(b, p, cfg);
      FrameIsWithinBounds(b, cfg.max);
      var Got(f, used) := ParseFrame(b, cfg.max);
      var a := Assemble(p, f, cfg);
      var w := AcceptedFrameIsWire(b, cfg.max);
      var rest := BytesAreFrames(b[used..], a.partial, cfg);
      ws := [w] + rest;
      assert ws[1..] == rest && b == b[..used] + b[used..];
    }
  }

  lemma OnlyWholeFrames(b: seq<byte>, p: Option<Partial>, cfg: Config)
    requires b != [] && Leftover(b, p, cfg).Some? && Leftover(b, p, cfg).value.0 == []
    ensures ParseFrame(b, cfg.max).Got?
  {
    hide ParseFrame, Assemble;
  }

  lemma {:induction false} FramesLeave(ws: seq<Wire>, p: Option<Partial>, cfg: Config)
    requires forall i :: 0 <= i < |ws| ==> Sendable(ws[i], cfg.max)
    requires AssembleAll(ws, p, cfg).Made?
    ensures Leftover(WireBytes(ws, cfg.max), p, cfg) == Some(([], AssembleAll(ws, p, cfg).partial))
  {
    if ws == [] {
      LeftoverOfNothing(p, cfg);
    } else {
      var rest := WireBytes(ws[1..], cfg.max);
      FrameRoundTrip(ws[0], rest, cfg.max);
      hide ParseFrame, ClientFrame, Assemble, Parse, Leftover;
      var b := ClientFrame(ws[0]) + rest;
      assert b[|ClientFrame(ws[0])|..] == rest;
      LeftoverAfterFrame(b, p, cfg);
      FramesLeave(ws[1..], Assemble(p, ws[0].frame, cfg).partial, cfg);
    }
  }

  // --- From frames to messages ---------------------------------------------------------------------------------

  /** A control frame that is accepted is a legal one: whole, short, and with a code and UTF-8 if it closes. */
  lemma AcceptedControl(p: Option<Partial>, f: Frame, cfg: Config) returns (c: Control)
    requires f.opcode >= CLOSE && !Assemble(p, f, cfg).Fail?
    ensures LegalControl(c, cfg) && ControlFrame(c) == f && Assemble(p, f, cfg) == Emit(ControlMessage(c), p)
  {
    if f.opcode == PING {
      c := SendPing(f.payload);
    } else if f.opcode == PONG {
      c := SendPong(f.payload);
    } else if f.payload == [] {
      c := SendClose;
    } else {
      BigEndianBound(f.payload[..2]);
      ToBigEndianRoundTrip(f.payload[..2]);
      c := SendCloseWith(BigEndian(f.payload[..2]), f.payload[2..]);
      assert f.payload == f.payload[..2] + f.payload[2..];
    }
  }

  /** A data frame that is accepted begins a message when none is in progress, and continues it when one is. */
  lemma AcceptedData(p: Option<Partial>, f: Frame, cfg: Config)
    requires f.opcode < CLOSE && !Assemble(p, f, cfg).Fail? && |f.payload| <= cfg.max
    ensures p.None? <==> f.opcode == TEXT || f.opcode == BINARY
    ensures p.Some? <==> f.opcode == CONTINUATION
    ensures var text := if p.Some? then p.value.text else f.opcode == TEXT;
            var data := if p.Some? then p.value.data + f.payload else f.payload;
            && |data| <= cfg.max && (f.fin && text ==> cfg.utf8(data))
            && Assemble(p, f, cfg) == if f.fin then Emit(Whole(text, data), None) else Keep(Some(Partial(text, data)))
  {
  }

  /** The rest of a message in progress, if any, and the conversation after it. */
  datatype Tail = Tail(fs: seq<Fragment>, ms: seq<Sent>, last: seq<(Control, Dress)>)

  function TailWires(p: Option<Partial>, t: Tail): seq<Wire> {
    (if p.Some? then FragmentWires(p.value.text, t.fs, false) else []) + Conversation(t.ms, t.last)
  }

  ghost predicate LegalTail(p: Option<Partial>, t: Tail, cfg: Config) {
    && (forall i :: 0 <= i < |t.ms| ==> Legal(t.ms[i], cfg))
    && (forall j :: 0 <= j < |t.last| ==> LegalControl(t.last[j].0, cfg))
    && (p.Some? ==>
          && t.fs != [] && LegalFragments(t.fs, cfg) && |p.value.data + Payload(t.fs)| <= cfg.max
          && (p.value.text ==> cfg.utf8(p.value.data + Payload(t.fs))))
  }

  function DressOf(w: Wire): Dress { Dress(w.mask, w.form) }

  /** A control frame in front goes with whatever comes next. */
  function WithControl(p: Option<Partial>, t: Tail, c: Control, d: Dress): Tail {
    if p.Some? then t.(fs := Before(t.fs, c, d))
    else if t.ms != [] then t.(ms := [t.ms[0].(fragments := Before(t.ms[0].fragments, c, d))] + t.ms[1..])
    else t.(last := [(c, d)] + t.last)
  }

  function Before(fs: seq<Fragment>, c: Control, d: Dress): seq<Fragment> {
    if fs == [] then [] else [fs[0].(before := [(c, d)] + fs[0].before)] + fs[1..]
  }

  lemma BeforeWires(text: bool, fs: seq<Fragment>, first: bool, c: Control, d: Dress, cfg: Config)
    requires fs != []
    ensures FragmentWires(text, Before(fs, c, d), first)
         == [Dressed(ControlFrame(c), d)] + FragmentWires(text, fs, first)
    ensures Payload(Before(fs, c, d)) == Payload(fs)
    ensures LegalFragments(fs, cfg) && LegalControl(c, cfg) ==> LegalFragments(Before(fs, c, d), cfg)
  {
    var gs := Before(fs, c, d);
    assert gs[1..] == fs[1..];
    assert gs[0].before[1..] == fs[0].before;
    hide Dressed, ControlFrame, LegalControl;
    if LegalFragments(fs, cfg) && LegalControl(c, cfg) {
      forall i, j | 0 <= i < |gs| && 0 <= j < |gs[i].before| ensures LegalControl(gs[i].before[j].0, cfg) {
        if i > 0 {
          assert gs[i] == fs[i];
        } else if j > 0 {
          assert gs[0].before[j] == fs[0].before[j - 1];
        }
      }
    }
  }

  lemma ControlInFront(p: Option<Partial>, t: Tail, c: Control, d: Dress, cfg: Config)
    requires LegalTail(p, t, cfg) && LegalControl(c, cfg)
    ensures LegalTail(p, WithControl(p, t, c, d), cfg)
    ensures TailWires(p, WithControl(p, t, c, d)) == [Dressed(ControlFrame(c), d)] + TailWires(p, t)
  {
    hide Dressed, ControlFrame, LegalControl, LegalFragments, FragmentWires, Payload;
    if p.Some? {
      BeforeWires(p.value.text, t.fs, false, c, d, cfg);
    } else if t.ms != [] {
      var m := t.ms[0];
      BeforeWires(m.text, m.fragments, true, c, d, cfg);
      var ms := WithControl(p, t, c, d).ms;
      assert ms[1..] == t.ms[1..];
    } else {
      var last := WithControl(p, t, c, d).last;
      assert last[1..] == t.last;
    }
  }

  /** A data frame in front is a fragment of the message in progress, the last of it, or the start of the next. */
  function WithData(p: Option<Partial>, t: Tail, w: Wire): Tail {
    var one := Fragment([], w.frame.payload, DressOf(w));
    var text := w.frame.opcode == TEXT;
    if p.Some? then if w.frame.fin then t.(fs := [one]) else t.(fs := [one] + t.fs)
    else t.(fs := [], ms := [Sent(text, [one] + if w.frame.fin then [] else t.fs)] + t.ms)
  }

  lemma DataInFront(p: Option<Partial>, t: Tail, w: Wire, cfg: Config)
    requires w.frame.opcode < CLOSE && !Assemble(p, w.frame, cfg).Fail? && |w.frame.payload| <= cfg.max
    requires LegalTail(Assemble(p, w.frame, cfg).partial, t, cfg)
    ensures LegalTail(p, WithData(p, t, w), cfg)
    ensures TailWires(p, WithData(p, t, w)) == [w] + TailWires(Assemble(p, w.frame, cfg).partial, t)
  {
    AcceptedData(p, w.frame, cfg);
    hide Assemble;
    if p.Some? { DataContinues(p.value, t, w, cfg); } else { DataStarts(t, w, cfg); }
  }

  /** What is left of a message once this frame is in. */
  function Rest(w: Wire, text: bool, data: seq<byte>): Option<Partial> {
    if w.frame.fin then None else Some(Partial(text, data))
  }

  lemma DataContinues(p: Partial, t: Tail, w: Wire, cfg: Config)
    requires w.frame.opcode == CONTINUATION && |p.data + w.frame.payload| <= cfg.max
    requires w.frame.fin && p.text ==> cfg.utf8(p.data + w.frame.payload)
    requires LegalTail(Rest(w, p.text, p.data + w.frame.payload), t, cfg)
    ensures LegalTail(Some(p), WithData(Some(p), t, w), cfg)
    ensures TailWires(Some(p), WithData(Some(p), t, w)) == [w] + TailWires(Rest(w, p.text, p.data + w.frame.payload), t)
  {
    var one := Fragment([], w.frame.payload, DressOf(w));
    var rest := if w.frame.fin then [] else t.fs;
    OneInFront(p.text, one, rest, false, cfg);
    assert w.frame.fin ==> [one] + [] == [one];
    assert p.data + (one.data + Payload(rest)) == (p.data + one.data) + Payload(rest);
    NoFragments(p.text, p.data + one.data);
    hide LegalFragments, FragmentWires, Payload, Conversation, Legal, LegalControl, Dressed;
    Regroup(w, FragmentWires(p.text, rest, false), Conversation(t.ms, t.last), []);
  }

  lemma DataStarts(t: Tail, w: Wire, cfg: Config)
    requires (w.frame.opcode == TEXT || w.frame.opcode == BINARY) && |w.frame.payload| <= cfg.max
    requires w.frame.fin && w.frame.opcode == TEXT ==> cfg.utf8(w.frame.payload)
    requires LegalTail(Rest(w, w.frame.opcode == TEXT, w.frame.payload), t, cfg)
    ensures LegalTail(None, WithData(None, t, w), cfg)
    ensures TailWires(None, WithData(None, t, w))
         == [w] + TailWires(Rest(w, w.frame.opcode == TEXT, w.frame.payload), t)
  {
    var text := w.frame.opcode == TEXT;
    var one := Fragment([], w.frame.payload, DressOf(w));
    var rest := if w.frame.fin then [] else t.fs;
    OneInFront(text, one, rest, true, cfg);
    NoFragments(text, one.data);
    var ms := WithData(None, t, w).ms;
    assert ms[0] == Sent(text, [one] + rest) && ms[1..] == t.ms;
    assert AllWires(ms) == FragmentWires(text, [one] + rest, true) + AllWires(t.ms);
    hide LegalFragments, FragmentWires, Payload, LegalControl, AllWires, ControlWires, Dressed;
    Regroup(w, FragmentWires(text, rest, false), AllWires(t.ms), ControlWires(t.last));
    assert forall i :: 0 < i < |ms| ==> ms[i] == t.ms[i - 1];
  }

  lemma Regroup(w: Wire, a: seq<Wire>, b: seq<Wire>, c: seq<Wire>)
    ensures [] + ((([w] + a) + b) + c) == [w] + (a + (b + c)) && [w] + a + b == [w] + (a + b)
  {
  }

  lemma NoFragments(text: bool, data: seq<byte>)
    ensures FragmentWires(text, [], false) == [] && data + Payload([]) == data
  {
  }

  lemma OneInFront(text: bool, one: Fragment, rest: seq<Fragment>, first: bool, cfg: Config)
    requires one.before == [] && (rest != [] ==> LegalFragments(rest, cfg))
    ensures var fs := [one] + rest; var opcode := if !first then CONTINUATION else if text then TEXT else BINARY;
            && FragmentWires(text, fs, first)
               == [Dressed(Frame(|fs| == 1, opcode, one.data), one.dress)] + FragmentWires(text, rest, false)
            && Payload(fs) == one.data + Payload(rest) && LegalFragments(fs, cfg)
  {
    var fs := [one] + rest;
    assert fs[1..] == rest;
    hide Dressed, LegalControl;
    forall i, j | 0 <= i < |fs| && 0 <= j < |fs[i].before| ensures LegalControl(fs[i].before[j].0, cfg) {
      assert fs[i] == rest[i - 1];
    }
  }

  /** Frames that are all accepted and leave no message unfinished are the rest of one and a conversation. */
  lemma {:induction false} FramesAreConversation(ws: seq<Wire>, p: Option<Partial>, cfg: Config) returns (t: Tail)
    requires forall i :: 0 <= i < |ws| ==> Sendable(ws[i], cfg.max)
    requires AssembleAll(ws, p, cfg).Made? && AssembleAll(ws, p, cfg).partial == None
    ensures LegalTail(p, t, cfg) && TailWires(p, t) == ws
  {
    if ws == [] {
      t := Tail([], [], []);
    } else {
      var w := ws[0];
      assert Sendable(w, cfg.max);
      var p' := Assemble(p, w.frame, cfg).partial;
      hide Assemble, LegalTail, TailWires, Sendable;
      var rest := FramesAreConversation(ws[1..], p', cfg);
      assert ws == [w] + ws[1..];
      if w.frame.opcode >= CLOSE {
        var c := AcceptedControl(p, w.frame, cfg);
        ControlInFront(p, rest, c, DressOf(w), cfg);
        t := WithControl(p, rest, c, DressOf(w));
      } else {
        DataInFront(p, rest, w, cfg);
        t := WithData(p, rest, w);
      }
    }
  }

  // --- Exactly the conversations ---------------------------------------------------------------------------------

  ghost predicate IsConversation(ms: seq<Sent>, last: seq<(Control, Dress)>, cfg: Config) {
    && (forall i :: 0 <= i < |ms| ==> Legal(ms[i], cfg))
    && (forall j :: 0 <= j < |last| ==> LegalControl(last[j].0, cfg))
    && (forall i :: 0 <= i < |Conversation(ms, last)| ==> Sendable(Conversation(ms, last)[i], cfg.max))
  }

  ghost predicate Sends(b: seq<byte>, ms: seq<Sent>, last: seq<(Control, Dress)>, cfg: Config) {
    IsConversation(ms, last, cfg) && WireBytes(Conversation(ms, last), cfg.max) == b
  }

  /**
   * A stream is read to its end, with no error and nothing left unfinished, iff a client may send it: whole messages
   * within the limit in any fragments, text as UTF-8, control frames whole and short, every frame masked.
   */
  lemma ReadToTheEndIff(b: seq<byte>, cfg: Config)
    ensures Leftover(b, None, cfg) == Some(([], None)) <==> exists ms, last :: Sends(b, ms, last, cfg)
  {
    hide Leftover, Assemble, AssembleAll, WireBytes, Sendable, Legal, LegalControl;
    if Leftover(b, None, cfg) == Some(([], None)) {
      var ws := BytesAreFrames(b, None, cfg);
      var t := FramesAreConversation(ws, None, cfg);
      assert TailWires(None, t) == Conversation(t.ms, t.last);
      assert Sends(b, t.ms, t.last, cfg);
    }
    if ms, last :| Sends(b, ms, last, cfg) {
      ConversationAssembles(ms, last, cfg);
      FramesLeave(Conversation(ms, last), None, cfg);
    }
  }
}

/**
 * What a client sends, decoded: every list of messages in every legal fragmentation, with control frames between
 * fragments, any mask and any of the three length forms (websocket.rs; sections 5.2 to 5.5 of RFC 6455).
 */
module WebSocketCodec {
  import opened Common
  import opened Bytes
  import opened WebSocket

  // --- One frame ---------------------------------------------------------------------------------------------

  /** How a frame's length is written: in the second byte, in two more, or in eight more. */
  datatype Form = Short | Medium | Long

  predicate Fits(n: nat, form: Form) {
    match form
    case Short => n < 126
    case Medium => n < Pow2(16)
    case Long => n < Pow2(64)
  }

  function LengthBytes(n: nat, form: Form, masked: bool): seq<byte>
    requires Fits(n, form)
  {
    var bit: nat := if masked then 128 else 0;
    match form
    case Short => [bit + n]
    case Medium => [bit + 126] + ToBigEndian(n, 2)
    case Long => [bit + 127] + ToBigEndian(n, 8)
  }

  /** A frame as a client sends it. */
  datatype Wire = Wire(frame: Frame, mask: seq<byte>, form: Form)

  ghost predicate Sendable(w: Wire, max: nat) {
    && w.frame.opcode < 16 && |w.mask| == 4
    && |w.frame.payload| <= max && Fits(|w.frame.payload|, w.form)
  }

  function FirstByte(f: Frame): byte
    requires f.opcode < 16
  {
    (if f.fin then 128 else 0) + f.opcode
  }

  function ClientFrame(w: Wire): seq<byte>
    requires w.frame.opcode < 16 && |w.mask| == 4 && Fits(|w.frame.payload|, w.form)
  {
    [FirstByte(w.frame)] + LengthBytes(|w.frame.payload|, w.form, true) + w.mask + Masked(w.frame.payload, w.mask)
  }

  function Offset(form: Form): nat {
    match form case Short => 2 case Medium => 4 case Long => 10
  }

  lemma HeaderLayout(w: Wire, rest: seq<byte>)
    requires w.frame.opcode < 16 && |w.mask| == 4 && Fits(|w.frame.payload|, w.form)
    ensures var b := ClientFrame(w) + rest; var n := |w.frame.payload|; var at := Offset(w.form);
            && |ClientFrame(w)| == at + 4 + n
            && b[0] == FirstByte(w.frame)
            && b[1..at] == LengthBytes(n, w.form, true)
            && b[at..at + 4] == w.mask
            && b[at + 4..at + 4 + n] == Masked(w.frame.payload, w.mask)
            && b[at + 4 + n..] == rest
  {
    hide Masked, ToBigEndian;
  }

  lemma LengthIsRead(b: seq<byte>, n: nat, form: Form)
    requires Fits(n, form) && |b| >= Offset(form) && b[1..Offset(form)] == LengthBytes(n, form, true)
    ensures match form
            case Short => b[1] == 128 + n && n < 126
            case Medium => b[1] == 254 && BigEndian(b[2..4]) == n
            case Long => b[1] == 255 && BigEndian(b[2..10]) == n
  {
    assert b[1] == b[1..Offset(form)][0];
    match form
    case Short =>
    case Medium =>
      assert b[2..4] == b[1..4][1..];
      BigEndianRoundTrip(n, 2);
    case Long =>
      assert b[2..10] == b[1..10][1..];
      BigEndianRoundTrip(n, 8);
  }

  /** With its length bytes in place and all of it there, a frame is read. */
  lemma FrameIsRead(b: seq<byte>, n: nat, form: Form, max: nat)
    requires Fits(n, form) && |b| >= Offset(form) + 4 + n && n <= max
    requires b[1..Offset(form)] == LengthBytes(n, form, true) && (b[0] / 16) % 8 == 0
    ensures var at := Offset(form);
            ParseFrame(b, max) ==
              Got(Frame(b[0] >= 128, b[0] % 16, Masked(b[at + 4..at + 4 + n], b[at..at + 4])), at + 4 + n)
  {
    LengthIsRead(b, n, form);
    LowBits(b[1]);
    hide Masked, BigEndian, LengthBytes, Pow2, Fits;
    match form
    case Short => assert b[1] % 128 == n && n < 126;
    case Medium => assert b[1] % 128 == 126;
    case Long => assert b[1] % 128 == 127;
  }

  lemma LowBits(x: byte)
    requires x >= 128
    ensures x % 128 == x - 128
  {
  }

  /** A client's frame is read back as it was, whatever follows it. */
  lemma FrameRoundTrip(w: Wire, rest: seq<byte>, max: nat)
    requires Sendable(w, max)
    ensures ParseFrame(ClientFrame(w) + rest, max) == Got(w.frame, |ClientFrame(w)|)
  {
    HeaderLayout(w, rest);
    FirstByteIsRead(w.frame);
    hide ParseFrame, Masked, ClientFrame, LengthBytes;
    FrameIsRead(ClientFrame(w) + rest, |w.frame.payload|, w.form, max);
    MaskIsItsOwnInverse(w.frame.payload, w.mask);
  }

  lemma FirstByteIsRead(f: Frame)
    requires f.opcode < 16
    ensures (FirstByte(f) / 16) % 8 == 0 && (FirstByte(f) >= 128) == f.fin && FirstByte(f) % 16 == f.opcode
  {
  }

  // --- Lists of frames ---------------------------------------------------------------------------------------

  function WireBytes(ws: seq<Wire>, max: nat): seq<byte>
    requires forall i :: 0 <= i < |ws| ==> Sendable(ws[i], max)
  {
    if ws == [] then []
    else
      assert Sendable(ws[0], max);
      ClientFrame(ws[0]) + WireBytes(ws[1..], max)
  }

  /** The messages a list of frames makes, and the fragments left over. */
  datatype Assembled = Made(messages: seq<Message>, partial: Option<Partial>) | Broke

  function AssembleAll(ws: seq<Wire>, p: Option<Partial>, cfg: Config): Assembled {
    if ws == [] then Made([], p)
    else
      match Assemble(p, ws[0].frame, cfg)
      case Fail(_) => Broke
      case Keep(p') => AssembleAll(ws[1..], p', cfg)
      case Emit(m, p') =>
        match AssembleAll(ws[1..], p', cfg)
        case Broke => Broke
        case Made(ms, p'') => Made([m] + ms, p'')
  }

  /** Reading the bytes of frames assembles those frames. */
  lemma {:induction false} BytesDecodeAsFrames(ws: seq<Wire>, p: Option<Partial>, ending: Ending, cfg: Config)
    requires forall i :: 0 <= i < |ws| ==> Sendable(ws[i], cfg.max)
    requires AssembleAll(ws, p, cfg).Made?
    ensures Parse(WireBytes(ws, cfg.max), p, cfg).More? || Parse(WireBytes(ws, cfg.max), p, cfg).Found?
    ensures Decode(WireBytes(ws, cfg.max), p, ending, cfg) == Decoded(AssembleAll(ws, p, cfg).messages, EndOf(ending))
  {
    hide ParseFrame, ClientFrame, Assemble;
    if ws == [] {
      NothingToRead(p, cfg);
    } else {
      var rest := WireBytes(ws[1..], cfg.max);
      FrameRoundTrip(ws[0], rest, cfg.max);
      var b := ClientFrame(ws[0]) + rest;
      assert b[|ClientFrame(ws[0])|..] == rest;
      var a := Assemble(p, ws[0].frame, cfg);
      BytesDecodeAsFrames(ws[1..], a.partial, ending, cfg);
    }
  }

  lemma NothingToRead(p: Option<Partial>, cfg: Config)
    ensures Parse([], p, cfg) == More([], p)
  {
  }

  lemma {:induction false} AssembleConcat(a: seq<Wire>, b: seq<Wire>, p: Option<Partial>, cfg: Config)
    requires AssembleAll(a, p, cfg).Made?
    ensures AssembleAll(a + b, p, cfg)
         == match AssembleAll(b, AssembleAll(a, p, cfg).partial, cfg)
            case Broke => Broke
            case Made(ms, p') => Made(AssembleAll(a, p, cfg).messages + ms, p')
  {
    hide Assemble;
    if a == [] {
      assert a + b == b;
      match AssembleAll(b, p, cfg)
      case Broke =>
      case Made(ms, _) => assert [] + ms == ms;
    } else {
      assert (a + b)[1..] == a[1..] + b;
      var step := Assemble(p, a[0].frame, cfg);
      AssembleConcat(a[1..], b, step.partial, cfg);
      match AssembleAll(b, AssembleAll(a, p, cfg).partial, cfg)
      case Broke =>
      case Made(ms, _) =>
        if step.Emit? {
          assert [step.message] + (AssembleAll(a[1..], step.partial, cfg).messages + ms)
              == ([step.message] + AssembleAll(a[1..], step.partial, cfg).messages) + ms;
        }
    }
  }

  // --- Messages as a client sends them ---------------------------------------------------------------------------

  /** Mask and length form of one frame. */
  datatype Dress = Dress(mask: seq<byte>, form: Form)

  datatype Control = SendPing(data: seq<byte>) | SendPong(data: seq<byte>) | SendClose
                   | SendCloseWith(code: nat, reason: seq<byte>)

  function ControlFrame(c: Control): Frame {
    match c
    case SendPing(data) => Frame(true, PING, data)
    case SendPong(data) => Frame(true, PONG, data)
    case SendClose => Frame(true, CLOSE, [])
    case SendCloseWith(code, reason) => Frame(true, CLOSE, ToBigEndian(code, 2) + reason)
  }

  function ControlMessage(c: Control): Message {
    match c
    case SendPing(data) => Ping(data)
    case SendPong(data) => Pong(data)
    case SendClose => Close(1005)
    case SendCloseWith(code, _) => Close(code)
  }

  ghost predicate LegalControl(c: Control, cfg: Config) {
    && |ControlFrame(c).payload| <= 125
    && (c.SendCloseWith? ==> c.code < Pow2(16) && cfg.utf8(c.reason))
  }

  lemma ControlRoundTrip(c: Control, p: Option<Partial>, cfg: Config)
    requires LegalControl(c, cfg)
    ensures Assemble(p, ControlFrame(c), cfg) == Emit(ControlMessage(c), p)
  {
    if c.SendCloseWith? {
      var payload := ControlFrame(c).payload;
      assert payload[..2] == ToBigEndian(c.code, 2) && payload[2..] == c.reason;
      BigEndianRoundTrip(c.code, 2);
    }
  }

  /** A fragment of a data message, after any control frames. */
  datatype Fragment = Fragment(before: seq<(Control, Dress)>, data: seq<byte>, dress: Dress)

  /** A text or binary message, in as many fragments as the client likes. */
  datatype Sent = Sent(text: bool, fragments: seq<Fragment>)

  function Payload(fs: seq<Fragment>): seq<byte> {
    if fs == [] then [] else fs[0].data + Payload(fs[1..])
  }

  function ControlsOf(cs: seq<(Control, Dress)>): seq<Message> {
    if cs == [] then [] else [ControlMessage(cs[0].0)] + ControlsOf(cs[1..])
  }

  function ControlsIn(fs: seq<Fragment>): seq<Message> {
    if fs == [] then [] else ControlsOf(fs[0].before) + ControlsIn(fs[1..])
  }

  function Dressed(f: Frame, d: Dress): Wire { Wire(f, d.mask, d.form) }

  function ControlWires(cs: seq<(Control, Dress)>): seq<Wire> {
    if cs == [] then [] else [Dressed(ControlFrame(cs[0].0), cs[0].1)] + ControlWires(cs[1..])
  }

  /** The fragments' frames: the first has the message's opcode, the others continue it, the last is final. */
  function FragmentWires(text: bool, fs: seq<Fragment>, first: bool): seq<Wire> {
    if fs == [] then []
    else
      var opcode := if !first then CONTINUATION else if text then TEXT else BINARY;
      ControlWires(fs[0].before) + [Dressed(Frame(|fs| == 1, opcode, fs[0].data), fs[0].dress)]
      + FragmentWires(text, fs[1..], false)
  }

  ghost predicate LegalFragments(fs: seq<Fragment>, cfg: Config) {
    forall i, j :: 0 <= i < |fs| && 0 <= j < |fs[i].before| ==> LegalControl(fs[i].before[j].0, cfg)
  }

  /** What a client may send: whole messages within the limit, text as UTF-8. */
  ghost predicate Legal(m: Sent, cfg: Config) {
    && m.fragments != [] && LegalFragments(m.fragments, cfg)
    && |Payload(m.fragments)| <= cfg.max
    && (m.text ==> cfg.utf8(Payload(m.fragments)))
  }

  function Whole(text: bool, data: seq<byte>): Message { if text then Text(data) else Binary(data) }

  lemma {:induction false} ControlsRoundTrip(cs: seq<(Control, Dress)>, p: Option<Partial>, cfg: Config)
    requires forall j :: 0 <= j < |cs| ==> LegalControl(cs[j].0, cfg)
    ensures AssembleAll(ControlWires(cs), p, cfg) == Made(ControlsOf(cs), p)
  {
    if cs != [] {
      ControlRoundTrip(cs[0].0, p, cfg);
      ControlsRoundTrip(cs[1..], p, cfg);
      assert ControlWires(cs)[1..] == ControlWires(cs[1..]);
      hide Assemble;
    }
  }

  lemma FragmentIsAssembled(text: bool, fin: bool, first: bool, soFar: seq<byte>, data: seq<byte>, d: Dress,
                            cfg: Config)
    requires |soFar| + |data| <= cfg.max && (first ==> soFar == []) && (fin && text ==> cfg.utf8(soFar + data))
    ensures var opcode := if !first then CONTINUATION else if text then TEXT else BINARY;
            var p := if first then None else Some(Partial(text, soFar));
            AssembleAll([Dressed(Frame(fin, opcode, data), d)], p, cfg)
            == if fin then Made([Whole(text, soFar + data)], None) else Made([], Some(Partial(text, soFar + data)))
  {
    if first { assert soFar + data == data; }
    var opcode := if !first then CONTINUATION else if text then TEXT else BINARY;
    var ws := [Dressed(Frame(fin, opcode, data), d)];
    assert ws[1..] == [];
  }

  /** A fragment with its control frames, then the frames after it. */
  lemma OneMoreFragment(text: bool, f: Fragment, fin: bool, first: bool, soFar: seq<byte>, others: seq<Wire>,
                        cfg: Config)
    requires |soFar| + |f.data| <= cfg.max && (first ==> soFar == []) && (fin && text ==> cfg.utf8(soFar + f.data))
    requires forall j :: 0 <= j < |f.before| ==> LegalControl(f.before[j].0, cfg)
    ensures var opcode := if !first then CONTINUATION else if text then TEXT else BINARY;
            var p := if first then None else Some(Partial(text, soFar));
            var p' := if fin then None else Some(Partial(text, soFar + f.data));
            var made := ControlsOf(f.before) + if fin then [Whole(text, soFar + f.data)] else [];
            AssembleAll(ControlWires(f.before) + [Dressed(Frame(fin, opcode, f.data), f.dress)] + others, p, cfg)
            == match AssembleAll(others, p', cfg)
               case Broke => Broke
               case Made(ms, last) => Made(made + ms, last)
  {
    var opcode := if !first then CONTINUATION else if text then TEXT else BINARY;
    var p := if first then None else Some(Partial(text, soFar));
    var cs, one := ControlWires(f.before), [Dressed(Frame(fin, opcode, f.data), f.dress)];
    hide Assemble, Dressed, AssembleAll, ControlsOf, ControlWires;
    ControlsRoundTrip(f.before, p, cfg);
    FragmentIsAssembled(text, fin, first, soFar, f.data, f.dress, cfg);
    AssembleConcat(cs, one, p, cfg);
    AssembleConcat(cs + one, others, p, cfg);
  }

  lemma {:induction false} FragmentsRoundTrip(text: bool, fs: seq<Fragment>, first: bool, soFar: seq<byte>, cfg: Config)
    requires fs != [] && LegalFragments(fs, cfg) && (first ==> soFar == [])
    requires |soFar + Payload(fs)| <= cfg.max && (text ==> cfg.utf8(soFar + Payload(fs)))
    ensures var p := if first then None else Some(Partial(text, soFar));
            AssembleAll(FragmentWires(text, fs, first), p, cfg)
            == Made(ControlsIn(fs) + [Whole(text, soFar + Payload(fs))], None)
  {
    hide Assemble, Dressed, ControlsOf, ControlWires;
    var f, rest := fs[0], fs[1..];
    assert soFar + Payload(fs) == (soFar + f.data) + Payload(rest);
    forall j | 0 <= j < |f.before| ensures LegalControl(f.before[j].0, cfg) {}
    if rest == [] {
      assert Payload(rest) == [] && (soFar + f.data) + [] == soFar + f.data;
      OneMoreFragment(text, f, true, first, soFar, [], cfg);
      assert FragmentWires(text, rest, false) == [];
      assert ControlsIn(fs) == ControlsOf(f.before);
    } else {
      forall i, j | 0 <= i < |rest| && 0 <= j < |rest[i].before| ensures LegalControl(rest[i].before[j].0, cfg) {
        assert rest[i] == fs[i + 1];
      }
      OneMoreFragment(text, f, false, first, soFar, FragmentWires(text, rest, false), cfg);
      FragmentsRoundTrip(text, rest, false, soFar + f.data, cfg);
      assert ControlsIn(fs) + [Whole(text, soFar + Payload(fs))]
          == (ControlsOf(f.before) + []) + (ControlsIn(rest) + [Whole(text, (soFar + f.data) + Payload(rest))]);
    }
  }

  // --- The whole conversation --------------------------------------------------------------------------------------

  function AllWires(ms: seq<Sent>): seq<Wire> {
    if ms == [] then [] else FragmentWires(ms[0].text, ms[0].fragments, true) + AllWires(ms[1..])
  }

  /** What the server should hear: each message after the control messages sent before its end. */
  function Heard(ms: seq<Sent>): seq<Message> {
    if ms == [] then []
    else ControlsIn(ms[0].fragments) + [Whole(ms[0].text, Payload(ms[0].fragments))] + Heard(ms[1..])
  }

  lemma {:induction false} MessagesAssemble(ms: seq<Sent>, cfg: Config)
    requires forall i :: 0 <= i < |ms| ==> Legal(ms[i], cfg)
    ensures AssembleAll(AllWires(ms), None, cfg) == Made(Heard(ms), None)
  {
    hide Assemble;
    if ms != [] {
      var m := ms[0];
      assert [] + Payload(m.fragments) == Payload(m.fragments);
      FragmentsRoundTrip(m.text, m.fragments, true, [], cfg);
      MessagesAssemble(ms[1..], cfg);
      AssembleConcat(FragmentWires(m.text, m.fragments, true), AllWires(ms[1..]), None, cfg);
    }
  }

  /** A whole conversation: messages, and control frames after the last of them. */
  function Conversation(ms: seq<Sent>, last: seq<(Control, Dress)>): seq<Wire> { AllWires(ms) + ControlWires(last) }

  lemma ConversationAssembles(ms: seq<Sent>, last: seq<(Control, Dress)>, cfg: Config)
    requires forall i :: 0 <= i < |ms| ==> Legal(ms[i], cfg)
    requires forall j :: 0 <= j < |last| ==> LegalControl(last[j].0, cfg)
    ensures AssembleAll(Conversation(ms, last), None, cfg) == Made(Heard(ms) + ControlsOf(last), None)
  {
    hide AssembleAll, AllWires, ControlWires, ControlsOf;
    MessagesAssemble(ms, cfg);
    ControlsRoundTrip(last, None, cfg);
    AssembleConcat(AllWires(ms), ControlWires(last), None, cfg);
  }

  /**
   * Whatever a client sends, in whatever fragments, with control frames in between, any masks and any length forms
   * that fit, and however its bytes are split into reads, the server hears those messages in that order.
   */
  method ConversationRoundTrip(ms: seq<Sent>, last: seq<(Control, Dress)>, chunks: seq<seq<byte>>, ending: Ending,
                               cfg: Config)
    returns (d: Decoded)
    requires forall i :: 0 <= i < |ms| ==> Legal(ms[i], cfg)
    requires forall j :: 0 <= j < |last| ==> LegalControl(last[j].0, cfg)
    requires forall i :: 0 <= i < |Conversation(ms, last)| ==> Sendable(Conversation(ms, last)[i], cfg.max)
    requires Joined(chunks) == WireBytes(Conversation(ms, last), cfg.max)
    requires forall i :: 0 <= i < |chunks| ==> chunks[i] != []
    ensures d == Decoded(Heard(ms) + ControlsOf(last), EndOf(ending))
  {
    hide *;
    ConversationAssembles(ms, last, cfg);
    BytesDecodeAsFrames(Conversation(ms, last), None, ending, cfg);
    var reader := new Reader(cfg, chunks, ending);
    var limits := _ => cfg.max;
    OneLimit(Joined(chunks), None, ending, cfg, limits, 0);
    d := reader.ReadAll(limits);
  }
}

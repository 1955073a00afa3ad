/**
 * The server side of a bridge's WebSocket (websocket.rs; sections 5.2 to 5.5 of RFC 6455, no extensions): reading
 * masked client frames from bytes that arrive in pieces.
 */
module WebSocket {
  import opened Common
  import opened Bytes

  const CONTINUATION: byte := 0x0
  const TEXT: byte := 0x1
  const BINARY: byte := 0x2
  const CLOSE: byte := 0x8
  const PING: byte := 0x9
  const PONG: byte := 0xa

  /** Text is kept as its bytes. */
  datatype Message = Text(data: seq<byte>) | Binary(data: seq<byte>) | Ping(data: seq<byte>) | Pong(data: seq<byte>)
                   | Close(code: nat)

  datatype Error = Io | Protocol(what: string) | TooLarge(what: string)

  /** The largest frame or message accepted, and which bytes are UTF-8. */
  datatype Config = Config(max: nat, utf8: seq<byte> -> bool)

  datatype Frame = Frame(fin: bool, opcode: byte, payload: seq<byte>)

  /** What the fragments of a message have brought so far, and of which kind the message is. */
  datatype Partial = Partial(text: bool, data: seq<byte>)

  // --- Masking -----------------------------------------------------------------------------------------------

  /** Every byte combined with the mask byte of its place. */
  function Masked(data: seq<byte>, mask: seq<byte>): (r: seq<byte>)
    requires |mask| == 4
    ensures |r| == |data|
  {
    seq(|data|, i requires 0 <= i < |data| => XorByte(data[i], mask[i % 4]))
  }

  /** Masking twice with the same mask gives the data back. */
  lemma MaskIsItsOwnInverse(data: seq<byte>, mask: seq<byte>)
    requires |mask| == 4
    ensures Masked(Masked(data, mask), mask) == data
  {
    forall i | 0 <= i < |data| ensures Masked(Masked(data, mask), mask)[i] == data[i] {
      XorTwice(data[i], mask[i % 4]);
    }
  }

  lemma MaskByteRepeats(at: nat, k: nat)
    requires at % 4 == 0
    ensures (at + k) % 4 == k % 4
  {
  }

  /** A stretch that starts where the mask does is masked on its own. */
  lemma MaskedStretch(data: seq<byte>, mask: seq<byte>, at: nat, n: nat)
    requires |mask| == 4 && at % 4 == 0 && at + n <= |data|
    ensures Masked(data[at..at + n], mask) == Masked(data, mask)[at..at + n]
  {
    var stretch, whole := Masked(data[at..at + n], mask), Masked(data, mask)[at..at + n];
    forall k | 0 <= k < n ensures stretch[k] == whole[k] {
      MaskByteRepeats(at, k);
    }
  }

  lemma MaskTwiceOver(mask: seq<byte>, k: nat)
    requires |mask| == 4 && k < 8
    ensures (mask + mask)[k] == mask[k % 4]
  {
    if k >= 4 { MaskByteRepeats(4, k - 4); }
  }

  /** Eight bytes as one word, combined with the mask twice over. */
  method UnmaskWord(chunk: seq<byte>, mask: seq<byte>, little: bool) returns (out: seq<byte>)
    requires |chunk| == 8 && |mask| == 4
    ensures out == Masked(chunk, mask)
  {
    var wide := mask + mask;
    out := Ordered(WordXor(Ordered(chunk, little), Ordered(wide, little)), little);
    WideXorIsBytewise(chunk, wide, little);
    MaskedWord(chunk, mask);
  }

  lemma MaskedWord(chunk: seq<byte>, mask: seq<byte>)
    requires |chunk| == 8 && |mask| == 4
    ensures XorEach(chunk, mask + mask) == Masked(chunk, mask)
  {
    forall k | 0 <= k < 8 ensures XorEach(chunk, mask + mask)[k] == Masked(chunk, mask)[k] {
      MaskTwiceOver(mask, k);
    }
  }

  /** Writes bytes over a stretch of the array. */
  method Overwrite(data: array<byte>, at: nat, out: seq<byte>)
    requires at + |out| <= data.Length
    modifies data
    ensures data[..] == old(data[..])[..at] + out + old(data[..])[at + |out|..]
  {
    forall k | at <= k < at + |out| {
      data[k] := out[k - at];
    }
  }

  /** One stretch more is masked. */
  lemma OneMoreStretch(before: seq<byte>, mask: seq<byte>, at: nat, n: nat)
    requires |mask| == 4 && at % 4 == 0 && at + n <= |before|
    ensures var now := Masked(before, mask)[..at] + before[at..];
            now[..at] + Masked(now[at..at + n], mask) + now[at + n..] ==
              Masked(before, mask)[..at + n] + before[at + n..]
  {
    var now := Masked(before, mask)[..at] + before[at..];
    assert now[at..at + n] == before[at..at + n];
    MaskedStretch(before, mask, at, n);
    assert now[at + n..] == before[at + n..];
    var target := Masked(before, mask);
    assert target[..at] + target[at..at + n] == target[..at + n];
  }

  /** The first `at` bytes are masked, the others as they were. */
  ghost predicate MaskedUpTo(data: seq<byte>, before: seq<byte>, mask: seq<byte>, at: nat)
    requires |mask| == 4
  {
    at <= |before| && data == Masked(before, mask)[..at] + before[at..]
  }

  method UnmaskStretch(data: array<byte>, at: nat, mask: seq<byte>, little: bool, ghost before: seq<byte>)
    requires |mask| == 4 && at % 8 == 0 && at + 8 <= data.Length && MaskedUpTo(data[..], before, mask, at)
    modifies data
    ensures MaskedUpTo(data[..], before, mask, at + 8)
  {
    hide Masked;
    ghost var now := data[..];
    OneMoreStretch(before, mask, at, 8);
    var chunk := data[at..at + 8];
    assert chunk == now[at..at + 8];
    var out := UnmaskWord(chunk, mask, little);
    Overwrite(data, at, out);
  }

  method UnmaskByte(data: array<byte>, start: nat, index: nat, mask: seq<byte>, ghost before: seq<byte>)
    requires |mask| == 4 && start % 8 == 0 && start + index < data.Length
    requires MaskedUpTo(data[..], before, mask, start + index)
    modifies data
    ensures MaskedUpTo(data[..], before, mask, start + index + 1)
  {
    ghost var now := data[..];
    OneMoreByte(before, mask, start, index);
    var byte := XorByte(data[start + index], mask[index % 4]);
    assert data[start + index] == now[start + index];
    data[start + index] := byte;
    assert data[..] == now[start + index := byte];
  }

  lemma OneMoreByte(before: seq<byte>, mask: seq<byte>, start: nat, index: nat)
    requires |mask| == 4 && start % 8 == 0 && start + index < |before|
    ensures var now := Masked(before, mask)[..start + index] + before[start + index..];
            && now[start + index] == before[start + index]
            && now[start + index := XorByte(before[start + index], mask[index % 4])]
               == Masked(before, mask)[..start + index + 1] + before[start + index + 1..]
  {
    MaskedAt(before, mask, start, index);
    hide Masked;
    TakeOver(Masked(before, mask), before, start + index);
  }

  lemma MaskedAt(before: seq<byte>, mask: seq<byte>, start: nat, index: nat)
    requires |mask| == 4 && start % 8 == 0 && start + index < |before|
    ensures Masked(before, mask)[start + index] == XorByte(before[start + index], mask[index % 4])
  {
    MaskByteRepeats(start, index);
  }

  lemma TakeOver(target: seq<byte>, before: seq<byte>, at: nat)
    requires |target| == |before| && at < |before|
    ensures var now := target[..at] + before[at..];
            now[at] == before[at] && now[at := target[at]] == target[..at + 1] + before[at + 1..]
  {
  }

  /** Unmasks in place, eight bytes at a time as one word, then the rest one by one. */
  method Unmask(data: array<byte>, mask: seq<byte>, little: bool)
    requires |mask| == 4
    modifies data
    ensures data[..] == Masked(old(data[..]), mask)
  {
    ghost var before := data[..];
    var words := data.Length / 8;
    assert MaskedUpTo(data[..], before, mask, 0);
    hide Masked, MaskedUpTo;
    for w := 0 to words
      invariant MaskedUpTo(data[..], before, mask, 8 * w)
    {
      WordPlace(w);
      UnmaskStretch(data, 8 * w, mask, little, before);
    }
    WordPlace(words);
    var start := 8 * words;
    for index := 0 to data.Length - start
      invariant MaskedUpTo(data[..], before, mask, start + index)
    {
      UnmaskByte(data, start, index, mask, before);
    }
    AllMasked(data[..], before, mask);
  }

  lemma WordPlace(w: nat)
    ensures 8 * w % 8 == 0
  {
  }

  lemma AllMasked(data: seq<byte>, before: seq<byte>, mask: seq<byte>)
    requires |mask| == 4 && |data| == |before| && MaskedUpTo(data, before, mask, |before|)
    ensures data == Masked(before, mask)
  {
    hide Masked;
  }

  // --- Frames ------------------------------------------------------------------------------------------------

  datatype FrameResult = Need(wanted: nat) | Bad(error: Error) | Got(frame: Frame, used: nat)

  /** The frame at the front of the bytes, unmasked, once it is complete. */
  function ParseFrame(b: seq<byte>, max: nat): FrameResult {
    if |b| < 2 then Need(2)
    else if (b[0] / 16) % 8 != 0 then Bad(Protocol("reserved bits set"))
    else if b[1] < 128 then Bad(Protocol("unmasked client frame"))
    else
      var code := b[1] % 128;
      if code == 126 && |b| < 4 then Need(4)
      else if code == 127 && |b| < 10 then Need(10)
      else
        var (length, offset) := if code == 126 then (BigEndian(b[2..4]), 4)
                                else if code == 127 then (BigEndian(b[2..10]), 10)
                                else (code as nat, 2);
        if length > max then Bad(TooLarge("frame too large"))
        else if |b| < offset + 4 + length then Need(offset + 4 + length)
        else
          var mask := b[offset..offset + 4];
          Got(Frame(b[0] >= 128, b[0] % 16, Masked(b[offset + 4..offset + 4 + length], mask)), offset + 4 + length)
  }

  lemma FrameIsWithinBounds(b: seq<byte>, max: nat)
    requires ParseFrame(b, max).Got?
    ensures 6 <= ParseFrame(b, max).used <= |b|
    ensures |ParseFrame(b, max).frame.payload| <= max
  {
  }

  /** Once enough bytes are there, more of them change nothing. */
  lemma FrameIsStable(b: seq<byte>, more: seq<byte>, max: nat)
    requires !ParseFrame(b, max).Need?
    ensures ParseFrame(b + more, max) == ParseFrame(b, max)
  {
    hide Masked, BigEndian;
    var c := b + more;
    assert |b| >= 2 && c[0] == b[0] && c[1] == b[1];
    if |b| >= 4 { assert c[2..4] == b[2..4]; }
    if |b| >= 10 { assert c[2..10] == b[2..10]; }
    if ParseFrame(b, max).Got? {
      FrameIsWithinBounds(b, max);
      var used := ParseFrame(b, max).used;
      var code := b[1] % 128;
      var offset := if code == 126 then 4 else if code == 127 then 10 else 2;
      assert offset + 4 <= used;
      assert c[offset..offset + 4] == b[offset..offset + 4];
      assert c[offset + 4..used] == b[offset + 4..used];
    }
  }

  // --- Messages ----------------------------------------------------------------------------------------------

  datatype Assembly =
    | Emit(message: Message, partial: Option<Partial>)
    | Keep(partial: Option<Partial>)
    | Fail(error: Error)

  /** What one frame adds: a control message, a finished message, or a fragment of one. */
  function Assemble(p: Option<Partial>, f: Frame, cfg: Config): Assembly {
    if f.opcode >= CLOSE then
      if !f.fin || |f.payload| > 125 then Fail(Protocol("invalid control frame"))
      else if f.opcode == CLOSE then
        if |f.payload| == 0 then Emit(Close(1005), p)
        else if |f.payload| == 1 then Fail(Protocol("invalid close frame"))
        else if !cfg.utf8(f.payload[2..]) then Fail(Protocol("invalid close reason"))
        else Emit(Close(BigEndian(f.payload[..2])), p)
      else if f.opcode == PING then Emit(Ping(f.payload), p)
      else if f.opcode == PONG then Emit(Pong(f.payload), p)
      else Fail(Protocol("unknown opcode"))
    else if f.opcode == TEXT || f.opcode == BINARY then
      if p.Some? then Fail(Protocol("expected a continuation"))
      else Finish(f.fin, f.opcode == TEXT, f.payload, cfg)
    else if f.opcode == CONTINUATION then
      if p.None? then Fail(Protocol("unexpected continuation"))
      else if |p.value.data| + |f.payload| > cfg.max then Fail(TooLarge("message too large"))
      else Finish(f.fin, p.value.text, p.value.data + f.payload, cfg)
    else Fail(Protocol("unknown opcode"))
  }

  function Finish(fin: bool, text: bool, data: seq<byte>, cfg: Config): Assembly {
    if !fin then Keep(Some(Partial(text, data)))
    else if !text then Emit(Binary(data), None)
    else if cfg.utf8(data) then Emit(Text(data), None)
    else Fail(Protocol("text is not UTF-8"))
  }

  ghost predicate WithinLimit(p: Option<Partial>, cfg: Config) {
    p.Some? ==> |p.value.data| <= cfg.max
  }

  /** A partial message never exceeds the limit. */
  lemma AssemblyStaysWithinLimit(p: Option<Partial>, f: Frame, cfg: Config)
    requires WithinLimit(p, cfg) && |f.payload| <= cfg.max
    ensures var a := Assemble(p, f, cfg); !a.Fail? ==> WithinLimit(a.partial, cfg)
  {
  }

  datatype Parsed = More(rest: seq<byte>, partial: Option<Partial>)
                  | Found(message: Message, rest: seq<byte>, partial: Option<Partial>)
                  | Failed(error: Error)

  /** The next message in the bytes, taking the frames it needs. */
  function Parse(b: seq<byte>, p: Option<Partial>, cfg: Config): (r: Parsed)
    ensures r.Found? ==> |r.rest| < |b|
    ensures r.More? ==> |r.rest| <= |b|
    ensures WithinLimit(p, cfg) && !r.Failed? ==> WithinLimit(r.partial, cfg)
    decreases |b|
  {
    match ParseFrame(b, cfg.max)
    case Need(_) => More(b, p)
    case Bad(error) => Failed(error)
    case Got(frame, used) =>
      FrameIsWithinBounds(b, cfg.max);
      match Assemble(p, frame, cfg)
      case Fail(error) => Failed(error)
      case Emit(m, p') => Found(m, b[used..], p')
      case Keep(p') => Parse(b[used..], p', cfg)
  }

  /** Bytes that arrive later continue where the earlier ones left off. */
  lemma {:induction false} ParseIsStable(b: seq<byte>, more: seq<byte>, p: Option<Partial>, cfg: Config)
    ensures match Parse(b, p, cfg)
            case More(rest, p') => Parse(b + more, p, cfg) == Parse(rest + more, p', cfg)
            case Found(m, rest, p') => Parse(b + more, p, cfg) == Found(m, rest + more, p')
            case Failed(error) => Parse(b + more, p, cfg) == Failed(error)
    decreases |b|
  {
    if !ParseFrame(b, cfg.max).Need? {
      FrameIsStable(b, more, cfg.max);
      if ParseFrame(b, cfg.max).Got? {
        FrameIsWithinBounds(b, cfg.max);
        var Got(frame, used) := ParseFrame(b, cfg.max);
        assert (b + more)[used..] == b[used..] + more;
        var a := Assemble(p, frame, cfg);
        if a.Keep? {
          ParseIsStable(b[used..], more, a.partial, cfg);
        }
      }
    }
  }

  // --- Whole streams -------------------------------------------------------------------------------------------

  /** How the source of bytes ends. */
  datatype Ending = Eof | Broken

  datatype Outcome = Ended | Error(error: Error)

  datatype Decoded = Decoded(messages: seq<Message>, outcome: Outcome)

  function EndOf(ending: Ending): Outcome {
    if ending.Eof? then Ended else Error(Io)
  }

  /** Every message of a byte stream, and how it ends. */
  function Decode(b: seq<byte>, p: Option<Partial>, ending: Ending, cfg: Config): Decoded
    decreases |b|
  {
    match Parse(b, p, cfg)
    case More(_, _) => Decoded([], EndOf(ending))
    case Failed(error) => Decoded([], Error(error))
    case Found(m, rest, p') =>
      var d := Decode(rest, p', ending, cfg);
      Decoded([m] + d.messages, d.outcome)
  }

  /** The same with a limit for each message, which is set before it is read. */
  function DecodeUnder(b: seq<byte>, p: Option<Partial>, ending: Ending, utf8: seq<byte> -> bool, limits: nat -> nat,
                       k: nat)
    : Decoded
    decreases |b|
  {
    match Parse(b, p, Config(limits(k), utf8))
    case More(_, _) => Decoded([], EndOf(ending))
    case Failed(error) => Decoded([], Error(error))
    case Found(m, rest, p') =>
      var d := DecodeUnder(rest, p', ending, utf8, limits, k + 1);
      Decoded([m] + d.messages, d.outcome)
  }

  /** With one limit throughout, that is decoding under it. */
  lemma {:induction false} OneLimit(b: seq<byte>, p: Option<Partial>, ending: Ending, cfg: Config, limits: nat -> nat,
                                    k: nat)
    requires forall i :: limits(i) == cfg.max
    ensures DecodeUnder(b, p, ending, cfg.utf8, limits, k) == Decode(b, p, ending, cfg)
    decreases |b|
  {
    hide Parse;
    assert Config(limits(k), cfg.utf8) == cfg;
    var r := Parse(b, p, cfg);
    if r.Found? { OneLimit(r.rest, r.partial, ending, cfg, limits, k + 1); }
  }

  function Joined(chunks: seq<seq<byte>>): seq<byte> {
    if chunks == [] then [] else chunks[0] + Joined(chunks[1..])
  }

  /** Reads messages from a client, whose bytes arrive as `chunks`, one per read. */
  class Reader {
    var cfg: Config
    const ending: Ending
    var chunks: seq<seq<byte>>
    var buffer: seq<byte>
    /** How long the buffer has to be before it is looked at again. */
    var wanted: nat
    var partial: Option<Partial>

    ghost predicate Valid()
      reads this
    {
      forall i :: 0 <= i < |chunks| ==> chunks[i] != []
    }

    /** Everything not handed out yet: what is buffered, and what will arrive. */
    ghost function Stream(): seq<byte>
      reads this
    {
      buffer + Joined(chunks)
    }

    constructor (cfg: Config, chunks: seq<seq<byte>>, ending: Ending)
      requires forall i :: 0 <= i < |chunks| ==> chunks[i] != []
      ensures Valid() && this.cfg == cfg && this.ending == ending && this.partial == None
      ensures Stream() == Joined(chunks)
    {
      this.cfg, this.ending, this.chunks := cfg, ending, chunks;
      buffer, wanted, partial := [], 0, None;
    }

    /** Changes the limit for what is read from now on. */
    method SetMaxMessage(max: nat)
      modifies this`cfg
      ensures cfg == old(cfg).(max := max)
    {
      cfg := cfg.(max := max);
    }

    /** Takes a whole frame off the buffer, or leaves the buffer and notes how long it has to be. */
    method NextFrame() returns (r: FrameResult)
      modifies this`buffer, this`wanted
      ensures r == ParseFrame(old(buffer), cfg.max)
      ensures r.Got? ==> r.used <= |old(buffer)| && buffer == old(buffer)[r.used..] && wanted == 0
      ensures !r.Got? ==> buffer == old(buffer)
      ensures r.Need? ==> wanted == r.wanted > |buffer|
    {
      hide Masked, BigEndian;
      wanted := 2;
      if |buffer| < 2 {
        return Need(2);
      }
      if (buffer[0] / 16) % 8 != 0 {
        return Bad(Protocol("reserved bits set"));
      }
      if buffer[1] < 128 {
        return Bad(Protocol("unmasked client frame"));
      }
      var length: nat, offset: nat := buffer[1] % 128, 2;
      if length == 126 {
        if |buffer| < 4 {
          wanted := 4;
          return Need(4);
        }
        length, offset := BigEndian(buffer[2..4]), 4;
      } else if length == 127 {
        if |buffer| < 10 {
          wanted := 10;
          return Need(10);
        }
        length, offset := BigEndian(buffer[2..10]), 10;
      }
      if length > cfg.max {
        return Bad(TooLarge("frame too large"));
      }
      wanted := offset + 4 + length;
      if |buffer| < wanted {
        return Need(wanted);
      }
      var mask := buffer[offset..offset + 4];
      var fin, opcode := buffer[0] >= 128, buffer[0] % 16;
      var payload := Masked(buffer[offset + 4..offset + 4 + length], mask);
      buffer := buffer[offset + 4 + length..];
      wanted := 0;
      return Got(Frame(fin, opcode, payload), offset + 4 + length);
    }

    /** Takes frames off the buffer until they make a message, an error, or there are none. */
    method ParseBuffer() returns (r: Parsed)
      requires Valid()
      modifies this`buffer, this`wanted, this`partial
      ensures r == Parse(old(buffer), old(partial), cfg)
      ensures !r.Failed? ==> Valid() && buffer == r.rest && partial == r.partial
      ensures old(WithinLimit(partial, cfg)) && !r.Failed? ==> WithinLimit(partial, cfg)
      ensures r.More? ==> wanted > |buffer|
    {
      while true
        invariant Valid()
        invariant Parse(buffer, partial, cfg) == Parse(old(buffer), old(partial), cfg)
        decreases |buffer|
      {
        ghost var before := buffer;
        var f := NextFrame();
        if f.Need? {
          return More(buffer, partial);
        }
        if f.Bad? {
          return Failed(f.error);
        }
        FrameIsWithinBounds(before, cfg.max);
        var a := Assemble(partial, f.frame, cfg);
        match a
        case Fail(error) => return Failed(error);
        case Emit(m, p) =>
          partial := p;
          return Found(m, buffer, p);
        case Keep(p) =>
          partial := p;
      }
    }

    /**
     * The next message, or how the stream ends: what the bytes alone determine, however they are split into reads.
     */
    method Next() returns (r: Parsed)
      requires Valid()
      modifies this`buffer, this`wanted, this`partial, this`chunks
      ensures old(WithinLimit(partial, cfg)) && !r.Failed? ==> WithinLimit(partial, cfg)
      ensures r.Failed? ==> Parse(old(Stream()), old(partial), cfg) == r
      ensures r.Found? ==>
                && Valid() && partial == r.partial
                && Parse(old(Stream()), old(partial), cfg) == Found(r.message, Stream(), partial)
      ensures r.More? ==> Valid() && Parse(old(Stream()), old(partial), cfg).More? && chunks == []
    {
      hide Parse;
      while true
        invariant Valid() && (old(WithinLimit(partial, cfg)) ==> WithinLimit(partial, cfg))
        invariant Parse(Stream(), partial, cfg) == Parse(old(Stream()), old(partial), cfg)
        decreases |chunks|
      {
        ghost var before, p := buffer, partial;
        r := ParseBuffer();
        ParseIsStable(before, Joined(chunks), p, cfg);
        if !r.More? {
          return;
        }
        if chunks == [] {
          assert before + Joined(chunks) == before && buffer + Joined(chunks) == buffer;
          return;
        }
        assert buffer + (chunks[0] + Joined(chunks[1..])) == (buffer + chunks[0]) + Joined(chunks[1..]);
        buffer, chunks := buffer + chunks[0], chunks[1..];
      }
    }

    /** Reads until the stream ends, as a bridge does, with the limit set anew before each message. */
    method ReadAll(limits: nat -> nat) returns (d: Decoded)
      requires Valid()
      modifies this
      ensures d == DecodeUnder(old(Stream()), old(partial), ending, old(cfg).utf8, limits, 0)
    {
      hide Parse;
      var messages: seq<Message> := [];
      var k := 0;
      while true
        invariant Valid() && k >= 0 && cfg.utf8 == old(cfg).utf8
        invariant var rest := DecodeUnder(Stream(), partial, ending, cfg.utf8, limits, k);
                  DecodeUnder(old(Stream()), old(partial), ending, old(cfg).utf8, limits, 0)
                  == Decoded(messages + rest.messages, rest.outcome)
        decreases |Stream()|
      {
        SetMaxMessage(limits(k));
        var r := Next();
        match r
        case More(_, _) => return Decoded(messages, EndOf(ending));
        case Failed(error) => return Decoded(messages, Error(error));
        case Found(m, _, _) =>
          messages := messages + [m];
          k := k + 1;
      }
    }
  }

  /**
   * Two ways of splitting the same bytes into reads give the same messages and the same end, whatever the limit is
   * changed to between messages.
   */
  method ReadingIsChunkingIndependent(a: seq<seq<byte>>, b: seq<seq<byte>>, ending: Ending, cfg: Config,
                                      limits: nat -> nat)
    returns (x: Decoded, y: Decoded)
    requires Joined(a) == Joined(b)
    requires forall i :: 0 <= i < |a| ==> a[i] != []
    requires forall i :: 0 <= i < |b| ==> b[i] != []
    ensures x == y == DecodeUnder(Joined(a), None, ending, cfg.utf8, limits, 0)
  {
    var ra := new Reader(cfg, a, ending);
    x := ra.ReadAll(limits);
    var rb := new Reader(cfg, b, ending);
    y := rb.ReadAll(limits);
  }
}

/** What a client sends, read back: any records, any pieces, any hello (sni.rs). */
module SniWire {
  import opened Common
  import opened Bytes
  import opened Sni

  // --- More bytes --------------------------------------------------------------------------------------------

  /** More bytes only add records, and none after a record of another kind. */
  lemma {:induction false} RecordsGrow(data: seq<byte>, more: seq<byte>)
    ensures Payload(data) <= Payload(data + more)
    ensures TailOf(data) == Foreign ==> Payload(data + more) == Payload(data) && TailOf(data + more) == Foreign
    decreases |data|
  {
    if IsRecord(data) {
      hide U16;
      RecordStays(data, more);
      RecordsGrow(data[RecordEnd(data)..], more);
    }
  }

  /** Complete and Invalid are final: more bytes change nothing. */
  lemma ReadingIsStable(data: seq<byte>, more: seq<byte>)
    requires Reading(data) != Incomplete
    ensures Reading(data + more) == Reading(data)
  {
    var h, all := Payload(data), Payload(data + more);
    RecordsGrow(data, more);
    hide Payload, TailOf, Body;
    if TailOf(data) == Waiting || Verdict(h, Waiting) != Incomplete {
      var rest := all[|h|..];
      assert all == h + rest;
      DecidedEarly(h, rest, TailOf(data));
      DecidedEarly(h, rest, TailOf(data + more));
      DecidedEarly(h, [], TailOf(data));
      assert h + [] == h;
    }
  }

  function Joined(chunks: seq<seq<byte>>): seq<byte> {
    if chunks == [] then [] else Joined(chunks[..|chunks| - 1]) + chunks[|chunks| - 1]
  }

  lemma JoinedPrefix(chunks: seq<seq<byte>>, n: nat)
    requires n <= |chunks|
    ensures Joined(chunks[..n]) <= Joined(chunks)
  {
    if n < |chunks| {
      JoinedPrefix(chunks[..|chunks| - 1], n);
      assert chunks[..|chunks| - 1][..n] == chunks[..n];
    } else {
      assert chunks[..n] == chunks;
    }
  }

  lemma DecidedByFirst(chunks: seq<seq<byte>>, n: nat)
    requires n <= |chunks| && Reading(Joined(chunks[..n])) != Incomplete
    ensures Reading(Joined(chunks)) == Reading(Joined(chunks[..n]))
  {
    var data := Joined(chunks[..n]);
    JoinedPrefix(chunks, n);
    var more := Joined(chunks)[|data|..];
    assert Joined(chunks) == data + more;
    ReadingIsStable(data, more);
  }

  /** A hello that trickles in, whatever the pieces, says what a look at all the bytes at once says. */
  method Feed(chunks: seq<seq<byte>>) returns (r: Hello)
    ensures r == Reading(Joined(chunks))
  {
    assert Reading([]) == Incomplete;
    hide Reading;
    var parser := new HelloParser();
    var data: seq<byte> := [];
    r := parser.Parse(data, []);
    assert chunks[..0] == [];
    for i := 0 to |chunks|
      invariant data == Joined(chunks[..i]) && r == Reading(data) == Incomplete && parser.Follows(data)
    {
      assert chunks[..i + 1][..i] == chunks[..i];
      var longer := data + chunks[i];
      r := parser.Parse(longer, data);
      data := longer;
      if r != Incomplete {
        DecidedByFirst(chunks, i + 1);
        return;
      }
    }
    assert chunks[..|chunks|] == chunks;
  }

  // --- Records -----------------------------------------------------------------------------------------------

  function ToU16(n: nat): (b: seq<byte>)
    requires n < 65536
    ensures |b| == 2 && U16(b) == n
  {
    [n / 256, n % 256]
  }

  datatype Record = Record(version: seq<byte>, contents: seq<byte>)

  predicate Writable(r: Record) { |r.version| == 2 && |r.contents| < 65536 }

  function RecordBytes(r: Record): seq<byte>
    requires Writable(r)
  {
    [0x16] + r.version + ToU16(|r.contents|) + r.contents
  }

  function Stream(rs: seq<Record>): seq<byte>
    requires forall i :: 0 <= i < |rs| ==> Writable(rs[i])
  {
    if rs == [] then [] else RecordBytes(rs[0]) + Stream(rs[1..])
  }

  function Contents(rs: seq<Record>): seq<byte> {
    if rs == [] then [] else rs[0].contents + Contents(rs[1..])
  }

  lemma RecordIsRead(r: Record, rest: seq<byte>)
    requires Writable(r)
    ensures var data := RecordBytes(r) + rest;
            IsRecord(data) && RecordEnd(data) == 5 + |r.contents| && data[5..RecordEnd(data)] == r.contents
            && data[RecordEnd(data)..] == rest
  {
    var data := RecordBytes(r) + rest;
    assert data[3..5] == ToU16(|r.contents|);
  }

  lemma {:induction false} StreamIsRead(rs: seq<Record>, rest: seq<byte>)
    requires forall i :: 0 <= i < |rs| ==> Writable(rs[i])
    ensures Payload(Stream(rs) + rest) == Contents(rs) + Payload(rest) && TailOf(Stream(rs) + rest) == TailOf(rest)
  {
    if rs == [] {
      assert Stream(rs) + rest == rest;
    } else {
      hide RecordBytes, IsRecord, RecordEnd;
      RecordIsRead(rs[0], Stream(rs[1..]) + rest);
      assert Stream(rs) + rest == RecordBytes(rs[0]) + (Stream(rs[1..]) + rest);
      StreamIsRead(rs[1..], rest);
    }
  }

  /** Only the joined contents of the records count, not where one record ends and the next begins. */
  lemma BoundariesDoNotMatter(a: seq<Record>, b: seq<Record>, rest: seq<byte>)
    requires forall i :: 0 <= i < |a| ==> Writable(a[i])
    requires forall i :: 0 <= i < |b| ==> Writable(b[i])
    requires Contents(a) == Contents(b)
    ensures Reading(Stream(a) + rest) == Reading(Stream(b) + rest)
  {
    StreamIsRead(a, rest);
    StreamIsRead(b, rest);
  }

  // --- Hellos ------------------------------------------------------------------------------------------------

  datatype Extension = Extension(kind: nat, data: seq<byte>)

  function ExtensionBytes(e: Extension): seq<byte>
    requires e.kind < 65536 && |e.data| < 65536
  {
    ToU16(e.kind) + ToU16(|e.data|) + e.data
  }

  predicate Encodable(es: seq<Extension>) {
    forall i :: 0 <= i < |es| ==> es[i].kind < 65536 && |es[i].data| < 65536
  }

  function ExtensionsBytes(es: seq<Extension>): seq<byte>
    requires Encodable(es)
  {
    if es == [] then [] else ExtensionBytes(es[0]) + ExtensionsBytes(es[1..])
  }

  /** What the extensions say, one after the other. */
  function Said(es: seq<Extension>, name: seq<byte>, alpn: seq<byte>): (seq<byte>, seq<byte>) {
    if es == [] then (name, alpn)
    else Said(es[1..], NameAfter(es[0].kind, es[0].data, name), AlpnAfter(es[0].kind, es[0].data, alpn))
  }

  lemma ExtensionIsRead(e: Extension, rest: seq<byte>)
    requires e.kind < 65536 && |e.data| < 65536
    ensures var x := ExtensionBytes(e) + rest; var end := 4 + |e.data|;
            |x| >= end && U16(x) == e.kind && U16(x[2..4]) == |e.data| && x[4..end] == e.data && x[end..] == rest
  {
    var x := ExtensionBytes(e) + rest;
    assert x[2..4] == ToU16(|e.data|);
  }

  lemma {:induction false} ExtensionsAreRead(es: seq<Extension>, name: seq<byte>, alpn: seq<byte>)
    requires Encodable(es)
    ensures Extensions(ExtensionsBytes(es), name, alpn) == Some(Said(es, name, alpn))
    decreases |es|
  {
    if es != [] {
      hide U16, ExtensionBytes, NameAfter, AlpnAfter;
      ExtensionIsRead(es[0], ExtensionsBytes(es[1..]));
      ExtensionsAreRead(es[1..], NameAfter(es[0].kind, es[0].data, name), AlpnAfter(es[0].kind, es[0].data, alpn));
    }
  }

  /** A ClientHello: version and random, session, cipher suites, compression methods, extensions. */
  datatype ClientHello = ClientHello(start: seq<byte>, session: seq<byte>, ciphers: seq<byte>, compression: seq<byte>,
                                     extensions: seq<Extension>)

  predicate Legal(h: ClientHello) {
    && |h.start| == 34 && |h.session| < 256 && |h.ciphers| < 65536 && |h.compression| < 256
    && Encodable(h.extensions) && |ExtensionsBytes(h.extensions)| < 65536
  }

  function CompressionOn(h: ClientHello): seq<byte>
    requires Legal(h)
  {
    var x := ExtensionsBytes(h.extensions);
    [|h.compression|] + h.compression + ToU16(|x|) + x
  }

  function CiphersOn(h: ClientHello): seq<byte>
    requires Legal(h)
  {
    ToU16(|h.ciphers|) + h.ciphers + CompressionOn(h)
  }

  function HelloBody(h: ClientHello): seq<byte>
    requires Legal(h)
  {
    h.start + ([|h.session|] + h.session + CiphersOn(h))
  }

  lemma CompressionOnIsRead(h: ClientHello)
    requires Legal(h)
    ensures AfterCiphers(CompressionOn(h)) == Named(Some(Said(h.extensions, [], [])))
  {
    var c, x := CompressionOn(h), ExtensionsBytes(h.extensions);
    var e := c[1 + |h.compression|..];
    assert e == ToU16(|x|) + x;
    assert U16(e) == U16(ToU16(|x|));
    assert e[2..2 + |x|] == x;
    ExtensionsAreRead(h.extensions, [], []);
    hide Extensions, Said, ExtensionsBytes;
  }

  lemma CiphersOnIsRead(h: ClientHello)
    requires Legal(h)
    ensures AfterSession(CiphersOn(h)) == AfterCiphers(CompressionOn(h))
  {
    var all, c := CiphersOn(h), CompressionOn(h);
    assert U16(all) == U16(ToU16(|h.ciphers|));
    assert |c| > 0;
    hide AfterCiphers, CompressionOn, Legal;
    assert all[2 + |h.ciphers|..] == c;
  }

  /** A hello says what its extensions say, whatever its other fields hold. */
  lemma HelloBodyIsRead(h: ClientHello)
    requires Legal(h)
    ensures Body(HelloBody(h)) == Named(Some(Said(h.extensions, [], [])))
  {
    CompressionOnIsRead(h);
    CiphersOnIsRead(h);
    var all, c := HelloBody(h), CiphersOn(h);
    assert |c| >= 2;
    hide AfterSession, CiphersOn, AfterCiphers, CompressionOn, Legal, Named, Said;
    var session := all[34..];
    assert session == [|h.session|] + h.session + c;
    assert session[1 + |h.session|..] == c;
  }

  // --- What the extensions mean ------------------------------------------------------------------------------

  datatype Name = Name(kind: byte, name: seq<byte>)

  /** A server name list, a protocol list, or any other extension. */
  datatype Offer =
    | ServerNames(names: seq<Name>)
    | Protocols(protocols: seq<seq<byte>>)
    | Other(kind: nat, data: seq<byte>)

  function NamesBytes(ns: seq<Name>): seq<byte>
    requires forall i :: 0 <= i < |ns| ==> |ns[i].name| < 65536
  {
    if ns == [] then [] else [ns[0].kind] + ToU16(|ns[0].name|) + ns[0].name + NamesBytes(ns[1..])
  }

  function ProtocolsBytes(ps: seq<seq<byte>>): seq<byte>
    requires forall i :: 0 <= i < |ps| ==> |ps[i]| < 256
  {
    if ps == [] then [] else [|ps[0]|] + ps[0] + ProtocolsBytes(ps[1..])
  }

  predicate Offerable(o: Offer) {
    match o
    case ServerNames(ns) => (forall i :: 0 <= i < |ns| ==> |ns[i].name| < 65536) && |NamesBytes(ns)| < 65534
    case Protocols(ps) => (forall i :: 0 <= i < |ps| ==> |ps[i]| < 256) && |ProtocolsBytes(ps)| < 65534
    case Other(kind, data) => kind < 65536 && kind != 0 && kind != 16 && |data| < 65536
  }

  function AsExtension(o: Offer): (e: Extension)
    requires Offerable(o)
    ensures e.kind < 65536 && |e.data| < 65536
  {
    match o
    case ServerNames(ns) => Extension(0, ToU16(|NamesBytes(ns)|) + NamesBytes(ns))
    case Protocols(ps) => Extension(16, ToU16(|ProtocolsBytes(ps)|) + ProtocolsBytes(ps))
    case Other(kind, data) => Extension(kind, data)
  }

  function AsExtensions(os: seq<Offer>): (es: seq<Extension>)
    requires forall i :: 0 <= i < |os| ==> Offerable(os[i])
    ensures Encodable(es)
  {
    if os == [] then [] else [AsExtension(os[0])] + AsExtensions(os[1..])
  }

  /** The first host name, if a list has one. */
  function FirstHost(ns: seq<Name>, name: seq<byte>): seq<byte> {
    if ns == [] then name else if ns[0].kind == 0 then ns[0].name else FirstHost(ns[1..], name)
  }

  /** The last server name list with a host name counts, and the first protocol of the last protocol list. */
  function Meaning(os: seq<Offer>, name: seq<byte>, alpn: seq<byte>): (seq<byte>, seq<byte>) {
    if os == [] then (name, alpn)
    else
      match os[0]
      case ServerNames(ns) => Meaning(os[1..], FirstHost(ns, name), alpn)
      case Protocols(ps) => Meaning(os[1..], name, if ps == [] then alpn else ps[0])
      case Other(_, _) => Meaning(os[1..], name, alpn)
  }

  lemma {:induction false} NamesAreRead(ns: seq<Name>, name: seq<byte>)
    requires forall i :: 0 <= i < |ns| ==> |ns[i].name| < 65536
    ensures HostName(NamesBytes(ns), name) == FirstHost(ns, name)
  {
    if ns != [] {
      var b, rest := NamesBytes(ns), NamesBytes(ns[1..]);
      assert b[1..3] == ToU16(|ns[0].name|);
      assert b[3..3 + |ns[0].name|] == ns[0].name;
      assert b[3 + |ns[0].name|..] == rest;
      NamesAreRead(ns[1..], name);
    }
  }

  lemma ListIsRead(b: seq<byte>)
    requires |b| < 65536
    ensures Listed(ToU16(|b|) + b) == b
  {
    var data := ToU16(|b|) + b;
    assert U16(data) == U16(ToU16(|b|));
    assert data[2..] == b;
  }

  lemma OfferIsRead(o: Offer, name: seq<byte>, alpn: seq<byte>)
    requires Offerable(o)
    ensures var e := AsExtension(o);
            (NameAfter(e.kind, e.data, name), AlpnAfter(e.kind, e.data, alpn)) == Meaning([o], name, alpn)
  {
    assert [o][1..] == [];
    match o
    case ServerNames(ns) =>
      ListIsRead(NamesBytes(ns));
      NamesAreRead(ns, name);
    case Protocols(ps) =>
      ListIsRead(ProtocolsBytes(ps));
      var data := AsExtension(o).data;
      if ps != [] {
        assert data[2] == |ps[0]|;
        assert data[3..3 + |ps[0]|] == ps[0];
      }
    case Other(_, _) =>
  }

  lemma {:induction false} OffersAreRead(os: seq<Offer>, name: seq<byte>, alpn: seq<byte>)
    requires forall i :: 0 <= i < |os| ==> Offerable(os[i])
    ensures Said(AsExtensions(os), name, alpn) == Meaning(os, name, alpn)
    decreases |os|
  {
    if os != [] {
      OfferIsRead(os[0], name, alpn);
      var (n, a) := Meaning([os[0]], name, alpn);
      assert [os[0]][1..] == [];
      assert AsExtensions(os)[1..] == AsExtensions(os[1..]);
      OffersAreRead(os[1..], n, a);
      hide NameAfter, AlpnAfter, AsExtension, FirstHost;
    }
  }

  // --- The whole way -----------------------------------------------------------------------------------------

  function Handshake(h: ClientHello): seq<byte>
    requires Legal(h) && |HelloBody(h)| < 0x100_0000
  {
    var n := |HelloBody(h)|;
    [1, n / 65536, n / 256 % 256, n % 256] + HelloBody(h)
  }

  lemma ThreeBytes(n: nat)
    requires n < 0x100_0000
    ensures n / 65536 < 256 && (n / 65536) * 65536 + (n / 256 % 256) * 256 + n % 256 == n
  {
  }

  lemma HandshakeIsRead(h: ClientHello, extra: seq<byte>, tail: Tail)
    requires Legal(h) && |HelloBody(h)| < 0x100_0000
    ensures Verdict(Handshake(h) + extra, tail) == Body(HelloBody(h))
  {
    var n, all := |HelloBody(h)|, Handshake(h) + extra;
    ThreeBytes(n);
    hide HelloBody, Body, Legal;
    assert all[0] == 1 && all[1] == n / 65536 && all[2] == n / 256 % 256 && all[3] == n % 256;
    assert MessageLength(all) == n;
    assert all[4..4 + n] == HelloBody(h);
  }

  lemma HelloInRecords(h: ClientHello, rs: seq<Record>, extra: seq<byte>, rest: seq<byte>)
    requires Legal(h) && |HelloBody(h)| < 0x100_0000
    requires forall i :: 0 <= i < |rs| ==> Writable(rs[i])
    requires Contents(rs) == Handshake(h) + extra
    ensures Reading(Stream(rs) + rest) == Named(Some(Said(h.extensions, [], [])))
  {
    hide Body, HelloBody, Handshake, Stream, Legal, Said, Payload, TailOf, Contents, Verdict, Named, Writable;
    StreamIsRead(rs, rest);
    HandshakeIsRead(h, extra + Payload(rest), TailOf(rest));
    assert (Handshake(h) + extra) + Payload(rest) == Handshake(h) + (extra + Payload(rest));
    HelloBodyIsRead(h);
  }

  /**
   * A hello sent in any records, fed to the parser in any pieces and with anything after it, is read as what its
   * server name and protocol lists mean.
   */
  method HelloRoundTrip(h: ClientHello, os: seq<Offer>, rs: seq<Record>, extra: seq<byte>, rest: seq<byte>,
                        chunks: seq<seq<byte>>)
    returns (r: Hello)
    requires forall i :: 0 <= i < |os| ==> Offerable(os[i])
    requires Legal(h) && h.extensions == AsExtensions(os) && |HelloBody(h)| < 0x100_0000
    requires forall i :: 0 <= i < |rs| ==> Writable(rs[i])
    requires Contents(rs) == Handshake(h) + extra && Joined(chunks) == Stream(rs) + rest
    ensures var (name, alpn) := Meaning(os, [], []);
            r == if name == [] then Invalid("ClientHello has no SNI") else Complete(name, alpn)
  {
    hide Body, HelloBody, Handshake, Stream, Legal, Said, Meaning, Reading, Contents, Writable, Offerable, Joined,
         AsExtensions;
    r := Feed(chunks);
    HelloInRecords(h, rs, extra, rest);
    OffersAreRead(os, [], []);
  }
}

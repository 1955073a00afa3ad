/**
 * The server name and ALPN of a TLS ClientHello, read while it arrives (sni.rs; sections 4.1.2 and 5.1 of RFC 8446,
 * section 3 of RFC 6066, section 3.1 of RFC 7301).
 */
module Sni {
  import opened Common
  import opened Bytes

  /** Names are kept as their bytes. */
  datatype Hello = Incomplete | Invalid(what: string) | Complete(serverName: seq<byte>, alpn: seq<byte>)

  function U16(b: seq<byte>): nat
    requires |b| >= 2
  {
    b[0] as nat * 256 + b[1]
  }

  // --- Meaning: records --------------------------------------------------------------------------------------

  /** What follows the complete handshake records: bytes to wait for, or a record of another kind. */
  datatype Tail = Waiting | Foreign

  /** A complete handshake record starts here. */
  predicate IsRecord(data: seq<byte>) {
    |data| >= 5 && data[0] == 0x16 && |data| - 5 >= U16(data[3..5])
  }

  function RecordEnd(data: seq<byte>): (n: nat)
    requires IsRecord(data)
    ensures 5 <= n <= |data|
  {
    5 + U16(data[3..5])
  }

  /** The contents of the complete handshake records at the front, joined. */
  function Payload(data: seq<byte>): seq<byte> {
    if IsRecord(data) then data[5..RecordEnd(data)] + Payload(data[RecordEnd(data)..]) else []
  }

  function TailOf(data: seq<byte>): Tail {
    if IsRecord(data) then TailOf(data[RecordEnd(data)..])
    else if |data| >= 5 && data[0] != 0x16 then Foreign
    else Waiting
  }

  function MessageLength(handshake: seq<byte>): nat
    requires |handshake| >= 4
  {
    handshake[1] as nat * 65536 + handshake[2] as nat * 256 + handshake[3]
  }

  /** What handshake bytes say, wherever the records they came in began and ended. */
  function Verdict(handshake: seq<byte>, tail: Tail): Hello {
    var undecided := if tail == Waiting then Incomplete else Invalid("expected TLS handshake record");
    if |handshake| < 4 then undecided
    else if handshake[0] != 0x01 then Invalid("expected TLS ClientHello")
    else if |handshake| < MessageLength(handshake) + 4 then undecided
    else Body(handshake[4..MessageLength(handshake) + 4])
  }

  /** What a connection's bytes so far say. */
  function Reading(data: seq<byte>): Hello {
    Verdict(Payload(data), TailOf(data))
  }

  // --- Meaning: the hello ------------------------------------------------------------------------------------

  function Body(hello: seq<byte>): Hello {
    if |hello| < 35 then Invalid("truncated ClientHello") else AfterRandom(hello[34..])
  }

  function AfterRandom(session: seq<byte>): Hello
    requires |session| > 0
  {
    var s := 1 + session[0] as nat;
    if s + 2 > |session| then Invalid("invalid session") else AfterSession(session[s..])
  }

  function AfterSession(ciphers: seq<byte>): Hello
    requires |ciphers| >= 2
  {
    var c := 2 + U16(ciphers);
    if c >= |ciphers| then Invalid("invalid cipher suites") else AfterCiphers(ciphers[c..])
  }

  function AfterCiphers(compression: seq<byte>): Hello
    requires |compression| > 0
  {
    var m := 1 + compression[0] as nat;
    if m == |compression| then Invalid("ClientHello has no SNI")
    else if m + 2 > |compression| then Invalid("invalid extensions")
    else
      var extensions := compression[m..];
      var n := 2 + U16(extensions);
      if n > |extensions| then Invalid("truncated extensions")
      else Named(Extensions(extensions[2..n], [], []))
  }

  function Named(found: Option<(seq<byte>, seq<byte>)>): Hello {
    match found
    case None => Invalid("truncated extension")
    case Some((name, alpn)) => if name == [] then Invalid("ClientHello has no SNI") else Complete(name, alpn)
  }

  /** The server name and ALPN after all extensions, given those before them: none if an extension is cut short. */
  function Extensions(x: seq<byte>, name: seq<byte>, alpn: seq<byte>): Option<(seq<byte>, seq<byte>)> {
    if |x| < 4 then Some((name, alpn))
    else
      var end := 4 + U16(x[2..4]);
      if end > |x| then None
      else Extensions(x[end..], NameAfter(U16(x), x[4..end], name), AlpnAfter(U16(x), x[4..end], alpn))
  }

  function NameAfter(kind: nat, data: seq<byte>, name: seq<byte>): seq<byte> {
    if kind == 0 && |data| >= 5 then HostName(Listed(data), name) else name
  }

  function AlpnAfter(kind: nat, data: seq<byte>, alpn: seq<byte>): seq<byte> {
    if kind == 16 && |data| >= 3 then FirstProtocol(data, alpn) else alpn
  }

  /** The list an extension holds, cut where the extension ends. */
  function Listed(data: seq<byte>): seq<byte>
    requires |data| >= 2
  {
    if 2 + U16(data) < |data| then data[2..2 + U16(data)] else data[2..]
  }

  /** The first host name in a list of names, or the name there was. */
  function HostName(names: seq<byte>, name: seq<byte>): seq<byte> {
    if |names| < 3 then name
    else
      var end := 3 + U16(names[1..3]);
      if end > |names| then name
      else if names[0] == 0 then names[3..end]
      else HostName(names[end..], name)
  }

  function FirstProtocol(data: seq<byte>, alpn: seq<byte>): seq<byte>
    requires |data| >= 3
  {
    var end := 3 + data[2] as nat;
    if end <= 2 + |Listed(data)| then data[3..end] else alpn
  }

  lemma Slice(s: seq<byte>, a: nat, b: nat, i: nat, j: nat)
    requires a <= b <= |s| && i <= j <= b - a
    ensures s[a..b][i..j] == s[a + i..a + j]
  {
    var inner, outer := s[a..b][i..j], s[a + i..a + j];
    forall k | 0 <= k < j - i ensures inner[k] == outer[k] {}
  }

  lemma BodyDecides(hello: seq<byte>)
    ensures Body(hello) != Incomplete
  {
    hide U16, Extensions;
  }

  // --- The parser --------------------------------------------------------------------------------------------

  method U16At(data: seq<byte>, offset: nat) returns (n: nat)
    requires offset + 2 <= |data|
    ensures n == U16(data[offset..]) == U16(data[offset..offset + 2])
    ensures n < 65536
  {
    n := data[offset] as nat * 256 + data[offset + 1];
  }

  /** Walks the names of a server name extension between two offsets. */
  method FindHostName(hello: seq<byte>, start: nat, listEnd: nat, name: seq<byte>) returns (found: seq<byte>)
    requires start <= listEnd <= |hello|
    ensures found == HostName(hello[start..listEnd], name)
  {
    hide U16;
    var nameOffset := start;
    while nameOffset + 3 <= listEnd
      invariant start <= nameOffset <= listEnd
      invariant HostName(hello[start..listEnd], name) == HostName(hello[nameOffset..listEnd], name)
      decreases listEnd - nameOffset
    {
      ghost var names := hello[nameOffset..listEnd];
      var nameType := hello[nameOffset];
      var nameLength := U16At(hello, nameOffset + 1);
      Slice(hello, nameOffset, listEnd, 1, 3);
      nameOffset := nameOffset + 3;
      if nameOffset + nameLength > listEnd {
        return name;
      }
      if nameType == 0 {
        found := hello[nameOffset..nameOffset + nameLength];
        Slice(hello, nameOffset - 3, listEnd, 3, 3 + nameLength);
        return;
      }
      nameOffset := nameOffset + nameLength;
      assert hello[nameOffset..listEnd] == names[3 + nameLength..];
    }
    found := name;
  }

  /** One extension: what the server name and ALPN are after it. */
  method OneExtension(hello: seq<byte>, kind: nat, offset: nat, end: nat, name: seq<byte>, alpn: seq<byte>)
    returns (name': seq<byte>, alpn': seq<byte>)
    requires offset <= end <= |hello|
    ensures name' == NameAfter(kind, hello[offset..end], name)
    ensures alpn' == AlpnAfter(kind, hello[offset..end], alpn)
  {
    name', alpn' := name, alpn;
    ghost var data := hello[offset..end];
    if end - offset >= 2 { KindOf(hello, data, offset); }
    hide U16;
    if kind == 0 && end - offset >= 5 {
      var n := U16At(hello, offset);
      var listEnd := if offset + 2 + n < end then offset + 2 + n else end;
      Slice(hello, offset, end, 2, listEnd - offset);
      name' := FindHostName(hello, offset + 2, listEnd, name);
    } else if kind == 16 && end - offset >= 3 {
      var n := U16At(hello, offset);
      var listEnd := if offset + 2 + n < end then offset + 2 + n else end;
      Slice(hello, offset, end, 2, listEnd - offset);
      assert |Listed(data)| == listEnd - offset - 2;
      var protocolLength: nat := hello[offset + 2];
      if offset + 3 + protocolLength <= listEnd {
        alpn' := hello[offset + 3..offset + 3 + protocolLength];
        Slice(hello, offset, end, 3, 3 + protocolLength);
      }
    }
  }

  /** Walks the extensions between two offsets. */
  method WalkExtensions(hello: seq<byte>, start: nat, extensionsEnd: nat) returns (r: Hello)
    requires start <= extensionsEnd <= |hello|
    ensures r == Named(Extensions(hello[start..extensionsEnd], [], []))
  {
    hide NameAfter, AlpnAfter, U16;
    var offset := start;
    var serverName: seq<byte>, alpn: seq<byte> := [], [];
    while offset + 4 <= extensionsEnd
      invariant start <= offset <= extensionsEnd
      invariant Extensions(hello[start..extensionsEnd], [], [])
             == Extensions(hello[offset..extensionsEnd], serverName, alpn)
      decreases extensionsEnd - offset
    {
      ghost var x := hello[offset..extensionsEnd];
      var kind := U16At(hello, offset);
      var length := U16At(hello, offset + 2);
      KindOf(hello, x, offset);
      Slice(hello, offset, extensionsEnd, 2, 4);
      offset := offset + 4;
      var end := offset + length;
      if end > extensionsEnd {
        return Invalid("truncated extension");
      }
      Slice(hello, offset - 4, extensionsEnd, 4, 4 + length);
      serverName, alpn := OneExtension(hello, kind, offset, end, serverName, alpn);
      offset := end;
      assert hello[offset..extensionsEnd] == x[4 + length..];
    }
    if serverName == [] {
      return Invalid("ClientHello has no SNI");
    }
    r := Complete(serverName, alpn);
  }

  lemma KindOf(hello: seq<byte>, x: seq<byte>, offset: nat)
    requires offset + 2 <= |hello| && |x| >= 2 && x[..2] == hello[offset..offset + 2]
    ensures U16(x) == U16(hello[offset..])
  {
    assert x[0] == x[..2][0] && x[1] == x[..2][1];
  }

  method ParseHelloBody(hello: seq<byte>) returns (r: Hello)
    ensures r == Body(hello)
  {
    hide AfterCiphers, U16;
    if |hello| < 35 {
      return Invalid("truncated ClientHello");
    }
    var offset: nat := 2 + 32;
    var sessionLength := hello[offset];
    offset := offset + 1 + sessionLength;
    if offset + 2 > |hello| {
      return Invalid("invalid session");
    }
    ghost var ciphers := hello[34..][1 + sessionLength..];
    assert ciphers == hello[offset..];
    var cipherLength := U16At(hello, offset);
    offset := offset + 2 + cipherLength;
    if offset >= |hello| {
      return Invalid("invalid cipher suites");
    }
    assert ciphers[2 + cipherLength..] == hello[offset..];
    r := ParseAfterCiphers(hello, offset);
  }

  method ParseAfterCiphers(hello: seq<byte>, at: nat) returns (r: Hello)
    requires at < |hello|
    ensures r == AfterCiphers(hello[at..])
  {
    var offset := at;
    var compressionLength := hello[offset];
    offset := offset + 1 + compressionLength;
    if offset == |hello| {
      return Invalid("ClientHello has no SNI");
    }
    if offset + 2 > |hello| {
      return Invalid("invalid extensions");
    }
    ghost var extensions := hello[at..][1 + compressionLength..];
    assert extensions == hello[offset..];
    var extensionsLength := U16At(hello, offset);
    offset := offset + 2;
    var extensionsEnd := offset + extensionsLength;
    if extensionsEnd > |hello| {
      return Invalid("truncated extensions");
    }
    assert extensions[2..2 + extensionsLength] == hello[offset..extensionsEnd];
    r := WalkExtensions(hello, offset, extensionsEnd);
  }

  /** The length a handshake announces, once its header is there. */
  function Announced(handshake: seq<byte>): Option<nat> {
    if |handshake| < 4 then None else Some(MessageLength(handshake))
  }

  class HelloParser {
    /** Where the next record starts. */
    var recordOffset: nat
    var handshake: seq<byte>
    var handshakeLength: Option<nat>

    constructor ()
      ensures Follows([])
    {
      recordOffset, handshake, handshakeLength := 0, [], None;
      new;
      assert Payload([]) == [];
    }

    /** The parser has taken whole records from the front of the data, and what is left decides with it. */
    ghost predicate Follows(data: seq<byte>)
      reads this
    {
      && recordOffset <= |data| && Before(data[..recordOffset], handshake)
      && handshakeLength == Announced(handshake)
      && (|handshake| >= 4 ==> handshake[0] == 0x01)
    }

    /**
     * Takes the connection's bytes so far and says what a fresh look at all of them would say. It may be called
     * again with more bytes as long as it says Incomplete.
     */
    method Parse(data: seq<byte>, ghost earlier: seq<byte>) returns (r: Hello)
      requires Follows(earlier) && earlier <= data
      modifies this
      ensures r == Reading(data)
      ensures r == Incomplete ==> Follows(data)
    {
      hide Body, Payload, TailOf, Reading, Before;
      assert data[..recordOffset] == earlier[..recordOffset];
      while true
        invariant Follows(data)
        decreases |data| - recordOffset
      {
        if handshakeLength.Some? && |handshake| >= handshakeLength.value + 4 {
          Decided(data, recordOffset, handshake);
          r := ParseHelloBody(handshake[4..handshakeLength.value + 4]);
          return;
        }
        var offset := recordOffset;
        if |data| - offset < 5 {
          Undecided(data, offset, handshake);
          return Incomplete;
        }
        if data[offset] != 0x16 {
          Undecided(data, offset, handshake);
          return Invalid("expected TLS handshake record");
        }
        var recordLength := U16At(data, offset + 3);
        if |data| - offset - 5 < recordLength {
          Undecided(data, offset, handshake);
          return Incomplete;
        }
        var start := offset + 5;
        OneMoreRecord(data, offset, handshake, start + recordLength);
        handshake := handshake + data[start..start + recordLength];
        recordOffset := start + recordLength;
        if |handshake| >= 4 {
          if handshake[0] != 0x01 {
            Decided(data, recordOffset, handshake);
            return Invalid("expected TLS ClientHello");
          }
          if handshakeLength.None? {
            handshakeLength := Some(handshake[1] as nat * 65536 + handshake[2] as nat * 256 + handshake[3]);
          }
        }
      }
    }
  }

  /** Taking records off the front leaves the verdict to what was taken and the rest. */
  lemma Taken(data: seq<byte>, offset: nat, handshake: seq<byte>)
    requires offset <= |data| && Before(data[..offset], handshake)
    ensures Reading(data) == Verdict(handshake + Payload(data[offset..]), TailOf(data[offset..]))
  {
    hide Verdict, Payload, TailOf, Before;
    assert data == data[..offset] + data[offset..];
    TakenRecords(data[..offset], handshake, data[offset..]);
  }

  /** Enough records were taken to decide. */
  lemma Decided(data: seq<byte>, offset: nat, handshake: seq<byte>)
    requires offset <= |data| && Before(data[..offset], handshake) && |handshake| >= 4
    requires handshake[0] != 0x01 || |handshake| >= MessageLength(handshake) + 4
    ensures Reading(data)
         == if handshake[0] != 0x01 then Invalid("expected TLS ClientHello")
            else Body(handshake[4..MessageLength(handshake) + 4])
  {
    var rest := data[offset..];
    Taken(data, offset, handshake);
    if handshake[0] == 0x01 { BodyDecides(handshake[4..MessageLength(handshake) + 4]); }
    hide Body, Payload, TailOf, Before, MessageLength, Reading;
    DecidedEarly(handshake, Payload(rest), TailOf(rest));
  }

  /** All complete records were taken, and they do not decide. */
  lemma Undecided(data: seq<byte>, offset: nat, handshake: seq<byte>)
    requires offset <= |data| && Before(data[..offset], handshake) && !IsRecord(data[offset..])
    requires |handshake| < 4 || (handshake[0] == 0x01 && |handshake| < MessageLength(handshake) + 4)
    ensures Reading(data)
         == if |data| - offset >= 5 && data[offset] != 0x16 then Invalid("expected TLS handshake record")
            else Incomplete
  {
    var rest := data[offset..];
    Taken(data, offset, handshake);
    hide Body, Before, Reading;
    assert handshake + Payload(rest) == handshake;
  }

  /** Bytes that are exactly whole records with these contents. */
  ghost predicate Before(bytes: seq<byte>, contents: seq<byte>)
    decreases |bytes|
  {
    if bytes == [] then contents == []
    else
      && IsRecord(bytes) && RecordEnd(bytes) - 5 <= |contents|
      && contents[..RecordEnd(bytes) - 5] == bytes[5..RecordEnd(bytes)]
      && Before(bytes[RecordEnd(bytes)..], contents[RecordEnd(bytes) - 5..])
  }

  lemma Rejoin(s: seq<byte>, n: nat, t: seq<byte>)
    requires n <= |s|
    ensures s[..n] + (s[n..] + t) == s + t
  {
  }

  lemma RecordStays(front: seq<byte>, rest: seq<byte>)
    requires IsRecord(front)
    ensures var all := front + rest; var n := RecordEnd(front);
            && IsRecord(all) && RecordEnd(all) == n && all[5..n] == front[5..n] && all[n..] == front[n..] + rest
  {
    var all := front + rest;
    assert all[3..5] == front[3..5] && all[0] == front[0];
  }

  /** Whole records add their contents, and the rest decides as it would alone. */
  lemma {:induction false} TakenRecords(bytes: seq<byte>, contents: seq<byte>, rest: seq<byte>)
    requires Before(bytes, contents)
    ensures Payload(bytes + rest) == contents + Payload(rest)
    ensures TailOf(bytes + rest) == TailOf(rest)
    decreases |bytes|
  {
    hide U16, IsRecord, RecordEnd;
    if bytes == [] {
      assert bytes + rest == rest;
    } else {
      var n := RecordEnd(bytes);
      RecordStays(bytes, rest);
      TakenRecords(bytes[n..], contents[n - 5..], rest);
      Rejoin(contents, n - 5, Payload(rest));
    }
  }

  lemma OneRecord(record: seq<byte>)
    requires IsRecord(record) && RecordEnd(record) == |record|
    ensures Before(record, record[5..])
  {
    assert Before([], []);
    assert record[|record|..] == [] && record[5..][|record| - 5..] == [];
  }

  lemma {:induction false} BeforeGrows(bytes: seq<byte>, contents: seq<byte>, record: seq<byte>)
    requires Before(bytes, contents) && IsRecord(record) && RecordEnd(record) == |record|
    ensures Before(bytes + record, contents + record[5..])
    decreases |bytes|
  {
    hide U16, IsRecord, RecordEnd;
    if bytes == [] {
      assert bytes + record == record && contents + record[5..] == record[5..];
      OneRecord(record);
    } else {
      var n := RecordEnd(bytes);
      RecordStays(bytes, record);
      BeforeGrows(bytes[n..], contents[n - 5..], record);
      SplitSum(contents, record[5..], n - 5);
    }
  }

  lemma SplitSum(s: seq<byte>, t: seq<byte>, n: nat)
    requires n <= |s|
    ensures (s + t)[..n] == s[..n] && (s + t)[n..] == s[n..] + t
  {
  }

  lemma OneMoreRecord(data: seq<byte>, offset: nat, handshake: seq<byte>, end: nat)
    requires offset + 5 <= end <= |data| && Before(data[..offset], handshake)
    requires data[offset] == 0x16 && end - offset - 5 == U16(data[offset + 3..offset + 5])
    ensures Before(data[..end], handshake + data[offset + 5..end])
  {
    var record := data[offset..end];
    Slice(data, offset, end, 3, 5);
    assert record[5..] == data[offset + 5..end];
    assert data[..end] == data[..offset] + record;
    BeforeGrows(data[..offset], handshake, record);
  }

  /** A verdict reached early stands, whatever comes after. */
  lemma DecidedEarly(handshake: seq<byte>, more: seq<byte>, tail: Tail)
    requires Verdict(handshake, Waiting) != Incomplete
    ensures Verdict(handshake + more, tail) == Verdict(handshake, Waiting)
  {
    hide Body;
    var all := handshake + more;
    assert all[..4] == handshake[..4] && all[0] == handshake[0] && all[1] == handshake[1] && all[2] == handshake[2]
           && all[3] == handshake[3];
    if handshake[0] == 0x01 {
      var n := MessageLength(handshake) + 4;
      assert all[4..n] == handshake[4..n];
    }
  }
}

/** `_pure_pcap_metadata` and `_decode_dns_name` of core/offline_analyzer.py: classic PCAP files of
    Ethernet frames, read without libraries. */
module PcapReader {
  import opened Bytes
  import opened Values

  datatype Proto = Tcp | Udp | Icmp | Other

  datatype Ports = Ports(source: nat, destination: nat)

  /** One accepted frame; the addresses are the four bytes that are printed dotted. */
  datatype Row = Row(seconds: nat, fraction: nat, src: seq<Byte>, dst: seq<Byte>, proto: Proto, ports: Option<Ports>,
                     length: nat, payloadLength: nat, queryName: Option<string>)

  datatype Failure = Truncated | NotClassicPcap | NotEthernet

  datatype Result = Ok(rows: seq<Row>) | Err(failure: Failure)

  const LITTLE: seq<Byte> := [0xd4, 0xc3, 0xb2, 0xa1]
  const BIG: seq<Byte> := [0xa1, 0xb2, 0xc3, 0xd4]

  function ReadU32(b: seq<Byte>, at: nat, little: bool): (n: nat)
    requires at + 3 < |b|
    ensures n < 0x1_0000_0000
  {
    if little then At(b, at) + 256 * At(b, at + 1) + 0x1_0000 * (At(b, at + 2) + 256 * At(b, at + 3))
    else 0x1_0000 * ReadU16(b, at) + ReadU16(b, at + 2)
  }

  // ----- names -----

  predicate Ascii(b: Byte) { b < 128 }

  /** bytes.decode("ascii", errors="ignore") */
  function DecodeAscii(b: seq<Byte>): (s: string)
    ensures |s| <= |b|
  {
    if b == [] then "" else DecodeAscii(b[..|b| - 1]) + if Ascii(b[|b| - 1]) then [b[|b| - 1] as char] else []
  }

  /** ".".join(part for part in labels if part) */
  function JoinLabels(labels: seq<string>): string {
    if labels == [] then ""
    else
      var before, last := JoinLabels(labels[..|labels| - 1]), labels[|labels| - 1];
      if last == "" then before else if before == "" then last else before + "." + last
  }

  /** The labels from `at` on, or None where the decoder gives up. */
  function Labels(payload: seq<Byte>, at: nat): Option<seq<string>>
    decreases |payload| - at
  {
    if at >= |payload| then Some([])
    else
      var size := At(payload, at);
      if size == 0 then Some([])
      else if size >= 64 || at + 1 + size > |payload| then None
      else
        var rest := Labels(payload, at + 1 + size);
        if rest.None? then None else Some([DecodeAscii(payload[at + 1..at + 1 + size])] + rest.value)
  }

  function DecodedName(payload: seq<Byte>, at: nat): string {
    var labels := Labels(payload, at);
    if labels.None? then "" else JoinLabels(labels.value)
  }

  /** The labels read so far, then those from `at` on. */
  function ReadOn(labels: seq<string>, payload: seq<Byte>, at: nat): Option<seq<string>> {
    var rest := Labels(payload, at);
    if rest.None? then None else Some(labels + rest.value)
  }

  lemma OneLabel(labels: seq<string>, payload: seq<Byte>, at: nat)
    ensures ReadOn(labels, payload, at)
            == if at >= |payload| || At(payload, at) == 0 then Some(labels)
               else
                 var size := At(payload, at);
                 if size >= 64 || at + 1 + size > |payload| then None
                 else ReadOn(labels + [DecodeAscii(payload[at + 1..at + 1 + size])], payload, at + 1 + size)
  {
    hide DecodeAscii;
    assert labels + [] == labels;
    if at < |payload| && 0 < At(payload, at) < 64 && at + 1 + At(payload, at) <= |payload| {
      var size := At(payload, at);
      var part, rest := DecodeAscii(payload[at + 1..at + 1 + size]), Labels(payload, at + 1 + size);
      assert rest.Some? ==> labels + ([part] + rest.value) == labels + [part] + rest.value;
    }
  }

  /** The offset only grows, past every label. */
  method DecodeDnsName(payload: seq<Byte>, start: nat) returns (name: string)
    ensures name == DecodedName(payload, start)
  {
    hide ReadOn, DecodeAscii, JoinLabels, Labels;
    var labels: seq<string>, offset := [], start;
    ghost var all := Labels(payload, start);
    FromTheStart(payload, start);
    while offset < |payload|
      invariant all == ReadOn(labels, payload, offset)
      decreases |payload| - offset
    {
      OneLabel(labels, payload, offset);
      var size := At(payload, offset);
      offset := offset + 1;
      if size == 0 { return JoinLabels(labels); }
      if size >= 64 || offset + size > |payload| { return ""; }
      labels := labels + [DecodeAscii(payload[offset..offset + size])];
      offset := offset + size;
    }
    OneLabel(labels, payload, offset);
    name := JoinLabels(labels);
  }

  lemma FromTheStart(payload: seq<Byte>, start: nat)
    ensures ReadOn([], payload, start) == Labels(payload, start)
  {
    var all := Labels(payload, start);
    assert all.Some? ==> [] + all.value == all.value;
  }

  // ----- frames -----

  function ProtoOf(n: nat): Proto { if n == 6 then Tcp else if n == 17 then Udp else if n == 1 then Icmp else Other }

  function TcpHeaderLength(transport: seq<Byte>): nat
    requires |transport| >= 20
  {
    var words := At(transport, 12) / 16;
    if words * 4 < 20 then 20 else words * 4
  }

  function PortsOf(proto: Proto, transport: seq<Byte>): Option<Ports> {
    if (proto.Tcp? && |transport| >= 20) || (proto.Udp? && |transport| >= 8)
    then Some(Ports(ReadU16(transport, 0), ReadU16(transport, 2))) else None
  }

  /** transport[n:] */
  function From(b: seq<Byte>, n: nat): seq<Byte> { if n <= |b| then b[n..] else [] }

  function PayloadOf(proto: Proto, transport: seq<Byte>): seq<Byte> {
    if proto.Tcp? && |transport| >= 20 then From(transport, TcpHeaderLength(transport))
    else if proto.Udp? && |transport| >= 8 then transport[8..]
    else []
  }

  predicate Accepted(frame: seq<Byte>) {
    && |frame| >= 34 && frame[12] == 8 && frame[13] == 0
    && var header := At(frame, 14) % 16 * 4; 20 <= header <= |frame| - 14
  }

  function QueryName(proto: Proto, ports: Option<Ports>, payload: seq<Byte>): Option<string> {
    if proto.Udp? && ports.Some? && (ports.value.source == 53 || ports.value.destination == 53) && |payload| >= 12
    then Some(DecodedName(payload, 12)) else None
  }

  function RowOf(frame: seq<Byte>, seconds: nat, fraction: nat): Row
    requires Accepted(frame)
  {
    var proto, transport := ProtoOf(At(frame, 23)), frame[14 + At(frame, 14) % 16 * 4..];
    var ports, payload := PortsOf(proto, transport), PayloadOf(proto, transport);
    Row(seconds, fraction, frame[26..30], frame[30..34], proto, ports, |frame|, |payload|,
        QueryName(proto, ports, payload))
  }

  function Rows(data: seq<Byte>, at: nat, little: bool): seq<Row>
    decreases |data| - at
  {
    if at + 16 > |data| then []
    else
      var size := ReadU32(data, at + 8, little);
      var frame := Slice(data, at + 16, size);
      (if Accepted(frame) then [RowOf(frame, ReadU32(data, at, little), ReadU32(data, at + 4, little))] else [])
      + Rows(data, at + 16 + size, little)
  }

  function Read(data: seq<Byte>): Result {
    if |data| < 24 then Err(Truncated)
    else if data[..4] != LITTLE && data[..4] != BIG then Err(NotClassicPcap)
    else if ReadU32(data, 20, data[..4] == LITTLE) != 1 then Err(NotEthernet)
    else Ok(Rows(data, 24, data[..4] == LITTLE))
  }

  /** Acceptance and row of a frame, read off its IP packet. */
  lemma RowOfPacket(frame: seq<Byte>, seconds: nat, fraction: nat)
    requires |frame| >= 34
    ensures var ip := frame[14..];
            var ihl := At(ip, 0) % 16 * 4;
            && (Accepted(frame) <==> frame[12] == 8 && frame[13] == 0 && 20 <= ihl <= |ip|)
            && (Accepted(frame) ==>
                  var proto, transport := ProtoOf(At(ip, 9)), ip[ihl..];
                  var ports, payload := PortsOf(proto, transport), PayloadOf(proto, transport);
                  RowOf(frame, seconds, fraction)
                  == Row(seconds, fraction, ip[12..16], ip[16..20], proto, ports, |frame|, |payload|,
                         QueryName(proto, ports, payload)))
  {
    hide PortsOf, PayloadOf, QueryName, ProtoOf;
    var ihl := At(frame, 14) % 16 * 4;
    SliceOfTail(frame, 14, 12, 16);
    SliceOfTail(frame, 14, 16, 20);
    if ihl <= |frame| - 14 { TailOfTail(frame, 14, ihl); }
  }

  lemma NotAccepted(frame: seq<Byte>)
    requires |frame| < 34 || frame[12] != 8 || frame[13] != 0
    ensures !Accepted(frame)
  {
  }

  method ReadFrame(frame: seq<Byte>, seconds: nat, fraction: nat) returns (row: Option<Row>)
    ensures row == if Accepted(frame) then Some(RowOf(frame, seconds, fraction)) else None
  {
    hide TcpHeaderLength, ReadU16, DecodedName, ProtoOf, RowOf, Accepted;
    if |frame| < 34 || frame[12] != 8 || frame[13] != 0 {
      NotAccepted(frame);
      return None;
    }
    RowOfPacket(frame, seconds, fraction);
    var ip := frame[14..];
    var ihl := At(ip, 0) % 16 * 4;
    if |ip| < ihl || ihl < 20 { return None; }
    var proto, src, dst, transport := ProtoOf(At(ip, 9)), ip[12..16], ip[16..20], ip[ihl..];
    var ports, payload := None, [];
    if proto.Tcp? && |transport| >= 20 {
      ports := Some(Ports(ReadU16(transport, 0), ReadU16(transport, 2)));
      payload := From(transport, TcpHeaderLength(transport));
    } else if proto.Udp? && |transport| >= 8 {
      ports := Some(Ports(ReadU16(transport, 0), ReadU16(transport, 2)));
      payload := transport[8..];
    }
    var name := None;
    if proto.Udp? && ports.Some? && (ports.value.source == 53 || ports.value.destination == 53) && |payload| >= 12 {
      var decoded := DecodeDnsName(payload, 12);
      name := Some(decoded);
    }
    row := Some(Row(seconds, fraction, src, dst, proto, ports, |frame|, |payload|, name));
  }

  lemma HeaderDecides(data: seq<Byte>)
    ensures |data| < 24 ==> Read(data) == Err(Truncated)
    ensures |data| >= 24 ==>
              var little := data[..4] == LITTLE;
              && (!little && data[..4] != BIG ==> Read(data) == Err(NotClassicPcap))
              && (little || data[..4] == BIG ==>
                    Read(data) == if ReadU32(data, 20, little) != 1 then Err(NotEthernet)
                                  else Ok(Rows(data, 24, little)))
  {
  }

  lemma OneRecord(data: seq<Byte>, at: nat, little: bool, rows: seq<Row>)
    ensures rows + Rows(data, at, little)
            == if at + 16 > |data| then rows
               else
                 var size := ReadU32(data, at + 8, little);
                 var frame := Slice(data, at + 16, size);
                 (if Accepted(frame) then rows
                  + [RowOf(frame, ReadU32(data, at, little), ReadU32(data, at + 4, little))] else rows)
                 + Rows(data, at + 16 + size, little)
  {
    hide Accepted, RowOf, ReadU32, Slice;
    if at + 16 > |data| {
      assert rows + [] == rows;
    } else {
      var size := ReadU32(data, at + 8, little);
      var frame, rest := Slice(data, at + 16, size), Rows(data, at + 16 + size, little);
      if Accepted(frame) {
        var row := RowOf(frame, ReadU32(data, at, little), ReadU32(data, at + 4, little));
        assert rows + ([row] + rest) == rows + [row] + rest;
      } else {
        assert [] + rest == rest;
      }
    }
  }

  /** The whole file, record by record; every record moves the offset by at least its header. */
  method ReadPcap(data: seq<Byte>) returns (result: Result)
    ensures result == Read(data)
  {
    hide Accepted, RowOf, ReadU32, Slice, Read, Rows;
    HeaderDecides(data);
    if |data| < 24 { return Err(Truncated); }
    var little := data[..4] == LITTLE;
    if !little && data[..4] != BIG { return Err(NotClassicPcap); }
    if ReadU32(data, 20, little) != 1 { return Err(NotEthernet); }
    var rows: seq<Row>, offset := [], 24;
    ghost var all := Rows(data, 24, little);
    assert rows + all == all;
    while offset + 16 <= |data|
      invariant offset >= 24 && all == rows + Rows(data, offset, little)
      decreases |data| - offset
    {
      OneRecord(data, offset, little, rows);
      var seconds, fraction := ReadU32(data, offset, little), ReadU32(data, offset + 4, little);
      var size := ReadU32(data, offset + 8, little);
      var row := ReadFrame(Slice(data, offset + 16, size), seconds, fraction);
      if row.Some? { rows := rows + [row.value]; }
      offset := offset + 16 + size;
    }
    OneRecord(data, offset, little, rows);
    result := Ok(rows);
  }
}

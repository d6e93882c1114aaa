/** A writer for classic PCAP files, IPv4 frames and DNS names, and the proof that the reader
    inverts it: section 3.1 of RFC 791, section 3.1 of RFC 1035. */
module PcapRoundTrip {
  import opened Bytes
  import opened Values
  import opened PcapReader

  type U32 = n: int | 0 <= n < 0x1_0000_0000

  function WriteU32(n: U32, little: bool): (b: seq<Byte>)
    ensures |b| == 4
  {
    var high, low := n / 0x1_0000, n % 0x1_0000;
    if little then [low % 256, low / 256, high % 256, high / 256] else WriteU16(high) + WriteU16(low)
  }

  lemma U32ReadsBack(data: seq<Byte>, at: nat, n: U32, little: bool)
    requires HasAt(data, at, WriteU32(n, little))
    ensures at + 4 <= |data| && ReadU32(data, at, little) == n
  {
    var w := WriteU32(n, little);
    assert data[at + 0] == w[0] && data[at + 1] == w[1] && data[at + 2] == w[2] && data[at + 3] == w[3];
  }

  // ----- files -----

  datatype Frame = Frame(seconds: U32, fraction: U32, bytes: seq<Byte>, original: U32)

  predicate Fits(f: Frame) { |f.bytes| < 0x1_0000_0000 }

  function WriteFrame(f: Frame, little: bool): (b: seq<Byte>)
    requires Fits(f)
    ensures |b| == 16 + |f.bytes|
  {
    WriteU32(f.seconds, little) + WriteU32(f.fraction, little) + WriteU32(|f.bytes|, little)
      + WriteU32(f.original, little) + f.bytes
  }

  function WriteFrames(frames: seq<Frame>, little: bool): seq<Byte>
    requires forall i :: 0 <= i < |frames| ==> Fits(frames[i])
  {
    if frames == [] then [] else WriteFrame(frames[0], little) + WriteFrames(frames[1..], little)
  }

  /** Magic number, 16 bytes the reader skips, Ethernet link type, the frames, and a remnant too short
      to be a record. */
  function WriteCapture(skipped: seq<Byte>, frames: seq<Frame>, remnant: seq<Byte>, little: bool): seq<Byte>
    requires |skipped| == 16 && forall i :: 0 <= i < |frames| ==> Fits(frames[i])
  {
    (if little then LITTLE else BIG) + skipped + WriteU32(1, little) + WriteFrames(frames, little) + remnant
  }

  /** The rows of the accepted frames, in order. */
  function AcceptedRows(frames: seq<Frame>): seq<Row> {
    if frames == [] then []
    else
      var f := frames[0];
      (if Accepted(f.bytes) then [RowOf(f.bytes, f.seconds, f.fraction)] else []) + AcceptedRows(frames[1..])
  }

  lemma FrameReadsBack(data: seq<Byte>, at: nat, f: Frame, little: bool)
    requires Fits(f) && HasAt(data, at, WriteFrame(f, little))
    ensures at + 16 + |f.bytes| <= |data|
    ensures ReadU32(data, at, little) == f.seconds && ReadU32(data, at + 4, little) == f.fraction
    ensures ReadU32(data, at + 8, little) == |f.bytes| && Slice(data, at + 16, |f.bytes|) == f.bytes
  {
    hide ReadU32, WriteU32, Slice;
    var a, b, c, d := WriteU32(f.seconds, little), WriteU32(f.fraction, little), WriteU32(|f.bytes|, little),
        WriteU32(f.original, little);
    HasAtConcat(data, at, a + b + c + d, f.bytes);
    HasAtConcat(data, at, a + b + c, d);
    HasAtConcat(data, at, a + b, c);
    HasAtConcat(data, at, a, b);
    U32ReadsBack(data, at, f.seconds, little);
    U32ReadsBack(data, at + 4, f.fraction, little);
    U32ReadsBack(data, at + 8, |f.bytes|, little);
    HasAtSlice(data, at + 16, f.bytes);
  }

  lemma {:induction false} FramesReadBack(data: seq<Byte>, at: nat, frames: seq<Frame>, little: bool)
    requires forall i :: 0 <= i < |frames| ==> Fits(frames[i])
    requires HasAt(data, at, WriteFrames(frames, little)) && |data| - at - |WriteFrames(frames, little)| < 16
    ensures Rows(data, at, little) == AcceptedRows(frames)
    decreases |frames|
  {
    hide Accepted, RowOf, WriteFrame, Slice, ReadU32;
    if frames != [] {
      var f, rest := frames[0], WriteFrames(frames[1..], little);
      HasAtConcat(data, at, WriteFrame(f, little), rest);
      FrameReadsBack(data, at, f, little);
      FramesReadBack(data, at + 16 + |f.bytes|, frames[1..], little);
    }
  }

  lemma HeaderReads(skipped: seq<Byte>, rest: seq<Byte>, little: bool)
    requires |skipped| == 16
    ensures var data := (if little then LITTLE else BIG) + skipped + WriteU32(1, little) + rest;
            Read(data) == Ok(Rows(data, 24, little))
  {
    hide Rows, ReadU32, WriteU32, HasAt;
    var magic, link := if little then LITTLE else BIG, WriteU32(1, little);
    var data := magic + skipped + link + rest;
    HasAtMiddle(magic + skipped, link, rest);
    U32ReadsBack(data, 20, 1, little);
    assert data[..4] == magic;
    assert LITTLE[0] != BIG[0];
  }

  /** Reading a written capture of either byte order gives exactly the rows of its accepted frames. */
  lemma ReadInvertsWrite(skipped: seq<Byte>, frames: seq<Frame>, remnant: seq<Byte>, little: bool)
    requires |skipped| == 16 && |remnant| < 16 && forall i :: 0 <= i < |frames| ==> Fits(frames[i])
    ensures Read(WriteCapture(skipped, frames, remnant, little)) == Ok(AcceptedRows(frames))
  {
    hide Rows, Read, WriteU32, WriteFrames, HasAt, AcceptedRows, Fits;
    var header, body := (if little then LITTLE else BIG) + skipped + WriteU32(1, little), WriteFrames(frames, little);
    HeaderReads(skipped, body + remnant, little);
    assert header + body + remnant == header + (body + remnant);
    HasAtMiddle(header, body, remnant);
    FramesReadBack(header + body + remnant, 24, frames, little);
  }

  // ----- IPv4 frames -----

  datatype Transport =
    | TcpSegment(ports: Ports, middle: seq<Byte>, last: seq<Byte>, options: seq<Byte>, payload: seq<Byte>)
    | UdpDatagram(ports: Ports, rest: seq<Byte>, payload: seq<Byte>)

  datatype Packet = Packet(macs: seq<Byte>, upper: nat, before: seq<Byte>, checksum: seq<Byte>, src: seq<Byte>,
                           dst: seq<Byte>, options: seq<Byte>, transport: Transport)

  predicate WellFormedTransport(t: Transport) {
    && t.ports.source < 0x1_0000 && t.ports.destination < 0x1_0000
    && match t
       case TcpSegment(_, middle, last, options, _) =>
         |middle| == 8 && |last| == 7 && |options| % 4 == 0 && |options| <= 40
       case UdpDatagram(_, rest, _) => |rest| == 4
  }

  predicate WellFormed(p: Packet) {
    && |p.macs| == 12 && p.upper < 16 && |p.before| == 8 && |p.checksum| == 2 && |p.src| == 4 && |p.dst| == 4
    && |p.options| % 4 == 0 && |p.options| <= 40 && WellFormedTransport(p.transport)
  }

  /** Ports, eight bytes of sequence numbers, the header length, seven more bytes, options, payload; or
      ports, length and checksum, payload. */
  function WriteTransport(t: Transport): seq<Byte>
    requires WellFormedTransport(t)
  {
    var ports := WriteU16(t.ports.source) + WriteU16(t.ports.destination);
    match t
    case TcpSegment(_, middle, last, options, payload) =>
      ports + middle + [(5 + |options| / 4) * 16] + last + options + payload
    case UdpDatagram(_, rest, payload) => ports + rest + payload
  }

  function WriteFront(p: Packet): (front: seq<Byte>)
    requires WellFormed(p)
    ensures |front| == 26
  {
    p.macs + [8, 0] + [p.upper * 16 + 5 + |p.options| / 4] + p.before + [if p.transport.TcpSegment? then 6 else 17]
    + p.checksum
  }

  function WritePacket(p: Packet): seq<Byte>
    requires WellFormed(p)
  {
    WriteFront(p) + (p.src + (p.dst + (p.options + WriteTransport(p.transport))))
  }

  lemma FrontLayout(p: Packet)
    requires WellFormed(p)
    ensures var front := WriteFront(p);
            && front[12] == 8 && front[13] == 0
            && front[14] == p.upper * 16 + 5 + |p.options| / 4
            && front[23] == (if p.transport.TcpSegment? then 6 else 17)
  {
  }

  lemma HeaderLength(upper: nat, options: nat)
    requires options % 4 == 0 && options <= 40
    ensures (upper * 16 + 5 + options / 4) % 16 * 4 == 20 + options
  {
  }

  lemma PartsAt(before: seq<Byte>, part: seq<Byte>, after: seq<Byte>)
    ensures var all := before + (part + after);
            && all[|before|..|before| + |part|] == part
            && all[|before| + |part|..] == after && all == (before + part) + after
  {
  }

  /** Where the fields of a written packet are. */
  lemma FrameLayout(p: Packet)
    requires WellFormed(p)
    ensures var frame := WritePacket(p);
            && |frame| >= 34 + |p.options| && frame[..26] == WriteFront(p)
            && frame[26..30] == p.src && frame[30..34] == p.dst
            && frame[34 + |p.options|..] == WriteTransport(p.transport)
  {
    hide WriteTransport, WriteFront;
    var front, transport := WriteFront(p), WriteTransport(p.transport);
    PartsAt(front, p.src, p.dst + (p.options + transport));
    PartsAt(front + p.src, p.dst, p.options + transport);
    PartsAt(front + p.src + p.dst, p.options, transport);
  }

  lemma TransportReadsBack(t: Transport)
    requires WellFormedTransport(t)
    ensures var proto, b := if t.TcpSegment? then Tcp else Udp, WriteTransport(t);
            PortsOf(proto, b) == Some(t.ports) && PayloadOf(proto, b) == t.payload
  {
    var b := WriteTransport(t);
    var ports := WriteU16(t.ports.source) + WriteU16(t.ports.destination);
    assert b[0] == ports[0] && b[1] == ports[1] && b[2] == ports[2] && b[3] == ports[3];
    match t
    case TcpSegment(_, _, _, options, payload) =>
      assert b[12] == (5 + |options| / 4) * 16;
      assert TcpHeaderLength(b) == 20 + |options|;
      assert b[20 + |options|..] == payload;
    case UdpDatagram(_, _, payload) =>
      assert b[8..] == payload;
  }

  /** An IPv4 packet with TCP or UDP in an Ethernet frame is accepted, and its row has its addresses,
      protocol, ports and payload length. */
  lemma PacketReadsBack(p: Packet, seconds: nat, fraction: nat)
    requires WellFormed(p)
    ensures Accepted(WritePacket(p))
    ensures var row, proto := RowOf(WritePacket(p), seconds, fraction), if p.transport.TcpSegment? then Tcp else Udp;
            row == Row(seconds, fraction, p.src, p.dst, proto, Some(p.transport.ports), |WritePacket(p)|,
                       |p.transport.payload|, QueryName(proto, Some(p.transport.ports), p.transport.payload))
  {
    hide PortsOf, PayloadOf, WriteTransport, WritePacket, WriteFront, QueryName;
    FrameLayout(p);
    FrontLayout(p);
    var frame := WritePacket(p);
    assert frame[12] == frame[..26][12] && frame[13] == frame[..26][13];
    assert frame[14] == frame[..26][14] && frame[23] == frame[..26][23];
    TransportReadsBack(p.transport);
    HeaderLength(p.upper, |p.options|);
  }

  // ----- names -----

  predicate WellFormedLabel(l: seq<Byte>) { 1 <= |l| <= 63 && forall i :: 0 <= i < |l| ==> Ascii(l[i]) }

  function WriteName(labels: seq<seq<Byte>>): seq<Byte>
    requires forall i :: 0 <= i < |labels| ==> WellFormedLabel(labels[i])
  {
    if labels == [] then [0]
    else
      assert WellFormedLabel(labels[0]);
      var size: Byte := |labels[0]|;
      [size] + labels[0] + WriteName(labels[1..])
  }

  function Text(b: seq<Byte>): string { seq(|b|, i requires 0 <= i < |b| => b[i] as char) }

  function Texts(labels: seq<seq<Byte>>): seq<string> {
    if labels == [] then [] else [Text(labels[0])] + Texts(labels[1..])
  }

  /** Labels separated by dots. */
  function Dotted(labels: seq<string>): string {
    if labels == [] then ""
    else if |labels| == 1 then labels[0]
    else Dotted(labels[..|labels| - 1]) + "." + labels[|labels| - 1]
  }

  lemma {:induction false} AsciiReadsBack(b: seq<Byte>)
    requires forall i :: 0 <= i < |b| ==> Ascii(b[i])
    ensures DecodeAscii(b) == Text(b)
  {
    if b != [] {
      var init := b[..|b| - 1];
      AsciiReadsBack(init);
      assert Text(b) == Text(init) + [b[|b| - 1] as char];
    }
  }

  lemma {:induction false} LabelsReadBack(payload: seq<Byte>, at: nat, labels: seq<seq<Byte>>)
    requires forall i :: 0 <= i < |labels| ==> WellFormedLabel(labels[i])
    requires HasAt(payload, at, WriteName(labels))
    ensures Labels(payload, at) == Some(Texts(labels))
    decreases |labels|
  {
    if labels == [] {
      HasAtByte(payload, at, 0);
    } else {
      var l, rest := labels[0], WriteName(labels[1..]);
      var size: Byte := |l|;
      HasAtConcat(payload, at, [size] + l, rest);
      HasAtConcat(payload, at, [size], l);
      HasAtByte(payload, at, size);
      HasAtSlice(payload, at + 1, l);
      assert payload[at + 1..at + 1 + |l|] == l;
      AsciiReadsBack(l);
      LabelsReadBack(payload, at + 1 + |l|, labels[1..]);
    }
  }

  lemma {:induction false} JoinedIsDotted(labels: seq<string>)
    requires forall i :: 0 <= i < |labels| ==> labels[i] != ""
    ensures JoinLabels(labels) == Dotted(labels) && (labels != [] ==> Dotted(labels) != "")
  {
    if labels != [] { JoinedIsDotted(labels[..|labels| - 1]); }
  }

  lemma {:induction false} TextsAreNonEmpty(labels: seq<seq<Byte>>)
    requires forall i :: 0 <= i < |labels| ==> WellFormedLabel(labels[i])
    ensures forall i :: 0 <= i < |Texts(labels)| ==> Texts(labels)[i] != ""
  {
    if labels != [] { TextsAreNonEmpty(labels[1..]); }
  }

  /** A written name, whatever precedes and follows it, decodes to its labels separated by dots. */
  lemma NameReadsBack(header: seq<Byte>, labels: seq<seq<Byte>>, rest: seq<Byte>)
    requires forall i :: 0 <= i < |labels| ==> WellFormedLabel(labels[i])
    ensures DecodedName(header + WriteName(labels) + rest, |header|) == Dotted(Texts(labels))
  {
    var payload := header + WriteName(labels) + rest;
    HasAtMiddle(header, WriteName(labels), rest);
    LabelsReadBack(payload, |header|, labels);
    TextsAreNonEmpty(labels);
    JoinedIsDotted(Texts(labels));
  }
}

/** What a row says of the frames the writers do not cover: their protocol, and the name a DNS packet asks for. */
module PcapLaws {
  import opened Bytes
  import opened Sequences
  import opened Values
  import opened PcapReader
  import opened PcapRoundTrip

  function IsAscii(): Byte -> bool { (b: Byte) => b < 128 }

  /** Decoding keeps the bytes below 128, in order, each as the character of that code. */
  lemma {:induction false} DecodingKeepsAscii(b: seq<Byte>)
    ensures DecodeAscii(b) == Text(Filter(b, IsAscii()))
    ensures (forall i :: 0 <= i < |b| ==> b[i] < 128) ==> Filter(b, IsAscii()) == b
  {
    if b != [] {
      var init, last := b[..|b| - 1], b[|b| - 1];
      DecodingKeepsAscii(init);
      assert b == init + [last];
      FilterSnoc(init, last, IsAscii());
      assert Text(Filter(init, IsAscii()) + [last]) == Text(Filter(init, IsAscii())) + [last as char];
    }
  }

  /** IP protocol 6 is TCP, 17 UDP and 1 ICMP; every other number reads as other. Only TCP and UDP have ports,
      and then only if their header is there. */
  lemma ProtocolsAre(frame: seq<Byte>, seconds: nat, fraction: nat)
    requires Accepted(frame)
    ensures var row, n, rest := RowOf(frame, seconds, fraction), frame[23], frame[14 + At(frame, 14) % 16 * 4..];
            && row.proto == (if n == 6 then Tcp else if n == 17 then Udp else if n == 1 then Icmp else Other)
            && (row.ports.Some? <==> (n == 6 && |rest| >= 20) || (n == 17 && |rest| >= 8))
            && (row.ports == None ==> row.payloadLength == 0 && row.queryName == None)
            && row.length == |frame| && row.seconds == seconds && row.fraction == fraction
            && row.src == frame[26..30] && row.dst == frame[30..34]
  {
    hide TcpHeaderLength, DecodedName;
  }

  /** What is accepted: an Ethernet frame of type 0x0800 whose IP header is complete and has at least 20 bytes. */
  lemma AcceptedAre(frame: seq<Byte>)
    ensures Accepted(frame) <==> |frame| >= 34 && frame[12] == 0x08 && frame[13] == 0x00
                                 && frame[14] % 16 >= 5 && 14 + 4 * (frame[14] % 16) <= |frame|
  {
  }

  /** A label that can be written: 1 to 63 bytes below 128. */
  lemma LabelsAre(l: seq<Byte>)
    ensures WellFormedLabel(l) <==> 1 <= |l| <= 63 && forall i :: 0 <= i < |l| ==> l[i] < 128
  {
  }

  /** A UDP packet from or to port 53 whose payload is a header of twelve bytes, a name, and anything more has
      that name in its row; a UDP packet of other ports has none. */
  lemma QueryNameReadsBack(p: Packet, seconds: nat, fraction: nat, header: seq<Byte>, labels: seq<seq<Byte>>,
                           rest: seq<Byte>)
    requires WellFormed(p) && p.transport.UdpDatagram? && |header| == 12
    requires forall i :: 0 <= i < |labels| ==> WellFormedLabel(labels[i])
    requires p.transport.payload == header + WriteName(labels) + rest
    ensures Accepted(WritePacket(p))
    ensures var ports := p.transport.ports;
            RowOf(WritePacket(p), seconds, fraction).queryName
            == if ports.source == 53 || ports.destination == 53 then Some(Dotted(Texts(labels))) else None
  {
    hide WritePacket, WellFormed, DecodedName, WriteName;
    PacketReadsBack(p, seconds, fraction);
    NameReadsBack(header, labels, rest);
  }

  /** What is no classic PCAP file of Ethernet frames: shorter than its header, with another magic number than
      D4 C3 B2 A1 or A1 B2 C3 D4, or with another link type than 1 in the byte order the magic number gives. */
  lemma UnreadableFilesFail(data: seq<Byte>)
    ensures |data| < 24 ==> Read(data) == Err(Truncated)
    ensures |data| >= 24 && data[..4] != [212, 195, 178, 161] && data[..4] != [161, 178, 195, 212] ==>
              Read(data) == Err(NotClassicPcap)
    ensures |data| >= 24 && data[..4] == [212, 195, 178, 161] ==>
              (data[20..24] == [1, 0, 0, 0] <==> Read(data).Ok?) && (Read(data).Ok? || Read(data) == Err(NotEthernet))
    ensures |data| >= 24 && data[..4] == [161, 178, 195, 212] ==>
              (data[20..24] == [0, 0, 0, 1] <==> Read(data).Ok?) && (Read(data).Ok? || Read(data) == Err(NotEthernet))
  {
    hide Rows, ReadU32;
    HeaderDecides(data);
    if |data| >= 24 {
      var link := data[20..24];
      assert link == [data[20], data[21], data[22], data[23]];
      LinkTypeIs(data, true);
      LinkTypeIs(data, false);
      assert LITTLE[0] != BIG[0];
    }
  }

  lemma LinkTypeIs(data: seq<Byte>, little: bool)
    requires |data| >= 24
    ensures ReadU32(data, 20, little) == 1
            <==> [data[20], data[21], data[22], data[23]] == if little then [1, 0, 0, 0] else [0, 0, 0, 1]
  {
  }

  /** A TCP header is as long as its length field says in words of four bytes, but counts as at least 20. */
  lemma TcpHeaderIs(transport: seq<Byte>)
    requires |transport| >= 20
    ensures TcpHeaderLength(transport) == if transport[12] < 80 then 20 else 4 * (transport[12] / 16)
    ensures |transport| < TcpHeaderLength(transport) ==> PayloadOf(Tcp, transport) == []
  {
  }

  /** A name with a compression mark or a label that runs past the end decodes to nothing; one that stops at the
      end of the payload without its zero byte counts as it is. */
  lemma BrokenNamesAreEmpty(header: seq<Byte>, labels: seq<seq<Byte>>, size: Byte, rest: seq<Byte>)
    requires forall i :: 0 <= i < |labels| ==> WellFormedLabel(labels[i])
    requires size >= 64 || (size > 0 && size > |rest|)
    ensures DecodedName(header + Prefixes(labels) + ([size] + rest), |header|) == ""
    ensures DecodedName(header + Prefixes(labels), |header|) == Dotted(Texts(labels))
  {
    var broken := header + Prefixes(labels) + ([size] + rest);
    HasAtMiddle(header, Prefixes(labels), [size] + rest);
    BrokenLabels(broken, |header|, labels, size);
    var cut := header + Prefixes(labels);
    assert cut == header + Prefixes(labels) + [];
    HasAtMiddle(header, Prefixes(labels), []);
    CutLabels(cut, |header|, labels);
    TextsAreNonEmpty(labels);
    JoinedIsDotted(Texts(labels));
  }

  /** The labels of a name without the zero byte at its end. */
  function Prefixes(labels: seq<seq<Byte>>): seq<Byte>
    requires forall i :: 0 <= i < |labels| ==> WellFormedLabel(labels[i])
  {
    if labels == [] then []
    else
      assert WellFormedLabel(labels[0]);
      var size: Byte := |labels[0]|;
      [size] + labels[0] + Prefixes(labels[1..])
  }

  lemma FirstLabel(payload: seq<Byte>, at: nat, labels: seq<seq<Byte>>)
    requires labels != [] && forall i :: 0 <= i < |labels| ==> WellFormedLabel(labels[i])
    requires HasAt(payload, at, Prefixes(labels))
    ensures var l, next := labels[0], at + 1 + |labels[0]|;
            && next <= |payload| && HasAt(payload, next, Prefixes(labels[1..]))
            && Labels(payload, at) == (if Labels(payload, next).None? then None
                                       else Some([Text(l)] + Labels(payload, next).value))
  {
    var l, rest := labels[0], Prefixes(labels[1..]);
    var size: Byte := |l|;
    HasAtConcat(payload, at, [size] + l, rest);
    HasAtConcat(payload, at, [size], l);
    HasAtByte(payload, at, size);
    HasAtSlice(payload, at + 1, l);
    assert payload[at + 1..at + 1 + |l|] == l;
    AsciiReadsBack(l);
  }

  lemma {:induction false} BrokenLabels(payload: seq<Byte>, at: nat, labels: seq<seq<Byte>>, size: Byte)
    requires forall i :: 0 <= i < |labels| ==> WellFormedLabel(labels[i])
    requires HasAt(payload, at, Prefixes(labels)) && at + |Prefixes(labels)| < |payload|
    requires payload[at + |Prefixes(labels)|] == size
    requires size >= 64 || (size > 0 && at + |Prefixes(labels)| + 1 + size > |payload|)
    ensures Labels(payload, at) == None
    decreases |labels|
  {
    if labels != [] {
      hide Labels;
      FirstLabel(payload, at, labels);
      BrokenLabels(payload, at + 1 + |labels[0]|, labels[1..], size);
    }
  }

  lemma {:induction false} CutLabels(payload: seq<Byte>, at: nat, labels: seq<seq<Byte>>)
    requires forall i :: 0 <= i < |labels| ==> WellFormedLabel(labels[i])
    requires HasAt(payload, at, Prefixes(labels)) && at + |Prefixes(labels)| == |payload|
    ensures Labels(payload, at) == Some(Texts(labels))
    decreases |labels|
  {
    if labels != [] {
      hide Labels;
      FirstLabel(payload, at, labels);
      CutLabels(payload, at + 1 + |labels[0]|, labels[1..]);
    }
  }
}

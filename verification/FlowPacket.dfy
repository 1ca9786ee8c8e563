/** Packet parsing and protocol accounting (src/flow_packet.c).

    The parser is compared with an independent description of an Ethernet/IPv4 frame:
    Serialise lays a frame out byte by byte, and ParsesExactlyFrames shows that the parser
    accepts a segment exactly when it is such a layout, returning that frame's 5-tuple.
 */
module FlowPacket {
  import opened FlowTypes

  datatype ParseResult = ParseOk(key: Key) | ParseUnsupported | ParseTruncated

  const ETHER_HDR_LEN := 14
  const IPV4_MIN_LEN := 20

  function Read16(data: seq<u8>, at: nat): u16
    requires at + 2 <= |data|
  {
    var high: int := data[at];
    high * 0x100 + data[at + 1]
  }

  function Read32(data: seq<u8>, at: nat): u32
    requires at + 4 <= |data|
  {
    var high: int := Read16(data, at);
    high * 0x1_0000 + Read16(data, at + 2)
  }

  /** flow_packet_extract_key: data is the mapped segment, dataLen its valid length. */
  function ExtractKey(data: seq<u8>, dataLen: nat): ParseResult
    requires dataLen <= |data|
  {
    if dataLen < ETHER_HDR_LEN then ParseTruncated
    else if Read16(data, 12) != 0x0800 then ParseUnsupported
    else if dataLen < ETHER_HDR_LEN + IPV4_MIN_LEN then ParseTruncated
    else
      var l3Len := (data[14] % 16) * 4;
      if l3Len < IPV4_MIN_LEN then ParseTruncated
      else if Read16(data, 20) % 0x4000 != 0 then ParseUnsupported  // MF flag or fragment offset
      else if data[23] != PROTO_TCP && data[23] != PROTO_UDP then ParseUnsupported
      else if dataLen < ETHER_HDR_LEN + l3Len + 4 then ParseTruncated
      else
        var ports := ETHER_HDR_LEN + l3Len;
        ParseOk(Key(Read32(data, 26), Read32(data, 30), Read16(data, ports), Read16(data, ports + 2), data[23]))
  }

  /** flow_packet_extract_cold: the worker's fallback; None when the parse fails. */
  function ExtractCold(data: seq<u8>, dataLen: nat): (cold: Option<Cold>)
    requires dataLen <= |data|
    ensures cold.Some? <==> ExtractKey(data, dataLen).ParseOk?
    ensures cold.Some? ==> KeyFromCold(cold.value) == ExtractKey(data, dataLen).key
  {
    match ExtractKey(data, dataLen)
    case ParseOk(key) => Some(ColdFromKey(key, 0))
    case _ => None
  }

  /** Reads stay inside dataLen: bytes beyond it cannot influence the outcome. */
  lemma ReadsStayInside(data: seq<u8>, other: seq<u8>, dataLen: nat)
    requires dataLen <= |data| && dataLen <= |other|
    requires data[..dataLen] == other[..dataLen]
    ensures ExtractKey(data, dataLen) == ExtractKey(other, dataLen)
  {
    assert forall i :: 0 <= i < dataLen ==> data[i] == data[..dataLen][i] == other[..dataLen][i] == other[i];
  }

  /** An unfragmented Ethernet/IPv4 frame carrying TCP or UDP (section 3.1 of RFC 791). */
  datatype Frame = Frame(
    macs: seq<u8>,          // destination and source MAC address
    version: nat,           // 4-bit version field; the parser ignores it
    ihl: nat,               // header length in 32-bit words
    tos: u8, totalLength: u16, ident: u16,
    topFlags: nat,          // reserved bit and DF
    ttl: u8, checksum: u16,
    options: seq<u8>,
    key: Key,
    rest: seq<u8>)          // transport bytes after the two ports

  predicate WellFormed(f: Frame) {
    && |f.macs| == 12
    && f.version < 16
    && 5 <= f.ihl <= 15
    && f.topFlags < 4
    && |f.options| == (f.ihl - 5) * 4
    && (f.key.proto == PROTO_TCP || f.key.proto == PROTO_UDP)
  }

  function Write16(v: u16): seq<u8> {
    [v / 0x100, v % 0x100]
  }

  function Write32(v: u32): seq<u8> {
    [v / 0x100_0000, v / 0x1_0000 % 0x100, v / 0x100 % 0x100, v % 0x100]
  }

  function FixedHeader(f: Frame): (bytes: seq<u8>)
    requires WellFormed(f)
    ensures |bytes| == 22
  {
    Write16(0x0800) + [f.version * 16 + f.ihl, f.tos] + Write16(f.totalLength) + Write16(f.ident) +
    Write16(f.topFlags * 0x4000) + [f.ttl, f.key.proto] + Write16(f.checksum) +
    Write32(f.key.ipSrc) + Write32(f.key.ipDst)
  }

  function Ports(key: Key): seq<u8> {
    Write16(key.portSrc) + Write16(key.portDst)
  }

  function Serialise(f: Frame): seq<u8>
    requires WellFormed(f)
  {
    f.macs + FixedHeader(f) + f.options + Ports(f.key) + f.rest
  }

  lemma HeaderSlices(f: Frame)
    requires WellFormed(f)
    ensures FixedHeader(f)[..2] == [8, 0] && FixedHeader(f)[2] == f.version * 16 + f.ihl
    ensures FixedHeader(f)[8..10] == Write16(f.topFlags * 0x4000) && FixedHeader(f)[11] == f.key.proto
    ensures FixedHeader(f)[14..18] == Write32(f.key.ipSrc) && FixedHeader(f)[18..22] == Write32(f.key.ipDst)
  {
  }

  lemma SerialisedSlices(f: Frame)
    requires WellFormed(f)
    ensures |Serialise(f)| == 34 + |f.options| + 4 + |f.rest|
    ensures Serialise(f)[12..34] == FixedHeader(f)
    ensures Serialise(f)[34 + |f.options|..34 + |f.options| + 4] == Ports(f.key)
  {
  }

  lemma SubSlice(data: seq<u8>, lo: nat, hi: nat, from: nat, to: nat)
    requires lo <= hi <= |data| && from <= to <= hi - lo
    ensures data[lo..hi][from..to] == data[lo + from..lo + to]
  {
    var mid := data[lo..hi];
    assert forall k | 0 <= k < to - from :: mid[from..to][k] == mid[from + k] == data[lo + (from + k)];
  }

  lemma Word16RoundTrip(v: u16, data: seq<u8>, at: nat)
    requires at + 2 <= |data|
    requires data[at..at + 2] == Write16(v)
    ensures Read16(data, at) == v
  {
    assert data[at] == data[at..at + 2][0] && data[at + 1] == data[at..at + 2][1];
  }

  lemma HighPart(v: int, q: int, r: int)
    requires v == q * 0x1_0000 + r && 0 <= r < 0x1_0000
    ensures v / 0x1_0000 == q
  {
  }

  lemma HighByte(v: int, q: int, r: int)
    requires v == q * 0x100_0000 + r && 0 <= r < 0x100_0000
    ensures v / 0x100_0000 == q
  {
  }

  lemma FourDigits(v: u32)
    ensures (v / 0x100_0000 * 0x100 + v / 0x1_0000 % 0x100) * 0x1_0000 + (v / 0x100 % 0x100 * 0x100 + v % 0x100) == v
  {
    var q1: int, d: int := v / 0x100, v % 0x100;
    var q2: int, c: int := q1 / 0x100, q1 % 0x100;
    var a: int, b: int := q2 / 0x100, q2 % 0x100;
    HighPart(v, q2, c * 0x100 + d);
    HighByte(v, a, (b * 0x100 + c) * 0x100 + d);
  }

  lemma Word32RoundTrip(v: u32, data: seq<u8>, at: nat)
    requires at + 4 <= |data|
    requires data[at..at + 4] == Write32(v)
    ensures Read32(data, at) == v
  {
    var s := data[at..at + 4];
    assert data[at] == s[0] && data[at + 1] == s[1] && data[at + 2] == s[2] && data[at + 3] == s[3];
    FourDigits(v);
  }

  lemma HeaderFieldsRead(f: Frame, data: seq<u8>)
    requires WellFormed(f) && data == Serialise(f)
    ensures |data| >= 34
    ensures Read16(data, 12) == 0x0800 && data[14] % 16 == f.ihl
    ensures Read16(data, 20) % 0x4000 == 0 && data[23] == f.key.proto
  {
    SerialisedSlices(f);
    HeaderSlices(f);
    SubSlice(data, 12, 34, 0, 2);
    Word16RoundTrip(0x0800, data, 12);
    assert data[14] == data[12..34][2] && data[23] == data[12..34][11];
    SubSlice(data, 12, 34, 8, 10);
    Word16RoundTrip(f.topFlags * 0x4000, data, 20);
  }

  lemma AddressesRead(f: Frame, data: seq<u8>)
    requires WellFormed(f) && data == Serialise(f)
    ensures |data| >= 34
    ensures Read32(data, 26) == f.key.ipSrc && Read32(data, 30) == f.key.ipDst
  {
    SerialisedSlices(f);
    HeaderSlices(f);
    SubSlice(data, 12, 34, 14, 18);
    Word32RoundTrip(f.key.ipSrc, data, 26);
    SubSlice(data, 12, 34, 18, 22);
    Word32RoundTrip(f.key.ipDst, data, 30);
  }

  /** Parsing a serialised frame returns its 5-tuple, for every header length, option
      string and payload. */
  lemma SerialiseThenParse(f: Frame)
    requires WellFormed(f)
    ensures ExtractKey(Serialise(f), |Serialise(f)|) == ParseOk(f.key)
  {
    var data, p := Serialise(f), 34 + |f.options|;
    HeaderFieldsRead(f, data);
    AddressesRead(f, data);
    SerialisedSlices(f);
    SubSlice(data, p, p + 4, 0, 2);
    assert Ports(f.key)[..2] == Write16(f.key.portSrc) && Ports(f.key)[2..4] == Write16(f.key.portDst);
    Word16RoundTrip(f.key.portSrc, data, p);
    SubSlice(data, p, p + 4, 2, 4);
    Word16RoundTrip(f.key.portDst, data, p + 2);
    assert p == ETHER_HDR_LEN + f.ihl * 4;
  }

  /** The frame a successfully parsed segment spells. */
  function Dissect(data: seq<u8>): Frame
    requires ExtractKey(data, |data|).ParseOk?
  {
    var ihl := data[14] % 16;
    var ports := 14 + ihl * 4;
    Frame(data[..12], data[14] / 16, ihl, data[15], Read16(data, 16), Read16(data, 18), Read16(data, 20) / 0x4000,
          data[22], Read16(data, 24), data[34..ports], ExtractKey(data, |data|).key, data[ports + 4..])
  }

  lemma Word16Split(data: seq<u8>, at: nat)
    requires at + 2 <= |data|
    ensures Write16(Read16(data, at)) == data[at..at + 2]
  {
  }

  lemma Word32Split(data: seq<u8>, at: nat)
    requires at + 4 <= |data|
    ensures Write32(Read32(data, at)) == data[at..at + 4]
  {
    var v: int := Read32(data, at);
    var a: int, b: int, c: int, d: int := data[at], data[at + 1], data[at + 2], data[at + 3];
    assert v == ((a * 0x100 + b) * 0x100 + c) * 0x100 + d;
    assert v % 0x100 == d && v / 0x100 == (a * 0x100 + b) * 0x100 + c;
    assert v / 0x1_0000 == a * 0x100 + b && v / 0x100_0000 == a;
  }

  lemma HeaderBytes(data: seq<u8>)
    requires ExtractKey(data, |data|).ParseOk?
    ensures WellFormed(Dissect(data))
    ensures var f := Dissect(data);
      && Write16(0x0800) == data[12..14] && f.version * 16 + f.ihl == data[14] && f.key.proto == data[23]
      && Write16(f.totalLength) == data[16..18] && Write16(f.ident) == data[18..20]
      && Write16(f.topFlags * 0x4000) == data[20..22] && Write16(f.checksum) == data[24..26]
  {
    Word16Split(data, 12);
    Word16Split(data, 16);
    Word16Split(data, 18);
    Word16Split(data, 20);
    Word16Split(data, 24);
    assert Dissect(data).topFlags * 0x4000 == Read16(data, 20);
  }

  lemma HeaderSplit(data: seq<u8>)
    requires ExtractKey(data, |data|).ParseOk?
    ensures WellFormed(Dissect(data))
    ensures FixedHeader(Dissect(data)) == data[12..34]
  {
    HeaderBytes(data);
    Word32Split(data, 26);
    Word32Split(data, 30);
    assert FixedHeader(Dissect(data)) ==
      data[12..14] + [data[14], data[15]] + data[16..18] + data[18..20] + data[20..22] +
      [data[22], data[23]] + data[24..26] + data[26..30] + data[30..34];
  }

  /** Whatever the parser accepts is the serialisation of a well-formed frame with that key. */
  lemma ParseThenSerialise(data: seq<u8>)
    requires ExtractKey(data, |data|).ParseOk?
    ensures WellFormed(Dissect(data))
    ensures Serialise(Dissect(data)) == data
  {
    HeaderSplit(data);
    var f := Dissect(data);
    var ports := 14 + f.ihl * 4;
    Word16Split(data, ports);
    Word16Split(data, ports + 2);
    assert Ports(f.key) == data[ports..ports + 2] + data[ports + 2..ports + 4];
    assert data == data[..12] + data[12..34] + data[34..ports] + data[ports..ports + 4] + data[ports + 4..];
  }

  /** The number four bytes spell in network order. */
  function Spelled(a: int, b: int, c: int, d: int): int {
    a * 0x100_0000 + b * 0x1_0000 + c * 0x100 + d
  }

  /** Where the 5-tuple of an unfragmented packet without IP options is, byte by byte
      (section 3.1 of RFC 791 and the port fields of RFC 768 and RFC 793). */
  lemma FieldsAtTheirOffsets(data: seq<u8>)
    requires |data| >= 38 && data[12] == 0x08 && data[13] == 0x00 && data[14] == 0x45
    requires (data[20] == 0 || data[20] == 0x40) && data[21] == 0 && (data[23] == PROTO_TCP || data[23] == PROTO_UDP)
    ensures var result := ExtractKey(data, |data|);
      && result.ParseOk? && result.key.proto == data[23]
      && result.key.ipSrc == Spelled(data[26], data[27], data[28], data[29])
      && result.key.ipDst == Spelled(data[30], data[31], data[32], data[33])
      && result.key.portSrc == Spelled(0, 0, data[34], data[35])
      && result.key.portDst == Spelled(0, 0, data[36], data[37])
  {
    assert Read16(data, 12) == 0x0800;
  }

  /** The parser accepts exactly the well-formed frames, and returns exactly their key. */
  lemma ParsesExactlyFrames(data: seq<u8>, dataLen: nat, key: Key)
    requires dataLen <= |data|
    ensures ExtractKey(data, dataLen) == ParseOk(key)
       <==> exists f :: WellFormed(f) && Serialise(f) == data[..dataLen] && f.key == key
  {
    var segment := data[..dataLen];
    ReadsStayInside(data, segment, dataLen);
    if ExtractKey(data, dataLen) == ParseOk(key) {
      ParseThenSerialise(segment);
      assert WellFormed(Dissect(segment)) && Dissect(segment).key == key;
    }
    forall f | WellFormed(f) && Serialise(f) == segment && f.key == key
      ensures ExtractKey(data, dataLen) == ParseOk(key)
    {
      SerialiseThenParse(f);
    }
  }

  /** The per-protocol packet counters of struct lcore_stats. */
  datatype ProtocolCounters = ProtocolCounters(http: nat, https: nat, dns: nat, tcp: nat, udp: nat, other: nat) {
    function Total(): nat { http + https + dns + tcp + udp + other }
  }

  /** flow_stats_account_protocol: every classified packet lands in exactly one counter. */
  function AccountProtocol(c: ProtocolCounters, cold: Cold): (c': ProtocolCounters)
    ensures c'.Total() == c.Total() + 1
    ensures c'.http > c.http <==> cold.protocol == PROTO_TCP && cold.dstPort == 80
    ensures c'.https > c.https <==> cold.protocol == PROTO_TCP && cold.dstPort == 443
    ensures c'.dns > c.dns <==> cold.protocol == PROTO_UDP && cold.dstPort == 53
    ensures c'.tcp + c'.http + c'.https > c.tcp + c.http + c.https <==> cold.protocol == PROTO_TCP
    ensures c'.other > c.other <==> cold.protocol != PROTO_TCP && cold.protocol != PROTO_UDP
  {
    if cold.protocol == PROTO_TCP then
      if cold.dstPort == 80 then c.(http := c.http + 1)
      else if cold.dstPort == 443 then c.(https := c.https + 1)
      else c.(tcp := c.tcp + 1)
    else if cold.protocol == PROTO_UDP then
      if cold.dstPort == 53 then c.(dns := c.dns + 1)
      else c.(udp := c.udp + 1)
    else c.(other := c.other + 1)
  }
}

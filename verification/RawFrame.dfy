/** Ethernet/IPv4/UDP frames: the builder, its header checksum, and the parser that slices them. */
module RawFrame {
  import opened Common

  const ETH_HEADER_LEN := 14
  const IP_HEADER_LEN := 20
  const UDP_HEADER_LEN := 8
  const MAX_PAYLOAD := 65507
  const UDP_PROTOCOL: byte := 17
  const ETHERTYPE_IPV4: u16 := 0x0800

  type MacBytes = s: Bytes | |s| == 6 witness [0, 0, 0, 0, 0, 0]

  function WordBytes(w: u16): (b: Bytes)
    ensures |b| == 2 && Word(b[0], b[1]) == w
  {
    [w / 256, w % 256]
  }

  function IpBytes(ip: Ip): (b: Bytes)
    ensures |b| == 4
  {
    WordBytes(ip / U16_SIZE) + WordBytes(ip % U16_SIZE)
  }

  function IpAt(b: Bytes, at: nat): Ip
    requires at + 4 <= |b|
  {
    WordAt(b, at) * U16_SIZE + WordAt(b, at + 2)
  }

  function WordAt(b: Bytes, at: nat): u16
    requires at + 2 <= |b|
  {
    Word(b[at], b[at + 1])
  }

  // ----- One's-complement sums (section 1 of RFC 1071) -----

  function SumWords(b: Bytes): nat {
    if |b| < 2 then 0 else Word(b[0], b[1]) + SumWords(b[2..])
  }

  /** Add the carries back in until sixteen bits are left. */
  function Fold(n: nat): u16 {
    if n < U16_SIZE then n else Fold(n / U16_SIZE + n % U16_SIZE)
  }

  function Complement(w: u16): u16 {
    0xFFFF - w
  }

  function OnesSum(b: Bytes): u16 {
    Fold(SumWords(b))
  }

  lemma {:induction false} SumOfParts(a: Bytes, b: Bytes)
    requires |a| % 2 == 0
    ensures SumWords(a + b) == SumWords(a) + SumWords(b)
    decreases |a|
  {
    if a == [] {
      assert a + b == b;
    } else {
      SumOfParts(a[2..], b);
      assert (a + b)[2..] == a[2..] + b;
    }
  }

  /** Folding keeps the value modulo 0xFFFF, and keeps it from becoming zero. */
  lemma {:induction false} FoldKeepsResidue(n: nat)
    ensures Fold(n) % 0xFFFF == n % 0xFFFF
    ensures n > 0 ==> Fold(n) > 0
  {
    if n >= U16_SIZE {
      var q, r := n / U16_SIZE, n % U16_SIZE;
      FoldKeepsResidue(q + r);
      assert n == q * 0xFFFF + (q + r);
      SameResidue(n, q + r, q);
    }
  }

  lemma SameResidue(a: int, b: int, q: int)
    requires a == q * 0xFFFF + b
    ensures a % 0xFFFF == b % 0xFFFF
  {
  }

  lemma ComplementResidue(sum: int, folded: int)
    requires folded % 0xFFFF == sum % 0xFFFF
    ensures (sum + (0xFFFF - folded)) % 0xFFFF == 0
  {
  }

  /** A sum completed by its complement folds to all ones. */
  lemma ComplementCompletes(sum: nat)
    requires sum > 0
    ensures Fold(sum + Complement(Fold(sum))) == 0xFFFF
  {
    FoldKeepsResidue(sum);
    ComplementResidue(sum, Fold(sum));
    FoldKeepsResidue(sum + Complement(Fold(sum)));
  }

  // ----- The frame -----

  datatype Fields = Fields(
    destMac: MacBytes,
    srcMac: MacBytes,
    srcIp: Ip,
    destIp: Ip,
    srcPort: u16,
    destPort: u16,
    payload: Bytes)

  function EthHeader(f: Fields): (b: Bytes)
    ensures |b| == ETH_HEADER_LEN
  {
    f.destMac + f.srcMac + WordBytes(ETHERTYPE_IPV4)
  }

  /** The header up to its checksum: version and length, total length, TTL 64, UDP. */
  function IpHeaderStart(totalLen: u16): (b: Bytes)
    ensures |b| == 10
  {
    [0x45, 0] + WordBytes(totalLen) + [0, 0, 0, 0, 64, UDP_PROTOCOL]
  }

  function IpHeader(f: Fields, totalLen: u16, checksum: u16): (b: Bytes)
    ensures |b| == IP_HEADER_LEN
  {
    IpHeaderStart(totalLen) + WordBytes(checksum) + (IpBytes(f.srcIp) + IpBytes(f.destIp))
  }

  function UdpHeader(f: Fields, udpLen: u16): (b: Bytes)
    ensures |b| == UDP_HEADER_LEN
  {
    WordBytes(f.srcPort) + WordBytes(f.destPort) + WordBytes(udpLen) + [0, 0]
  }

  function TotalLen(f: Fields): u16 {
    (IP_HEADER_LEN + UDP_HEADER_LEN + |f.payload|) % U16_SIZE
  }

  function UdpLen(f: Fields): u16 {
    (UDP_HEADER_LEN + |f.payload|) % U16_SIZE
  }

  function HeaderChecksum(f: Fields): u16 {
    Complement(OnesSum(IpHeader(f, TotalLen(f), 0)))
  }

  function Frame(f: Fields): Bytes {
    EthHeader(f) + IpHeader(f, TotalLen(f), HeaderChecksum(f)) + (UdpHeader(f, UdpLen(f)) + f.payload)
  }

  lemma SumAroundWord(start: Bytes, word: Bytes, end: Bytes)
    requires |start| % 2 == 0 && |word| == 2
    ensures SumWords(start + word + end) == SumWords(start) + Word(word[0], word[1]) + SumWords(end)
  {
    SumOfParts(start + word, end);
    SumOfParts(start, word);
    assert SumWords(word) == Word(word[0], word[1]) + SumWords(word[2..]);
  }

  lemma CompletedBy(header: Bytes, sum: nat)
    requires sum > 0 && SumWords(header) == sum + Complement(Fold(sum))
    ensures OnesSum(header) == 0xFFFF
  {
    ComplementCompletes(sum);
  }

  /** A header whose checksum field completes the sum of its other words adds up to 0xFFFF. */
  lemma CompletedSum(start: Bytes, end: Bytes)
    requires |start| % 2 == 0 && SumWords(start) > 0
    ensures OnesSum(start + WordBytes(Complement(OnesSum(start + [0, 0] + end))) + end) == 0xFFFF
  {
    var clear := start + [0, 0] + end;
    var word := WordBytes(Complement(OnesSum(clear)));
    SumAroundWord(start, [0, 0], end);
    SumAroundWord(start, word, end);
    CompletedBy(start + word + end, SumWords(clear));
  }

  lemma ClearHeader(f: Fields, totalLen: u16)
    ensures IpHeaderStart(totalLen) + [0, 0] + (IpBytes(f.srcIp) + IpBytes(f.destIp)) == IpHeader(f, totalLen, 0)
  {
  }

  /** Every built header's ten words add up to 0xFFFF (section 3.1 of RFC 791). */
  lemma HeaderSumsToAllOnes(f: Fields)
    ensures OnesSum(IpHeader(f, TotalLen(f), HeaderChecksum(f))) == 0xFFFF
  {
    ClearHeader(f, TotalLen(f));
    StartIsPositive(TotalLen(f));
    CompletedSum(IpHeaderStart(TotalLen(f)), IpBytes(f.srcIp) + IpBytes(f.destIp));
  }

  lemma StartIsPositive(totalLen: u16)
    ensures SumWords(IpHeaderStart(totalLen)) > 0
  {
  }

  /** Four bytes in network order. */
  function BigEndian(a: byte, b: byte, c: byte, d: byte): nat {
    a * 0x100_0000 + b * 0x1_0000 + c * 0x100 + d
  }

  lemma IpBytesAreBigEndian(ip: Ip)
    ensures var b := IpBytes(ip); BigEndian(b[0], b[1], b[2], b[3]) == ip
  {
    assert ip / U16_SIZE < U16_SIZE;
  }

  ghost predicate LinkLaidOut(f: Fields, b: Bytes) {
    |b| >= 14 && b[..6] == f.destMac && b[6..12] == f.srcMac && b[12] == 8 && b[13] == 0
  }

  /** An IPv4 header without options (section 3.1 of RFC 791). */
  ghost predicate IpLaidOut(f: Fields, totalLen: u16, b: Bytes) {
    && |b| == 20
    && b[0] == 0x45 && b[1] == 0 && Word(b[2], b[3]) == totalLen
    && b[4] == 0 && b[5] == 0 && b[6] == 0 && b[7] == 0 && b[8] == 64 && b[9] == 17
    && BigEndian(b[12], b[13], b[14], b[15]) == f.srcIp && BigEndian(b[16], b[17], b[18], b[19]) == f.destIp
  }

  /** A UDP header (RFC 768). */
  ghost predicate UdpLaidOut(f: Fields, udpLen: u16, b: Bytes) {
    && |b| == 8
    && Word(b[0], b[1]) == f.srcPort && Word(b[2], b[3]) == f.destPort
    && Word(b[4], b[5]) == udpLen && b[6] == 0 && b[7] == 0
  }

  lemma EthHeaderLayout(f: Fields)
    ensures LinkLaidOut(f, EthHeader(f))
  {
  }

  lemma IpHeaderLayout(f: Fields, totalLen: u16, checksum: u16)
    ensures IpLaidOut(f, totalLen, IpHeader(f, totalLen, checksum))
  {
    var b := IpHeader(f, totalLen, checksum);
    assert b[..10] == IpHeaderStart(totalLen);
    assert b[12..16] == IpBytes(f.srcIp) && b[16..20] == IpBytes(f.destIp);
    IpBytesAreBigEndian(f.srcIp);
    IpBytesAreBigEndian(f.destIp);
  }

  lemma UdpHeaderLayout(f: Fields, udpLen: u16)
    ensures UdpLaidOut(f, udpLen, UdpHeader(f, udpLen))
  {
  }

  lemma TenWords(h: Bytes)
    requires |h| == 20
    ensures SumWords(h)
         == Word(h[0], h[1]) + Word(h[2], h[3]) + Word(h[4], h[5]) + Word(h[6], h[7]) + Word(h[8], h[9])
            + Word(h[10], h[11]) + Word(h[12], h[13]) + Word(h[14], h[15]) + Word(h[16], h[17]) + Word(h[18], h[19])
  {
    LastWords(h, 10);
    LastWords(h, 0);
    assert h[0..] == h;
  }

  lemma LastWords(h: Bytes, i: nat)
    requires i + 10 <= |h|
    ensures SumWords(h[i..])
         == Word(h[i], h[i + 1]) + Word(h[i + 2], h[i + 3]) + Word(h[i + 4], h[i + 5]) + Word(h[i + 6], h[i + 7])
            + Word(h[i + 8], h[i + 9]) + SumWords(h[i + 10..])
  {
    SumFrom(h, i);
    SumFrom(h, i + 2);
    SumFrom(h, i + 4);
    SumFrom(h, i + 6);
    SumFrom(h, i + 8);
  }

  /** The one's-complement check, written out: the ten header words add up to a multiple of 0xFFFF. */
  lemma HeaderWordsAddUp(f: Fields)
    ensures var h := IpHeader(f, TotalLen(f), HeaderChecksum(f));
      (Word(h[0], h[1]) + Word(h[2], h[3]) + Word(h[4], h[5]) + Word(h[6], h[7]) + Word(h[8], h[9])
       + Word(h[10], h[11]) + Word(h[12], h[13]) + Word(h[14], h[15]) + Word(h[16], h[17]) + Word(h[18], h[19]))
      % 0xFFFF == 0
  {
    var h := IpHeader(f, TotalLen(f), HeaderChecksum(f));
    HeaderSumsToAllOnes(f);
    FoldKeepsResidue(SumWords(h));
    TenWords(h);
  }

  /** Where everything is in a frame, by its layers. */
  ghost predicate FrameLaidOut(f: Fields, b: Bytes)
    requires |f.payload| <= 65507
  {
    && |b| == 42 + |f.payload| && b[42..] == f.payload
    && LinkLaidOut(f, b)
    && IpLaidOut(f, 28 + |f.payload|, b[14..34]) && OnesSum(b[14..34]) == 0xFFFF
    && UdpLaidOut(f, 8 + |f.payload|, b[34..42])
  }

  lemma Layers(f: Fields, eth: Bytes, ip: Bytes, udp: Bytes)
    requires |eth| == 14 && LinkLaidOut(f, eth) && |f.payload| <= 65507
    requires IpLaidOut(f, 28 + |f.payload|, ip) && OnesSum(ip) == 0xFFFF && UdpLaidOut(f, 8 + |f.payload|, udp)
    ensures FrameLaidOut(f, eth + ip + (udp + f.payload))
  {
    LayersAt(eth, ip, udp, f.payload);
  }

  lemma LayersAt(eth: Bytes, ip: Bytes, udp: Bytes, payload: Bytes)
    requires |eth| == 14 && |ip| == 20 && |udp| == 8
    ensures var b := eth + ip + (udp + payload);
      && |b| == 42 + |payload| && b[42..] == payload && b[..6] == eth[..6] && b[6..12] == eth[6..12]
      && b[12] == eth[12] && b[13] == eth[13] && b[14..34] == ip && b[34..42] == udp
  {
  }

  lemma LengthsFit(f: Fields)
    requires |f.payload| <= 65507
    ensures TotalLen(f) == 28 + |f.payload| && UdpLen(f) == 8 + |f.payload|
  {
  }

  lemma BuiltHeadersLayout(f: Fields)
    requires |f.payload| <= 65507
    ensures var ip, udp := IpHeader(f, TotalLen(f), HeaderChecksum(f)), UdpHeader(f, UdpLen(f));
      IpLaidOut(f, 28 + |f.payload|, ip) && OnesSum(ip) == 0xFFFF && UdpLaidOut(f, 8 + |f.payload|, udp)
  {
    LengthsFit(f);
    IpHeaderLayout(f, TotalLen(f), HeaderChecksum(f));
    UdpHeaderLayout(f, UdpLen(f));
    HeaderSumsToAllOnes(f);
  }

  /** A built frame is laid out so, byte by byte, and its header words add up to 0xFFFF. */
  lemma FrameLayout(f: Fields)
    requires |f.payload| <= 65507
    ensures FrameLaidOut(f, Frame(f))
  {
    EthHeaderLayout(f);
    BuiltHeadersLayout(f);
    Layers(f, EthHeader(f), IpHeader(f, TotalLen(f), HeaderChecksum(f)), UdpHeader(f, UdpLen(f)));
  }

  // ----- The parser -----

  /** The IPv4 payload: what total and header length say, cut to the bytes there are. */
  function IpPayload(ip: Bytes): Bytes
    requires |ip| >= IP_HEADER_LEN
  {
    var headerLen := ip[0] % 16 * 4;
    var start := Max(headerLen, IP_HEADER_LEN);
    var len := if WordAt(ip, 2) >= headerLen then WordAt(ip, 2) - headerLen else 0;
    var end := Min(start + len, |ip|);
    if |ip| <= start then [] else ip[start..end]
  }

  function SliceIp(destMac: MacBytes, srcMac: MacBytes, ip: Bytes): Option<Fields> {
    if |ip| < IP_HEADER_LEN || ip[9] != UDP_PROTOCOL then None
    else
      var udp := IpPayload(ip);
      if |udp| < UDP_HEADER_LEN then None
      else Some(Fields(destMac, srcMac, IpAt(ip, 12), IpAt(ip, 16),
                       WordAt(udp, 0), WordAt(udp, 2), udp[UDP_HEADER_LEN..]))
  }

  /** Slice a UDP-over-IPv4 frame into its fields. */
  function Slice(buf: Bytes): Option<Fields> {
    if |buf| < ETH_HEADER_LEN || WordAt(buf, 12) != ETHERTYPE_IPV4 then None
    else SliceIp(buf[..6], buf[6..12], buf[ETH_HEADER_LEN..])
  }

  /** The DHCP bytes of a frame sent to the expected port, before they are decoded. */
  function DhcpPayload(buf: Bytes, expectedPort: u16): Option<Bytes> {
    match Slice(buf)
    case None => None
    case Some(f) => if f.destPort == expectedPort then Some(f.payload) else None
  }

  lemma IpPayloadExactly(ip: Bytes)
    requires |ip| >= 20
    ensures var claimed, total := ip[0] % 16 * 4, Word(ip[2], ip[3]);
      var from := Max(claimed, 20);
      var to := Min(from + Max(total, claimed) - claimed, |ip|);
      IpPayload(ip) == if from <= to then ip[from..to] else []
  {
  }

  lemma SliceIpExactly(destMac: MacBytes, srcMac: MacBytes, ip: Bytes)
    requires |ip| >= 20 && ip[9] == 17
    ensures var r, udp := SliceIp(destMac, srcMac, ip), IpPayload(ip);
      && (r.Some? <==> |udp| >= 8)
      && (r.Some? ==>
            && r.value.destMac == destMac && r.value.srcMac == srcMac && r.value.payload == udp[8..]
            && r.value.srcIp == BigEndian(ip[12], ip[13], ip[14], ip[15])
            && r.value.destIp == BigEndian(ip[16], ip[17], ip[18], ip[19])
            && r.value.srcPort == Word(udp[0], udp[1]) && r.value.destPort == Word(udp[2], udp[3]))
  {
  }

  /** The parser takes IPv4 and UDP only, and a packet that has all of both headers. */
  lemma SliceRefuses(buf: Bytes)
    ensures |buf| < 34 || buf[12] != 8 || buf[13] != 0 || buf[23] != 17 ==> Slice(buf).None?
  {
  }

  /** Where a frame says its UDP packet starts: behind the header it claims, at least twenty bytes of it. */
  function UdpStart(buf: Bytes): nat
    requires |buf| >= 34
  {
    14 + Max(buf[14] % 16 * 4, 20)
  }

  /** And where it ends: as the total length says, or with the bytes there are. */
  function UdpEnd(buf: Bytes): nat
    requires |buf| >= 34
  {
    var claimed, total := buf[14] % 16 * 4, Word(buf[16], buf[17]);
    Min(UdpStart(buf) + Max(total, claimed) - claimed, |buf|)
  }

  lemma SliceOfRest(buf: Bytes, from: nat, n: nat)
    requires 14 <= from && from + n <= |buf|
    ensures buf[14..][from - 14..from - 14 + n] == buf[from..from + n]
  {
  }

  lemma UdpPacketIs(buf: Bytes)
    requires |buf| >= 34
    ensures IpPayload(buf[14..]) == if UdpStart(buf) <= UdpEnd(buf) then buf[UdpStart(buf)..UdpEnd(buf)] else []
  {
    IpPayloadExactly(buf[14..]);
    if UdpStart(buf) <= UdpEnd(buf) {
      SliceOfRest(buf, UdpStart(buf), UdpEnd(buf) - UdpStart(buf));
    }
  }

  /** What the parser makes of IPv4 and UDP bytes, whoever built them. */
  lemma SliceExactly(buf: Bytes)
    requires |buf| >= 34 && buf[12] == 8 && buf[13] == 0 && buf[23] == 17
    ensures Slice(buf).Some? <==> UdpStart(buf) + 8 <= UdpEnd(buf)
    ensures Slice(buf).Some? ==>
      var f, udp := Slice(buf).value, buf[UdpStart(buf)..UdpEnd(buf)];
      && f.destMac == buf[..6] && f.srcMac == buf[6..12] && f.payload == udp[8..]
      && f.srcIp == BigEndian(buf[26], buf[27], buf[28], buf[29])
      && f.destIp == BigEndian(buf[30], buf[31], buf[32], buf[33])
      && f.srcPort == Word(udp[0], udp[1]) && f.destPort == Word(udp[2], udp[3])
  {
    UdpPacketIs(buf);
    SliceIpExactly(buf[..6], buf[6..12], buf[14..]);
  }

  lemma IpHeaderFields(f: Fields, totalLen: u16, checksum: u16)
    ensures var h := IpHeader(f, totalLen, checksum);
      h[0] == 0x45 && WordAt(h, 2) == totalLen && h[9] == UDP_PROTOCOL && WordAt(h, 10) == checksum
      && IpAt(h, 12) == f.srcIp && IpAt(h, 16) == f.destIp
  {
  }

  lemma EthLayer(f: Fields, rest: Bytes)
    ensures var buf := EthHeader(f) + rest;
      buf[..6] == f.destMac && buf[6..12] == f.srcMac && WordAt(buf, 12) == ETHERTYPE_IPV4
      && buf[ETH_HEADER_LEN..] == rest
  {
  }

  /** The fields read from the front of a packet are those of its header. */
  lemma HeaderOnly(ip: Bytes, header: Bytes)
    requires |header| == IP_HEADER_LEN && |ip| >= IP_HEADER_LEN && ip[..20] == header
    ensures ip[0] == header[0] && ip[9] == header[9] && WordAt(ip, 2) == WordAt(header, 2)
    ensures IpAt(ip, 12) == IpAt(header, 12) && IpAt(ip, 16) == IpAt(header, 16)
  {
  }

  lemma IpLayer(f: Fields, totalLen: u16, checksum: u16, rest: Bytes)
    requires IP_HEADER_LEN < totalLen <= IP_HEADER_LEN + |rest|
    ensures var ip := IpHeader(f, totalLen, checksum) + rest;
      ip[9] == UDP_PROTOCOL && IpAt(ip, 12) == f.srcIp && IpAt(ip, 16) == f.destIp
      && IpPayload(ip) == rest[..totalLen - IP_HEADER_LEN]
  {
    var header := IpHeader(f, totalLen, checksum);
    var ip := header + rest;
    IpHeaderFields(f, totalLen, checksum);
    assert ip[..20] == header;
    HeaderOnly(ip, header);
    assert 0x45 % 16 * 4 == 20;
    assert ip[IP_HEADER_LEN..totalLen] == rest[..totalLen - IP_HEADER_LEN];
  }

  lemma UdpLayer(f: Fields, udpLen: u16)
    ensures var udp := UdpHeader(f, udpLen) + f.payload;
      WordAt(udp, 0) == f.srcPort && WordAt(udp, 2) == f.destPort && udp[UDP_HEADER_LEN..] == f.payload
  {
  }

  lemma Prefix(a: Bytes, b: Bytes)
    ensures (a + b)[..|a|] == a
  {
  }

  lemma UdpIsPayload(f: Fields, checksum: u16, udp: Bytes, padding: Bytes)
    requires |f.payload| <= MAX_PAYLOAD && |udp| == UDP_HEADER_LEN + |f.payload|
    ensures var ip := IpHeader(f, TotalLen(f), checksum) + (udp + padding);
      ip[9] == UDP_PROTOCOL && IpAt(ip, 12) == f.srcIp && IpAt(ip, 16) == f.destIp && IpPayload(ip) == udp
  {
    IpLayer(f, TotalLen(f), checksum, udp + padding);
    Prefix(udp, padding);
  }

  lemma SlicesTo(f: Fields, ip: Bytes, udp: Bytes)
    requires |ip| >= IP_HEADER_LEN && ip[9] == UDP_PROTOCOL && IpPayload(ip) == udp && |udp| >= UDP_HEADER_LEN
    requires IpAt(ip, 12) == f.srcIp && IpAt(ip, 16) == f.destIp
    requires WordAt(udp, 0) == f.srcPort && WordAt(udp, 2) == f.destPort && udp[UDP_HEADER_LEN..] == f.payload
    ensures SliceIp(f.destMac, f.srcMac, ip) == Some(f)
  {
  }

  lemma Regroup(a: Bytes, b: Bytes, c: Bytes, d: Bytes)
    ensures a + b + c + d == a + (b + (c + d))
  {
  }

  /**
   * Slicing a built frame recovers every field and the payload, also when the link has
   * padded the frame, for all addresses and ports and all payloads of at most 65507 bytes.
   */
  lemma FrameRoundTrip(f: Fields, padding: Bytes)
    requires |f.payload| <= MAX_PAYLOAD
    ensures Slice(Frame(f) + padding) == Some(f)
  {
    var header, udp := IpHeader(f, TotalLen(f), HeaderChecksum(f)), UdpHeader(f, UdpLen(f)) + f.payload;
    Regroup(EthHeader(f), header, udp, padding);
    EthLayer(f, header + (udp + padding));
    UdpIsPayload(f, HeaderChecksum(f), udp, padding);
    UdpLayer(f, UdpLen(f));
    SlicesTo(f, header + (udp + padding), udp);
  }

  /** The receiving service gets the payload back, and only the service on that port. */
  lemma DhcpPayloadRoundTrip(f: Fields, padding: Bytes, port: u16)
    requires |f.payload| <= MAX_PAYLOAD
    ensures DhcpPayload(Frame(f) + padding, port) == if port == f.destPort then Some(f.payload) else None
  {
    FrameRoundTrip(f, padding);
  }

  // ----- The builder -----

  /** The bytes with one 16-bit word cleared. */
  function Blanked(data: Bytes, word: nat): (b: Bytes)
    requires 2 * word + 2 <= |data|
    ensures |b| == |data|
  {
    data[..2 * word] + [0, 0] + data[2 * word + 2..]
  }

  lemma BlankedWord(data: Bytes, word: nat, i: nat)
    requires 2 * word + 2 <= |data| && i % 2 == 0 && i + 2 <= |data|
    ensures var b := Blanked(data, word);
      if i == 2 * word then b[i] == b[i + 1] == 0 else b[i] == data[i] && b[i + 1] == data[i + 1]
  {
  }

  lemma SumFrom(b: Bytes, i: nat)
    requires i + 2 <= |b|
    ensures SumWords(b[i..]) == Word(b[i], b[i + 1]) + SumWords(b[i + 2..])
  {
    assert b[i..][2..] == b[i + 2..];
  }

  method SumSkipping(data: Bytes, skipWord: nat) returns (sum: nat)
    requires |data| % 2 == 0 && 2 * skipWord + 2 <= |data|
    ensures sum == SumWords(Blanked(data, skipWord))
  {
    ghost var blanked := Blanked(data, skipWord);
    ghost var rest := SumWords(blanked);
    sum := 0;
    var i := 0;
    assert blanked[0..] == blanked;
    while i < |data|
      invariant 0 <= i <= |data| && i % 2 == 0
      invariant rest == SumWords(blanked[i..])
      invariant sum + rest == SumWords(blanked)
    {
      SumFrom(blanked, i);
      BlankedWord(data, skipWord, i);
      if i != 2 * skipWord {
        sum := sum + Word(data[i], data[i + 1]);
      }
      i := i + 2;
      rest := SumWords(blanked[i..]);
    }
  }

  /** The complement of the one's-complement sum, leaving out one word. */
  method Checksum(data: Bytes, skipWord: nat) returns (checksum: u16)
    requires |data| % 2 == 0 && 2 * skipWord + 2 <= |data|
    ensures checksum == Complement(OnesSum(Blanked(data, skipWord)))
  {
    var sum := SumSkipping(data, skipWord);
    var folded := FoldCarries(sum);
    checksum := Complement(folded);
  }

  method FoldCarries(n: nat) returns (folded: u16)
    ensures folded == Fold(n)
  {
    var sum: nat := n;
    while sum >= U16_SIZE
      invariant Fold(sum) == Fold(n)
    {
      sum := sum / U16_SIZE + sum % U16_SIZE;
    }
    folded := sum;
  }

  method Put(buf: array<byte>, at: nat, bytes: Bytes)
    requires at + |bytes| <= buf.Length
    modifies buf
    ensures buf[..] == old(buf[..at]) + bytes + old(buf[at + |bytes|..])
  {
    forall i | 0 <= i < |bytes| {
      buf[at + i] := bytes[i];
    }
  }

  lemma RoomBehind(header: Bytes, rest: Bytes)
    requires |header| == IP_HEADER_LEN && header[0] == 0x45
    ensures |IpPayload(header + rest)| == Min(Max(WordAt(header, 2), IP_HEADER_LEN) - IP_HEADER_LEN, |rest|)
  {
  }

  /** A 16-bit total length leaves room for the payload just when it did not wrap. */
  lemma WrappedLengthIsShort(n: nat)
    ensures Max((IP_HEADER_LEN + UDP_HEADER_LEN + n) % U16_SIZE, IP_HEADER_LEN) - IP_HEADER_LEN >= UDP_HEADER_LEN + n
            <==> n <= MAX_PAYLOAD
  {
  }

  /** The header inside a packet, and the packet with the header's middle word replaced. */
  lemma MiddleWord(eth: Bytes, start: Bytes, old': Bytes, new': Bytes, end: Bytes, rest: Bytes)
    requires |old'| == |new'|
    ensures var packet, at := eth + (start + old' + end) + rest, |eth| + |start|;
      && packet[|eth|..at + |old'| + |end|] == start + old' + end
      && packet[..at] + new' + packet[at + |old'|..] == eth + (start + new' + end) + rest
  {
  }

  /** Writes the checksum into the ten-word header `start + [0, 0] + end`. */
  method PutChecksum(buf: array<byte>, ghost eth: Bytes, ghost start: Bytes, ghost end: Bytes, ghost rest: Bytes)
    requires |eth| == ETH_HEADER_LEN && |start| == 10 && |end| == 8
    requires buf[..] == eth + (start + [0, 0] + end) + rest
    modifies buf
    ensures buf[..] == eth + (start + WordBytes(Complement(OnesSum(start + [0, 0] + end))) + end) + rest
  {
    ghost var header := start + [0, 0] + end;
    MiddleWord(eth, start, [0, 0], WordBytes(Complement(OnesSum(header))), end, rest);
    MiddleWord([], start, [0, 0], [0, 0], end, []);
    assert Blanked(header, 5) == header;
    var checksum := Checksum(buf[14..34], 5);
    Put(buf, 24, WordBytes(checksum));
  }

  /** The headers over a zeroed buffer, the checksum still clear. */
  method PutHeaders(buf: array<byte>, eth: Bytes, start: Bytes, end: Bytes)
    requires |eth| == ETH_HEADER_LEN && |start| == 10 && |end| == 8
    requires buf.Length >= 34 && forall i | 0 <= i < buf.Length :: buf[i] == 0
    modifies buf
    ensures buf[..] == eth + (start + [0, 0] + end) + old(buf[34..])
  {
    ghost var zeros := buf[..];
    PutStart(buf, eth, start);
    assert buf[..26] == eth + start + zeros[24..26] && zeros[24..26] == [0, 0];
    assert buf[34..] == zeros[34..];
    Put(buf, 26, end);
  }

  /** The Ethernet header, and the IPv4 header up to its checksum. */
  method PutStart(buf: array<byte>, eth: Bytes, start: Bytes)
    requires |eth| == ETH_HEADER_LEN && |start| == 10 && buf.Length >= 24
    modifies buf
    ensures buf[..] == eth + start + old(buf[24..])
  {
    ghost var before := buf[..];
    Put(buf, 0, eth);
    assert buf[..] == eth + before[14..];
    Put(buf, 14, start);
  }

  /** Behind the headers, the UDP header and payload. */
  method PutUdp(buf: array<byte>, ghost headers: Bytes, udp: Bytes, payload: Bytes)
    requires |headers| == 34 <= buf.Length && |udp| == UDP_HEADER_LEN && buf.Length == 34 + |udp| + |payload|
    requires buf[..34] == headers
    modifies buf
    ensures buf[..] == headers + (udp + payload)
  {
    Put(buf, 34, udp);
    Put(buf, 42, payload);
  }

  /**
   * The frame of these headers and payload, written into one buffer. The IPv4 payload, as the
   * total length just written delimits it, has to hold the UDP packet; where it does not, the
   * builder panics, and the outcome here is nothing.
   */
  method Assemble(eth: Bytes, start: Bytes, end: Bytes, udp: Bytes, payload: Bytes) returns (frame: Option<Bytes>)
    requires |eth| == ETH_HEADER_LEN && |start| == 10 && |end| == 8 && |udp| == UDP_HEADER_LEN && start[0] == 0x45
    ensures frame.Some? <==> Max(WordAt(start, 2), IP_HEADER_LEN) - IP_HEADER_LEN >= UDP_HEADER_LEN + |payload|
    ensures frame.Some? ==>
      frame.value == eth + (start + WordBytes(Complement(OnesSum(start + [0, 0] + end))) + end) + (udp + payload)
  {
    var buf := new byte[ETH_HEADER_LEN + IP_HEADER_LEN + UDP_HEADER_LEN + |payload|](_ => 0);
    ghost var header, zeros := start + [0, 0] + end, buf[34..];
    PutHeaders(buf, eth, start, end);
    assert buf[..34] == eth + header && buf[ETH_HEADER_LEN..] == header + zeros;
    RoomBehind(header, zeros);
    var room := |IpPayload(buf[ETH_HEADER_LEN..])|;
    if room < UDP_HEADER_LEN || room < UDP_HEADER_LEN + |payload| {
      return None;
    }
    PutUdp(buf, eth + header, udp, payload);
    PutChecksum(buf, eth, start, end, udp + payload);
    frame := Some(buf[..]);
  }

  lemma StartFields(totalLen: u16)
    ensures IpHeaderStart(totalLen)[0] == 0x45 && WordAt(IpHeaderStart(totalLen), 2) == totalLen
  {
  }

  method BuildRawPacket(f: Fields) returns (frame: Option<Bytes>)
    ensures frame.Some? <==> |f.payload| <= MAX_PAYLOAD
    ensures frame.Some? ==> frame.value == Frame(f)
  {
    StartFields(TotalLen(f));
    ClearHeader(f, TotalLen(f));
    WrappedLengthIsShort(|f.payload|);
    frame := Assemble(EthHeader(f), IpHeaderStart(TotalLen(f)), IpBytes(f.srcIp) + IpBytes(f.destIp),
                      UdpHeader(f, UdpLen(f)), f.payload);
  }
}

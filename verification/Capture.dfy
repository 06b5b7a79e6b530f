/** The pcap writer for SIP packets: checksum, headers, file, and a reader of that layout. */
module Capture {
  import opened Wrappers
  import opened Sequences

  type Byte = x: int | 0 <= x < 256
  type Word = x: int | 0 <= x < 0x1_0000

  // ----- Numbers in bytes

  function Be16(v: Word): (b: seq<Byte>)
    ensures |b| == 2
  {
    [v / 256, v % 256]
  }

  function Le16(v: Word): (b: seq<Byte>)
    ensures |b| == 2
  {
    [v % 256, v / 256]
  }

  /** `v >>> 0`, least byte first. */
  function Le32(v: int): (b: seq<Byte>)
    ensures |b| == 4
  {
    var v1 := v / 256;
    var v2 := v1 / 256;
    var v3 := v2 / 256;
    [v % 256, v1 % 256, v2 % 256, v3 % 256]
  }

  function FromBe16(b: seq<Byte>): (v: Word)
    requires |b| == 2
  {
    var high: int, low: int := b[0], b[1];
    high * 256 + low
  }

  function FromLe32(b: seq<Byte>): (v: nat)
    requires |b| == 4
  {
    var b0: int, b1: int, b2: int, b3: int := b[0], b[1], b[2], b[3];
    b0 + 256 * (b1 + 256 * (b2 + 256 * b3))
  }

  lemma Digit24(v: int)
    ensures v % 0x1_0000_0000 == v % 256 + 256 * (v / 256 % 0x100_0000)
  {
    var q, r := v / 256 / 0x100_0000, v / 256 % 0x100_0000;
    assert v == 0x1_0000_0000 * q + (256 * r + v % 256);
  }

  lemma Digit16(v: int)
    ensures v % 0x100_0000 == v % 256 + 256 * (v / 256 % 0x1_0000)
  {
    var q, r := v / 256 / 0x1_0000, v / 256 % 0x1_0000;
    assert v == 0x100_0000 * q + (256 * r + v % 256);
  }

  lemma Digit8(v: int)
    ensures v % 0x1_0000 == v % 256 + 256 * (v / 256 % 256)
  {
    var q, r := v / 256 / 256, v / 256 % 256;
    assert v == 0x1_0000 * q + (256 * r + v % 256);
  }

  lemma ReadsBack32(v: int)
    ensures FromLe32(Le32(v)) == v % 0x1_0000_0000
  {
    var v1 := v / 256;
    var v2 := v1 / 256;
    Digit24(v);
    Digit16(v1);
    Digit8(v2);
  }

  lemma ReadsWord(b: seq<Byte>, v: int)
    requires b == Le32(v) && 0 <= v < 0x1_0000_0000
    ensures FromLe32(b) == v
  {
    ReadsBack32(v);
  }

  lemma ReadsBack16(w: Word)
    ensures FromBe16(Be16(w)) == w
  {
  }

  // ----- The checksum

  function WordAt(b: seq<Byte>, i: nat): Word
    requires i + 1 < |b|
  {
    var high: int, low: int := b[i], b[i + 1];
    high * 256 + low
  }

  /** The first `n` 16-bit words of the bytes, added up. */
  function SumOfWords(b: seq<Byte>, n: nat): nat
    requires 2 * n <= |b|
  {
    if n == 0 then 0 else SumOfWords(b, n - 1) + WordAt(b, 2 * n - 2)
  }

  function WordSum(b: seq<Byte>): nat
    requires |b| % 2 == 0
  {
    SumOfWords(b, |b| / 2)
  }

  /** A sum in one's complement: carries out of 16 bits come back in at the bottom. */
  function OnesComplement(sum: nat): (r: Word)
    ensures r == 0 <==> sum == 0
  {
    if sum == 0 then 0 else 1 + (sum - 1) % 0xffff
  }

  /** Moving the carry to the bottom once changes nothing. */
  lemma CarryComesBack(sum: nat)
    ensures OnesComplement(sum % 0x1_0000 + sum / 0x1_0000) == OnesComplement(sum)
  {
    var q, r := sum / 0x1_0000, sum % 0x1_0000;
    assert sum == q * 0xffff + (q + r);
    if q + r > 0 {
      SameRemainder(q + r - 1, q);
      assert sum - 1 == q + r - 1 + q * 0xffff;
    }
  }

  lemma {:induction false} SameRemainder(x: nat, q: nat)
    ensures (x + q * 0xffff) % 0xffff == x % 0xffff
  {
    if q > 0 {
      SameRemainder(x, q - 1);
      assert x + q * 0xffff == (x + (q - 1) * 0xffff) + 0xffff;
    }
  }

  lemma OnesComplementAdds(a: nat, b: nat)
    ensures OnesComplement(OnesComplement(a) + b) == OnesComplement(a + b)
  {
    if a > 0 {
      var q := (a - 1) / 0xffff;
      assert a - 1 == (a - 1) % 0xffff + q * 0xffff;
      SameRemainder(OnesComplement(a) + b - 1, q);
      assert a + b - 1 == OnesComplement(a) + b - 1 + q * 0xffff;
    }
  }

  function Checksum(b: seq<Byte>): Word
    requires |b| % 2 == 0
  {
    0xffff - OnesComplement(WordSum(b))
  }

  /** The nested loop folds after every word; an odd length reads past the end. */
  method CalculateIpv4HeaderChecksum(header: seq<Byte>) returns (r: Option<Word>)
    ensures r == if |header| % 2 == 0 then Some(Checksum(header)) else None
  {
    var sum: nat := 0;
    var i := 0;
    while i < |header|
      invariant 0 <= i <= |header| && i % 2 == 0
      invariant sum == OnesComplement(SumOfWords(header, i / 2))
    {
      if i + 1 >= |header| { return None; }
      ghost var before := SumOfWords(header, i / 2);
      sum := sum + WordAt(header, i);
      ghost var whole := sum;
      while sum > 0xffff
        invariant OnesComplement(sum) == OnesComplement(whole)
      {
        CarryComesBack(sum);
        sum := sum % 0x1_0000 + sum / 0x1_0000;
      }
      FoldedIsItself(sum);
      OnesComplementAdds(before, WordAt(header, i));
      i := i + 2;
    }
    r := Some(0xffff - sum);
  }

  lemma FoldedIsItself(sum: nat)
    requires sum <= 0xffff
    ensures OnesComplement(sum) == sum
  {
  }

  lemma {:induction false} SumOfSameWords(b: seq<Byte>, b': seq<Byte>, n: nat)
    requires 2 * n <= |b| && 2 * n <= |b'| && forall i :: 0 <= i < 2 * n ==> b[i] == b'[i]
    ensures SumOfWords(b, n) == SumOfWords(b', n)
  {
    if n > 0 { SumOfSameWords(b, b', n - 1); }
  }

  /** Changing one word changes the sum by as much. */
  lemma {:induction false} SumWithWord(b: seq<Byte>, b': seq<Byte>, k: nat, n: nat)
    requires |b| == |b'| && 2 * n <= |b| && k < n
    requires forall i :: 0 <= i < |b| && i != 2 * k && i != 2 * k + 1 ==> b[i] == b'[i]
    ensures SumOfWords(b', n) - SumOfWords(b, n) == WordAt(b', 2 * k) - WordAt(b, 2 * k)
  {
    if n == k + 1 {
      SumOfSameWords(b, b', k);
    } else {
      SumWithWord(b, b', k, n - 1);
      assert WordAt(b, 2 * n - 2) == WordAt(b', 2 * n - 2);
    }
  }

  /** With its checksum in the place of a zero word, any even header sums to all ones: checking it gives 0. */
  lemma CompletedHeaderChecksToZero(a: seq<Byte>, b: seq<Byte>)
    requires |a| % 2 == 0 && |b| % 2 == 0
    ensures Checksum(a + Be16(Checksum(a + Be16(0) + b)) + b) == 0
  {
    var blank := a + Be16(0) + b;
    var c := Checksum(blank);
    var full := a + Be16(c) + b;
    var k := |a| / 2;
    assert WordAt(blank, 2 * k) == 0 && WordAt(full, 2 * k) == c;
    SumWithWord(blank, full, k, |blank| / 2);
    AllOnes(WordSum(blank));
  }

  lemma AllOnes(sum: nat)
    ensures OnesComplement(sum + (0xffff - OnesComplement(sum))) == 0xffff
  {
    if sum > 0 {
      var q := (sum - 1) / 0xffff;
      assert sum + (0xffff - OnesComplement(sum)) - 1 == 0xfffe + q * 0xffff;
      SameRemainder(0xfffe, q);
    }
  }

  // ----- The packet

  datatype Direction = Out | In

  datatype Packet = Packet(direction: Direction, payload: seq<Byte>, timestampUsec: int)

  datatype Error = LengthOutOfRange(length: int)

  const IpHeaderLength := 20
  const UdpHeaderLength := 8

  /** The longest payload whose IPv4 total length fits 16 bits. */
  const MaxPayload := 65507

  function SourceIp(d: Direction): seq<Byte> { if d == Out then [10, 0, 0, 2] else [10, 0, 0, 1] }
  function DestinationIp(d: Direction): seq<Byte> { if d == Out then [10, 0, 0, 1] else [10, 0, 0, 2] }
  function SourcePort(d: Direction): Word { if d == Out then 5060 else 50600 }
  function DestinationPort(d: Direction): Word { if d == Out then 50600 else 5060 }

  function BeforeChecksum(total: Word): (b: seq<Byte>)
    ensures |b| == 10
  {
    [0x45, 0x00] + Be16(total) + Be16(0) + Be16(0x4000) + [64, 17]
  }

  function Addresses(d: Direction): (b: seq<Byte>)
    ensures |b| == 8
  {
    SourceIp(d) + DestinationIp(d)
  }

  function IpHeader(total: Word, d: Direction): (b: seq<Byte>)
    ensures |b| == IpHeaderLength && Checksum(b) == 0
  {
    CompletedHeaderChecksToZero(BeforeChecksum(total), Addresses(d));
    BeforeChecksum(total) + Be16(Checksum(BeforeChecksum(total) + Be16(0) + Addresses(d))) + Addresses(d)
  }

  function UdpHeader(length: Word, d: Direction): (b: seq<Byte>)
    ensures |b| == UdpHeaderLength
  {
    Be16(SourcePort(d)) + Be16(DestinationPort(d)) + Be16(length) + Be16(0)
  }

  function RawPacket(p: Packet): Result<seq<Byte>, Error> {
    var total := IpHeaderLength + UdpHeaderLength + |p.payload|;
    if total > 0xffff then Err(LengthOutOfRange(total))
    else Ok(IpHeader(total, p.direction) + UdpHeader(UdpHeaderLength + |p.payload|, p.direction) + p.payload)
  }

  const Million := 1_000_000

  function PacketHeader(timestampUsec: int, length: nat): (b: seq<Byte>)
    ensures |b| == 16
  {
    var sec := timestampUsec / Million;
    Le32(sec) + Le32(timestampUsec - sec * Million) + Le32(length) + Le32(length)
  }

  const Magic := 0xa1b2c3d4
  const LinkTypeRaw := 101

  function GlobalHeader(): (b: seq<Byte>)
    ensures |b| == 24
  {
    Le32(Magic) + Le16(2) + Le16(4) + Le32(0) + Le32(0) + Le32(65535) + Le32(LinkTypeRaw)
  }

  function Record(p: Packet, raw: seq<Byte>): seq<Byte> { PacketHeader(p.timestampUsec, |raw|) + raw }

  /** The records of the packets, or the first packet that does not fit. */
  function Records(ps: seq<Packet>): Result<seq<Byte>, Error> {
    if ps == [] then Ok([])
    else match RawPacket(ps[0])
      case Err(e) => Err(e)
      case Ok(raw) =>
        match Records(ps[1..])
        case Err(e) => Err(e)
        case Ok(bytes) => Ok(Record(ps[0], raw) + bytes)
  }

  function Pcap(ps: seq<Packet>): Result<seq<Byte>, Error> {
    After(GlobalHeader(), Records(ps))
  }

  // ----- The writer, buffer by buffer

  method WriteBe16(buffer: array<Byte>, v: Word, offset: nat)
    requires offset + 2 <= buffer.Length
    modifies buffer
    ensures buffer[offset] == v / 256 && buffer[offset + 1] == v % 256
    ensures forall i :: 0 <= i < buffer.Length && i != offset && i != offset + 1 ==> buffer[i] == old(buffer[i])
  {
    buffer[offset] := v / 256;
    buffer[offset + 1] := v % 256;
  }

  method WriteAddress(buffer: array<Byte>, a: seq<Byte>, offset: nat)
    requires |a| == 4 && offset + 4 <= buffer.Length
    modifies buffer
    ensures buffer[offset..offset + 4] == a
    ensures forall i :: 0 <= i < buffer.Length && !(offset <= i < offset + 4) ==> buffer[i] == old(buffer[i])
  {
    buffer[offset], buffer[offset + 1], buffer[offset + 2], buffer[offset + 3] := a[0], a[1], a[2], a[3];
  }

  /** The header with its checksum field still zero. */
  function BlankHeader(total: Word, d: Direction): seq<Byte> {
    BeforeChecksum(total) + Be16(0) + Addresses(d)
  }

  method FillFields(header: array<Byte>, total: Word)
    requires header.Length == IpHeaderLength && forall i :: 0 <= i < header.Length ==> header[i] == 0
    modifies header
    ensures header[..10] == BeforeChecksum(total) && header[10] == 0 && header[11] == 0
  {
    header[0], header[1] := 0x45, 0x00;
    WriteBe16(header, total, 2);
    WriteBe16(header, 0x4000, 6);
    header[8], header[9] := 64, 17;
  }

  method FillHeader(header: array<Byte>, total: Word, d: Direction)
    requires header.Length == IpHeaderLength && forall i :: 0 <= i < header.Length ==> header[i] == 0
    modifies header
    ensures header[..] == BlankHeader(total, d)
  {
    FillFields(header, total);
    ghost var fields := header[..10];
    WriteAddress(header, SourceIp(d), 12);
    WriteAddress(header, DestinationIp(d), 16);
    assert header[..10] == fields;
    assert header[10..12] == [0, 0] == Be16(0);
    assert header[12..20] == header[12..16] + header[16..20];
    assert header[..] == header[..10] + header[10..12] + header[12..20];
  }

  method BuildIpHeader(total: Word, d: Direction) returns (header: array<Byte>)
    ensures fresh(header) && header[..] == IpHeader(total, d)
  {
    header := new Byte[20](_ => 0);
    FillHeader(header, total, d);
    var checksum := CalculateIpv4HeaderChecksum(header[..]);
    ghost var blank := header[..];
    WriteBe16(header, checksum.value, 10);
    assert header[..10] == blank[..10] == BeforeChecksum(total);
    assert header[12..] == blank[12..] == Addresses(d);
    assert header[10..12] == Be16(checksum.value);
    assert header[..] == header[..10] + header[10..12] + header[12..];
  }

  method BuildRawIpv4UdpPacket(p: Packet) returns (r: Result<seq<Byte>, Error>)
    ensures r == RawPacket(p)
  {
    var total := IpHeaderLength + UdpHeaderLength + |p.payload|;
    if total > 0xffff { return Err(LengthOutOfRange(total)); }
    var ip := BuildIpHeader(total, p.direction);
    var udp := UdpHeader(UdpHeaderLength + |p.payload|, p.direction);
    return Ok(ip[..] + udp + p.payload);
  }

  method BuildPcapBuffer(ps: seq<Packet>) returns (r: Result<seq<Byte>, Error>)
    ensures r == Pcap(ps)
  {
    var chunks := GlobalHeader();
    assert ps[0..] == ps;
    for i := 0 to |ps|
      invariant Pcap(ps) == After(chunks, Records(ps[i..]))
    {
      assert ps[i..][1..] == ps[i + 1..];
      var raw := BuildRawIpv4UdpPacket(ps[i]);
      if raw.Err? { return Err(raw.error); }
      AfterRecord(chunks, ps[i..], raw.value);
      chunks := chunks + (PacketHeader(ps[i].timestampUsec, |raw.value|) + raw.value);
    }
    assert Records(ps[|ps|..]) == Ok([]) && chunks + [] == chunks;
    return Ok(chunks);
  }

  function After(chunks: seq<Byte>, r: Result<seq<Byte>, Error>): Result<seq<Byte>, Error> {
    match r
    case Err(e) => Err(e)
    case Ok(bytes) => Ok(chunks + bytes)
  }

  lemma AfterRecord(chunks: seq<Byte>, ps: seq<Packet>, raw: seq<Byte>)
    requires ps != [] && RawPacket(ps[0]) == Ok(raw)
    ensures After(chunks, Records(ps)) == After(chunks + Record(ps[0], raw), Records(ps[1..]))
  {
    if Records(ps[1..]).Ok? { Regroup(chunks, Record(ps[0], raw), Records(ps[1..]).value); }
  }

  lemma Regroup(a: seq<Byte>, b: seq<Byte>, c: seq<Byte>)
    ensures a + (b + c) == (a + b) + c
  {
  }

  // ----- A reader of the layout

  /** Which way a packet with these addresses and ports goes. */
  function DirectionOf(addresses: seq<Byte>, source: Word, destination: Word): Option<Direction> {
    if addresses == [10, 0, 0, 2, 10, 0, 0, 1] && source == 5060 && destination == 50600 then Some(Out)
    else if addresses == [10, 0, 0, 1, 10, 0, 0, 2] && source == 50600 && destination == 5060 then Some(In)
    else None
  }

  /** The datagram in an IPv4 packet that is whole, alive, not a fragment and whose header checks. */
  function ReadIp(d: seq<Byte>): Option<(Direction, seq<Byte>)> {
    if |d| < IpHeaderLength || d[0] / 16 != 4 then None
    else
      var h := d[0] % 16 * 4;
      if h < IpHeaderLength || |d| < h + UdpHeaderLength || d[9] != 17 then None
      else if d[6] % 64 != 0 || d[7] != 0 || d[8] == 0 then None
      else if FromBe16(d[2..4]) != |d| || Checksum(d[..h]) != 0 then None
      else
        var length: int := FromBe16(d[h + 4..h + 6]);
        if length < UdpHeaderLength || h + length > |d| then None
        else
          match DirectionOf(d[12..20], FromBe16(d[h..h + 2]), FromBe16(d[h + 2..h + 4]))
          case None => None
          case Some(direction) => Some((direction, d[h + UdpHeaderLength..h + length]))
  }

  /** The packets of the records, each of which was captured in full. */
  function ReadRecords(b: seq<Byte>): Option<seq<Packet>>
    decreases |b|
  {
    if b == [] then Some([])
    else if |b| < 16 then None
    else
      var length := FromLe32(b[8..12]);
      if |b| < 16 + length || FromLe32(b[12..16]) != length then None
      else
        match ReadIp(b[16..16 + length])
        case None => None
        case Some((direction, payload)) =>
          match ReadRecords(b[16 + length..])
          case None => None
          case Some(rest) => Some([Packet(direction, payload, FromLe32(b[..4]) * Million + FromLe32(b[4..8]))] + rest)
  }

  function ReadPcap(b: seq<Byte>): Option<seq<Packet>> {
    if |b| < 24 || FromLe32(b[..4]) != Magic || FromLe32(b[20..24]) != LinkTypeRaw then None
    else if b[4..8] != [2, 0, 4, 0] || FromLe32(b[16..20]) < 65535 then None
    else ReadRecords(b[24..])
  }

  // ----- Round trip

  predicate Fits(p: Packet) { |p.payload| <= MaxPayload }

  /** The packet as it can come back: its seconds modulo 2^32. */
  function Kept(p: Packet): Packet {
    p.(timestampUsec := p.timestampUsec / Million % 0x1_0000_0000 * Million + p.timestampUsec % Million)
  }

  lemma KeptIff(p: Packet)
    ensures Kept(p) == p <==> 0 <= p.timestampUsec < 0x1_0000_0000 * Million
  {
    var sec := p.timestampUsec / Million;
    assert sec % 0x1_0000_0000 == sec <==> 0 <= sec < 0x1_0000_0000;
  }

  lemma AddressBytes(d: Direction)
    ensures Addresses(d) == if d == Out then [10, 0, 0, 2, 10, 0, 0, 1] else [10, 0, 0, 1, 10, 0, 0, 2]
  {
  }

  lemma IpFields(total: Word, d: Direction)
    ensures var h := IpHeader(total, d);
            && h[0] == 0x45 && h[6] == 64 && h[7] == 0 && h[8] == 64 && h[9] == 17 && h[2..4] == Be16(total)
            && h[12..20] == if d == Out then [10, 0, 0, 2, 10, 0, 0, 1] else [10, 0, 0, 1, 10, 0, 0, 2]
  {
    AddressBytes(d);
    assert IpHeader(total, d)[12..20] == Addresses(d);
  }

  lemma UdpFields(length: Word, d: Direction)
    ensures var u := UdpHeader(length, d); u[..2] == Be16(SourcePort(d)) && u[2..4] == Be16(DestinationPort(d)) && u[4..6] == Be16(length)
  {
  }

  lemma IpPart(ip: seq<Byte>, udp: seq<Byte>, payload: seq<Byte>)
    requires |ip| == 20 && |udp| == 8
    ensures var d := ip + udp + payload;
            && d[..20] == ip && d[2..4] == ip[2..4] && d[12..20] == ip[12..20]
            && d[0] == ip[0] && d[6] == ip[6] && d[7] == ip[7] && d[8] == ip[8] && d[9] == ip[9]
  {
  }

  lemma UdpPart(ip: seq<Byte>, udp: seq<Byte>, payload: seq<Byte>)
    requires |ip| == 20 && |udp| == 8
    ensures var d := ip + udp + payload;
            && d[20..22] == udp[..2] && d[22..24] == udp[2..4] && d[24..26] == udp[4..6] && d[28..28 + |payload|] == payload
  {
  }

  lemma PartsRead(ip: seq<Byte>, udp: seq<Byte>, payload: seq<Byte>, direction: Direction)
    requires |ip| == 20 && |udp| == 8 && ip[0] == 0x45 && ip[9] == 17 && Checksum(ip) == 0
    requires ip[6] == 64 && ip[7] == 0 && ip[8] == 64
    requires DirectionOf(ip[12..20], FromBe16(udp[..2]), FromBe16(udp[2..4])) == Some(direction)
    requires FromBe16(ip[2..4]) == 28 + |payload| && FromBe16(udp[4..6]) == 8 + |payload|
    ensures ReadIp(ip + udp + payload) == Some((direction, payload))
  {
    IpPart(ip, udp, payload);
    UdpPart(ip, udp, payload);
  }

  lemma DirectionReads(d: Direction)
    ensures DirectionOf(if d == Out then [10, 0, 0, 2, 10, 0, 0, 1] else [10, 0, 0, 1, 10, 0, 0, 2], SourcePort(d), DestinationPort(d)) == Some(d)
  {
  }

  lemma IpReadsBack(p: Packet)
    requires Fits(p)
    ensures RawPacket(p).Ok? && ReadIp(RawPacket(p).value) == Some((p.direction, p.payload))
  {
    var n := |p.payload|;
    IpFields(28 + n, p.direction);
    UdpFields(8 + n, p.direction);
    ReadsBack16(28 + n);
    ReadsBack16(8 + n);
    ReadsBack16(SourcePort(p.direction));
    ReadsBack16(DestinationPort(p.direction));
    DirectionReads(p.direction);
    PartsRead(IpHeader(28 + n, p.direction), UdpHeader(8 + n, p.direction), p.payload, p.direction);
  }

  lemma Quarters(a: seq<Byte>, b: seq<Byte>, c: seq<Byte>, d: seq<Byte>)
    requires |a| == |b| == |c| == |d| == 4
    ensures var s := a + b + c + d; s[..4] == a && s[4..8] == b && s[8..12] == c && s[12..16] == d
  {
  }

  lemma {:induction false} RecordReads(p: Packet, raw: seq<Byte>, rest: seq<Byte>)
    requires |raw| < 0x1_0000_0000
    ensures var b := Record(p, raw) + rest;
            && |b| == 16 + |raw| + |rest|
            && FromLe32(b[..4]) * Million + FromLe32(b[4..8]) == Kept(p).timestampUsec
            && FromLe32(b[8..12]) == |raw| && FromLe32(b[12..16]) == |raw|
            && b[16..16 + |raw|] == raw && b[16 + |raw|..] == rest
  {
    var sec, usec := p.timestampUsec / Million, p.timestampUsec % Million;
    ReadsBack32(sec);
    ReadsBack32(usec);
    ReadsBack32(|raw|);
    RecordLayout(p.timestampUsec, sec, usec, raw, rest);
  }

  lemma {:induction false} RecordLayout(t: int, sec: int, usec: int, raw: seq<Byte>, rest: seq<Byte>)
    requires sec == t / Million && usec == t % Million
    ensures var b := PacketHeader(t, |raw|) + raw + rest;
            && b[..4] == Le32(sec) && b[4..8] == Le32(usec) && b[8..12] == Le32(|raw|) && b[12..16] == Le32(|raw|)
            && b[16..16 + |raw|] == raw && b[16 + |raw|..] == rest
  {
    var h := PacketHeader(t, |raw|);
    HeaderLayout(t, sec, usec, |raw|);
    var b := h + raw + rest;
    assert b[..4] == h[..4] && b[4..8] == h[4..8] && b[8..12] == h[8..12] && b[12..16] == h[12..16];
  }

  lemma HeaderLayout(t: int, sec: int, usec: int, length: nat)
    requires sec == t / Million && usec == t % Million
    ensures var h := PacketHeader(t, length); h[..4] == Le32(sec) && h[4..8] == Le32(usec) && h[8..12] == Le32(length) && h[12..16] == Le32(length)
  {
    assert t - sec * Million == usec;
    Quarters(Le32(sec), Le32(usec), Le32(length), Le32(length));
  }

  /** The writer fails exactly when some payload is too long. */
  lemma {:induction false} WritesIff(ps: seq<Packet>)
    ensures Records(ps).Ok? <==> forall i :: 0 <= i < |ps| ==> Fits(ps[i])
  {
    if ps != [] {
      WritesIff(ps[1..]);
      assert Fits(ps[0]) <==> RawPacket(ps[0]).Ok?;
      assert forall i :: 1 <= i < |ps| ==> ps[i] == ps[1..][i - 1];
    }
  }

  lemma {:induction false} OneRecordReads(b: seq<Byte>, raw: seq<Byte>, rest: seq<Byte>, p: Packet, later: seq<Packet>)
    requires |b| == 16 + |raw| + |rest| && FromLe32(b[8..12]) == |raw| && FromLe32(b[12..16]) == |raw|
    requires b[16..16 + |raw|] == raw && b[16 + |raw|..] == rest
    requires ReadIp(raw) == Some((p.direction, p.payload)) && ReadRecords(rest) == Some(later)
    ensures ReadRecords(b) == Some([Packet(p.direction, p.payload, FromLe32(b[..4]) * Million + FromLe32(b[4..8]))] + later)
  {
  }

  lemma {:induction false} FirstRecordReads(p: Packet, raw: seq<Byte>, rest: seq<Byte>, later: seq<Packet>)
    requires |raw| < 0x1_0000_0000 && ReadIp(raw) == Some((p.direction, p.payload)) && ReadRecords(rest) == Some(later)
    ensures ReadRecords(Record(p, raw) + rest) == Some([Kept(p)] + later)
  {
    RecordReads(p, raw, rest);
    OneRecordReads(Record(p, raw) + rest, raw, rest, p, later);
  }

  lemma {:induction false} MoreRecordsRead(ps: seq<Packet>, raw: seq<Byte>, rest: seq<Byte>)
    requires ps != [] && RawPacket(ps[0]) == Ok(raw) && Records(ps[1..]) == Ok(rest) && |raw| < 0x1_0000_0000
    requires ReadIp(raw) == Some((ps[0].direction, ps[0].payload)) && ReadRecords(rest) == Some(Map(Kept, ps[1..]))
    ensures Records(ps).Ok? && ReadRecords(Records(ps).value) == Some(Map(Kept, ps))
  {
    FirstRecordReads(ps[0], raw, rest, Map(Kept, ps[1..]));
    KeptUnfolds(ps);
  }

  lemma KeptUnfolds(ps: seq<Packet>)
    requires ps != []
    ensures Map(Kept, ps) == [Kept(ps[0])] + Map(Kept, ps[1..])
  {
    MapCons(Kept, ps[0], ps[1..]);
    assert ps == [ps[0]] + ps[1..];
  }

  lemma RawIsShort(p: Packet)
    requires RawPacket(p).Ok?
    ensures |RawPacket(p).value| < 0x1_0000_0000
  {
  }

  lemma {:induction false} RecordsReadBack(ps: seq<Packet>)
    requires forall i :: 0 <= i < |ps| ==> Fits(ps[i])
    ensures Records(ps).Ok? && ReadRecords(Records(ps).value) == Some(Map(Kept, ps))
  {
    if ps != [] {
      RecordsReadBack(ps[1..]);
      IpReadsBack(ps[0]);
      RawIsShort(ps[0]);
      MoreRecordsRead(ps, RawPacket(ps[0]).value, Records(ps[1..]).value);
    } else {
      assert Map(Kept, ps) == [];
    }
  }

  lemma GlobalLayout(a: seq<Byte>, b: seq<Byte>, c: seq<Byte>, d: seq<Byte>, e: seq<Byte>, f: seq<Byte>)
    requires |a| == |d| == |e| == |f| == 4 && |b| == |c| == 2
    ensures var s := a + b + c + d + d + e + f; s[..4] == a && s[4..8] == b + c && s[16..20] == e && s[20..24] == f
  {
  }

  lemma FieldsBefore(h: seq<Byte>, rest: seq<Byte>)
    requires |h| == 24
    ensures var b := h + rest; b[..4] == h[..4] && b[4..8] == h[4..8] && b[16..20] == h[16..20] && b[20..24] == h[20..24] && b[24..] == rest
  {
  }

  lemma GlobalFields()
    ensures var h := GlobalHeader(); h[..4] == Le32(Magic) && h[4..8] == [2, 0, 4, 0] && h[16..20] == Le32(65535) && h[20..24] == Le32(LinkTypeRaw)
  {
    GlobalLayout(Le32(Magic), Le16(2), Le16(4), Le32(0), Le32(65535), Le32(LinkTypeRaw));
  }

  lemma {:induction false} HeaderReads(h: seq<Byte>, rest: seq<Byte>)
    requires |h| == 24 && FromLe32(h[..4]) == Magic && h[4..8] == [2, 0, 4, 0] && FromLe32(h[16..20]) == 65535 && FromLe32(h[20..24]) == LinkTypeRaw
    ensures ReadPcap(h + rest) == ReadRecords(rest)
  {
    FieldsBefore(h, rest);
  }

  lemma {:induction false} GlobalHeaderReads(rest: seq<Byte>)
    ensures ReadPcap(GlobalHeader() + rest) == ReadRecords(rest)
  {
    GlobalFields();
    var h := GlobalHeader();
    ReadsWord(h[..4], Magic);
    ReadsWord(h[16..20], 65535);
    ReadsWord(h[20..24], LinkTypeRaw);
    HeaderReads(h, rest);
  }

  /**
   * The writer succeeds if and only if every payload fits; the reader, which also checks the version,
   * every IPv4 checksum, the addresses and the ports, then recovers each packet's payload and direction, and its time up to 2^32 seconds:
   * the very packets, exactly when all times lie in that range.
   */
  lemma PcapRoundTrip(ps: seq<Packet>)
    ensures Pcap(ps).Ok? <==> forall i :: 0 <= i < |ps| ==> Fits(ps[i])
    ensures Pcap(ps).Ok? ==> ReadPcap(Pcap(ps).value) == Some(Map(Kept, ps))
    ensures Pcap(ps).Ok? ==>
              (ReadPcap(Pcap(ps).value) == Some(ps)
               <==> forall i :: 0 <= i < |ps| ==> 0 <= ps[i].timestampUsec < 0x1_0000_0000 * Million)
  {
    WritesIff(ps);
    if Pcap(ps).Ok? {
      RecordsReadBack(ps);
      GlobalHeaderReads(Records(ps).value);
      forall i | 0 <= i < |ps| ensures Kept(ps[i]) == ps[i] <==> 0 <= ps[i].timestampUsec < 0x1_0000_0000 * Million { KeptIff(ps[i]); }
      var kept := Map(Kept, ps);
      assert kept == ps <==> forall i :: 0 <= i < |ps| ==> kept[i] == ps[i];
    }
  }
}

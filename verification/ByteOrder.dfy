/** The htonll/ntohll macros and hton_header, on hosts of either endianness
    (N-Channel-StopNWait/utils.h). */
module ByteOrder {

  datatype Endian = Little | Big

  /** htonl and ntohl: the identity on a big-endian host, a byte swap on a little-endian one. */
  function Htonl(host: Endian, x: bv32): bv32 {
    if host.Big? then x
    else (x << 24) | ((x << 8) & 0x00FF_0000) | ((x >> 8) & 0x0000_FF00) | (x >> 24)
  }

  /** The macros htonll and ntohll, which are textually the same expression. */
  function Htonll(host: Endian, x: bv64): bv64 {
    if Htonl(host, 1) == 1 then x
    else
      var low := (x & 0xFFFF_FFFF) as bv32;
      var high := (x >> 32) as bv32;
      ((Htonl(host, low) as bv64) << 32) | (Htonl(host, high) as bv64)
  }

  /** The eight bytes a 64-bit value occupies in the memory of the host, lowest address first. */
  function Memory(host: Endian, x: bv64): (m: seq<bv8>)
    ensures |m| == 8
  {
    if host.Big? then BigEndian(x) else LittleEndian(x)
  }

  /** Most significant octet first (Appendix B of RFC 791). */
  function BigEndian(x: bv64): (m: seq<bv8>)
    ensures |m| == 8
  {
    [((x >> 56) & 0xFF) as bv8, ((x >> 48) & 0xFF) as bv8, ((x >> 40) & 0xFF) as bv8, ((x >> 32) & 0xFF) as bv8,
     ((x >> 24) & 0xFF) as bv8, ((x >> 16) & 0xFF) as bv8, ((x >> 8) & 0xFF) as bv8, (x & 0xFF) as bv8]
  }

  function LittleEndian(x: bv64): (m: seq<bv8>)
    ensures |m| == 8
  {
    [(x & 0xFF) as bv8, ((x >> 8) & 0xFF) as bv8, ((x >> 16) & 0xFF) as bv8, ((x >> 24) & 0xFF) as bv8,
     ((x >> 32) & 0xFF) as bv8, ((x >> 40) & 0xFF) as bv8, ((x >> 48) & 0xFF) as bv8, ((x >> 56) & 0xFF) as bv8]
  }

  /** ntohll undoes htonll for every 64-bit value, on both kinds of host. */
  lemma RoundTrip(host: Endian, x: bv64)
    ensures Htonll(host, Htonll(host, x)) == x
  {
  }

  /** Whatever the host, the image of htonll(x) in memory is big-endian. */
  lemma NetworkOrder(host: Endian, x: bv64)
    ensures Memory(host, Htonll(host, x)) == BigEndian(x)
  {
  }

  /** The value whose octets, most significant first, are those of m. */
  function FromOctets(m: seq<bv8>): bv64
    requires |m| == 8
  {
    ((m[0] as bv64) << 56) | ((m[1] as bv64) << 48) | ((m[2] as bv64) << 40) | ((m[3] as bv64) << 32)
    | ((m[4] as bv64) << 24) | ((m[5] as bv64) << 16) | ((m[6] as bv64) << 8) | (m[7] as bv64)
  }

  /** Reading the octets back gives the value, so they determine it. */
  lemma FromBigEndian(x: bv64)
    ensures FromOctets(BigEndian(x)) == x
  {
  }

  /** The most significant octet comes first. */
  lemma OctetOrder()
    ensures BigEndian(0x0102_0304_0506_0708) == [1, 2, 3, 4, 5, 6, 7, 8]
    ensures FromOctets([1, 2, 3, 4, 5, 6, 7, 8]) == 0x0102_0304_0506_0708
  {
  }

  /** The struct Header with its fields in host order. */
  datatype HostHeader = HostHeader(size: bv64, seqNo: bv64, isLast: bv8, kind: bv8, channel: bv8)

  /** The 19 bytes of a header on the wire. */
  function Wire(h: HostHeader): (m: seq<bv8>)
    ensures |m| == 19
  {
    BigEndian(h.size) + BigEndian(h.seqNo) + [h.isLast, h.kind, h.channel]
  }

  /** Where the fields of a header are found. */
  lemma WireFields(m: seq<bv8>, h: HostHeader)
    requires m == Wire(h)
    ensures FromOctets(m[0..8]) == h.size && FromOctets(m[8..16]) == h.seqNo
    ensures m[16] == h.isLast && m[17] == h.kind && m[18] == h.channel
  {
    hide BigEndian, FromOctets;
    assert m[0..8] == BigEndian(h.size) && m[8..16] == BigEndian(h.seqNo);
    FromBigEndian(h.size);
    FromBigEndian(h.seqNo);
  }

  /** memcpy(buffer + at, bytes, |bytes|). */
  method MemCpy(buffer: array<bv8>, at: nat, bytes: seq<bv8>)
    requires at + |bytes| <= buffer.Length
    modifies buffer
    ensures forall j :: 0 <= j < buffer.Length ==>
      buffer[j] == if at <= j < at + |bytes| then bytes[j - at] else old(buffer[j])
  {
    for k := 0 to |bytes|
      invariant forall j :: 0 <= j < buffer.Length ==>
        buffer[j] == if at <= j < at + k then bytes[j - at] else old(buffer[j])
    {
      buffer[at + k] := bytes[k];
    }
  }

  /** hton_header produces the same 19 bytes on every host and touches nothing else. */
  method HtonHeader(host: Endian, h: HostHeader, buffer: array<bv8>)
    requires buffer.Length >= 19
    modifies buffer
    ensures buffer[..19] == Wire(h)
    ensures FromOctets(buffer[0..8]) == h.size && FromOctets(buffer[8..16]) == h.seqNo
    ensures buffer[16] == h.isLast && buffer[17] == h.kind && buffer[18] == h.channel
    ensures forall j :: 19 <= j < buffer.Length ==> buffer[j] == old(buffer[j])
  {
    hide BigEndian, Memory, Htonll, FromOctets;
    NetworkOrder(host, h.size);
    NetworkOrder(host, h.seqNo);
    MemCpy(buffer, 0, Memory(host, Htonll(host, h.size)));
    MemCpy(buffer, 8, Memory(host, Htonll(host, h.seqNo)));
    MemCpy(buffer, 16, [h.isLast]);
    MemCpy(buffer, 17, [h.kind]);
    MemCpy(buffer, 18, [h.channel]);
    assert buffer[..19] == Wire(h);
    WireFields(buffer[..19], h);
    assert buffer[..19][0..8] == buffer[0..8] && buffer[..19][8..16] == buffer[8..16];
  }

  /** Different headers never share a wire image. */
  lemma WireInjective(h: HostHeader, g: HostHeader)
    requires Wire(h) == Wire(g)
    ensures h == g
  {
    hide BigEndian, FromOctets;
    assert Wire(h)[..8] == BigEndian(h.size) && Wire(g)[..8] == BigEndian(g.size);
    assert Wire(h)[8..16] == BigEndian(h.seqNo) && Wire(g)[8..16] == BigEndian(g.seqNo);
    FromBigEndian(h.size);
    FromBigEndian(g.size);
    FromBigEndian(h.seqNo);
    FromBigEndian(g.seqNo);
    assert Wire(h)[16] == h.isLast && Wire(h)[17] == h.kind && Wire(h)[18] == h.channel;
    assert Wire(g)[16] == g.isLast && Wire(g)[17] == g.kind && Wire(g)[18] == g.channel;
  }
}

/** The ArtDmx (OpDmx, OpCode 0x5000) packet of the Art-Net 4 protocol as
    `ArtNetSender` builds it, the padding and length check of `send_dmx`,
    and the dummy DMX pattern. The socket is left out: `SendDmx` returns the
    packet it would hand to it. */
module ArtNet {
  import opened Wrappers
  import opened Bytes

  const ArtNetPort: int := 6454
  /** Channels in one DMX universe. */
  const UniverseSize: nat := 512
  /** Bytes before the DMX data. */
  const ArtDmxHeaderSize: nat := 18
  const OpDmx: int := 0x5000
  const ProtocolVersion: int := 14

  /** "Art-Net" followed by a zero byte. */
  const PacketId: seq<byte> := [0x41, 0x72, 0x74, 0x2D, 0x4E, 0x65, 0x74, 0x00]

  /** What an ArtDmx packet carries. */
  datatype ArtDmx = ArtDmx(universe: int, data: seq<byte>)

  datatype DmxError = TooManyChannels(length: nat)

  /** The packet `_build_packet` produces: ID, OpCode (low byte first),
      protocol version (high byte first), sequence 0, physical 0, the
      universe masked to 16 bits (low byte first), the data length masked to
      16 bits (high byte first), then the data. */
  function ArtDmxPacket(universe: int, data: seq<byte>): (r: seq<byte>)
    ensures |r| == ArtDmxHeaderSize + |data|
    ensures r[..8] == PacketId && r[ArtDmxHeaderSize..] == data
  {
    PacketId + LE16(OpDmx) + BE16(ProtocolVersion) + [0, 0]
      + LE16(universe % U16) + BE16(|data| % U16) + data
  }

  /** A receiver's reading of an ArtDmx packet: the fixed fields must match,
      and the length field must equal the number of data bytes. */
  function ParseArtDmx(p: seq<byte>): (r: Option<ArtDmx>)
    ensures r.Some? ==> |p| >= ArtDmxHeaderSize && r.value.data == p[ArtDmxHeaderSize..]
    ensures r.Some? ==> 0 <= r.value.universe < U16 && |r.value.data| < U16
  {
    if |p| < ArtDmxHeaderSize then None
    else if p[..8] != PacketId || p[8..10] != [0x00, 0x50] || p[10..12] != [0x00, 0x0E] || p[12..14] != [0, 0] then None
    else if ReadBE16(p[16..18]) != |p| - ArtDmxHeaderSize then None
    else Some(ArtDmx(ReadLE16(p[14..16]), p[ArtDmxHeaderSize..]))
  }

  /** A packet for fewer than 65536 data bytes is read back as its universe
      (modulo 2^16) and its data. */
  lemma ParseBuilt(universe: int, data: seq<byte>)
    requires |data| < U16
    ensures ParseArtDmx(ArtDmxPacket(universe, data)) == Some(ArtDmx(universe % U16, data))
  {
    var p := ArtDmxPacket(universe, data);
    assert p[..8] == PacketId;
    assert p[8..10] == LE16(OpDmx);
    assert p[10..12] == BE16(ProtocolVersion);
    assert p[12..14] == [0, 0];
    assert p[14..16] == LE16(universe % U16);
    assert p[16..18] == BE16(|data| % U16);
    LE16RoundTrip(universe % U16);
    BE16RoundTrip(|data| % U16);
  }

  /** Every packet the reader accepts is the one built from what it read. */
  lemma BuiltFromParsed(p: seq<byte>)
    requires ParseArtDmx(p).Some?
    ensures ArtDmxPacket(ParseArtDmx(p).value.universe, ParseArtDmx(p).value.data) == p
  {
    var x := ParseArtDmx(p).value;
    ReadLE16Inverse(p[14..16]);
    ReadBE16Inverse(p[16..18]);
    assert LE16(OpDmx) == p[8..10] && BE16(ProtocolVersion) == p[10..12];
    assert LE16(x.universe % U16) == p[14..16];
    assert BE16(|x.data| % U16) == p[16..18];
    SplitHeader(p);
  }

  /** A packet is its header fields followed by its data. */
  lemma SplitHeader(p: seq<byte>)
    requires |p| >= ArtDmxHeaderSize
    ensures p == p[..8] + p[8..10] + p[10..12] + p[12..14] + p[14..16] + p[16..18] + p[ArtDmxHeaderSize..]
  {
  }


  /** `_build_packet`: the packet is extended field by field. */
  method BuildPacket(universe: int, data: seq<byte>) returns (packet: seq<byte>)
    ensures packet == ArtDmxPacket(universe, data)
  {
    packet := PacketId;
    packet := packet + LE16(OpDmx);
    packet := packet + BE16(ProtocolVersion);
    packet := packet + [0, 0];
    packet := packet + LE16(universe % U16);
    var length := |data|;
    packet := packet + BE16(length % U16);
    packet := packet + data;
  }

  /** The data `send_dmx` sends: absent data is a universe of zeros, more
      than 512 bytes is refused, and shorter data is padded with zeros. */
  function PaddedDmx(data: Option<seq<byte>>): (r: Result<seq<byte>, DmxError>)
    ensures data.None? ==> r == Ok(Zeros(UniverseSize))
    ensures data.Some? ==> (r.Err? <==> |data.value| > UniverseSize)
    ensures r.Ok? ==> |r.value| == UniverseSize
    ensures r.Ok? && data.Some? ==> r.value[..|data.value|] == data.value
    ensures r.Ok? && data.Some? ==> forall i :: |data.value| <= i < UniverseSize ==> r.value[i] == 0
  {
    var d := data.GetOr(Zeros(UniverseSize));
    if |d| > UniverseSize then Err(TooManyChannels(|d|))
    else
      assert data.None? ==> d + Zeros(UniverseSize - |d|) == Zeros(UniverseSize);
      Ok(d + Zeros(UniverseSize - |d|))
  }

  /** `send_dmx` with the socket as a sink: the packet it would send, or the
      error it raises before building one. */
  method SendDmx(universe: int, data: Option<seq<byte>>) returns (r: Result<seq<byte>, DmxError>)
    ensures r.Err? <==> data.Some? && |data.value| > UniverseSize
    ensures r.Ok? ==> |r.value| == ArtDmxHeaderSize + UniverseSize && r.value[16..18] == [0x02, 0x00]
    ensures r.Ok? ==> ParseArtDmx(r.value) == Some(ArtDmx(universe % U16, PaddedDmx(data).value))
  {
    var d := data.GetOr(Zeros(UniverseSize));
    if |d| > UniverseSize {
      return Err(TooManyChannels(|d|));
    }
    var padded := d + Zeros(UniverseSize - |d|);
    assert Ok(padded) == PaddedDmx(data);
    var packet := BuildPacket(universe, padded);
    ParseBuilt(universe, padded);
    assert packet[16..18] == BE16(UniverseSize);
    r := Ok(packet);
  }

  /** `generate_dummy_dmx`: a universe whose channel i holds 3i mod 256. */
  method GenerateDummyDmx() returns (r: seq<byte>)
    ensures |r| == UniverseSize
    ensures forall i :: 0 <= i < UniverseSize ==> r[i] == (3 * i) % 256
  {
    var data := new byte[UniverseSize];
    for i := 0 to UniverseSize
      invariant forall j :: 0 <= j < i ==> data[j] == (3 * j) % 256
    {
      data[i] := (i * 3) % 256;
    }
    r := data[..];
  }
}

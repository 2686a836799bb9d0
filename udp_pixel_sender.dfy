/** The pixel-over-UDP wire format: a 12-byte network-order header
    `{output_id:16, pixel_count:16, frame_index:32, chunk_index:16,
    total_chunks:16}` before each MTU-sized slice of an RGB payload, and
    the dummy gradient patterns of `UDPPixelSender`. */
module PixelSender {
  import opened Bytes

  /** `struct.calcsize("!HHIHH")` */
  const HeaderSize: nat := 12

  const DefaultMtu: int := 1400

  datatype Header = Header(outputId: int, pixelCount: int, frameIndex: int, chunkIndex: int, totalChunks: int)

  /** `struct.pack("!HHIHH", ...)` of the five fields, each masked to its
      width with `& 0xFFFF` or `& 0xFFFFFFFF`. */
  function EncodeHeader(h: Header): (r: seq<byte>)
    ensures |r| == HeaderSize
  {
    BE16(h.outputId % U16) + BE16(h.pixelCount % U16) + BE32(h.frameIndex % U32)
      + BE16(h.chunkIndex % U16) + BE16(h.totalChunks % U16)
  }

  /** How a receiver reads the header back. */
  function DecodeHeader(b: seq<byte>): Header
    requires |b| >= HeaderSize
  {
    Header(ReadBE16(b[0..2]), ReadBE16(b[2..4]), ReadBE32(b[4..8]), ReadBE16(b[8..10]), ReadBE16(b[10..12]))
  }

  /** Decoding an encoded header gives back every field reduced to its
      width. */
  lemma HeaderRoundTrip(h: Header)
    ensures DecodeHeader(EncodeHeader(h)) ==
      Header(h.outputId % U16, h.pixelCount % U16, h.frameIndex % U32, h.chunkIndex % U16, h.totalChunks % U16)
  {
    var b := EncodeHeader(h);
    assert b[0..2] == BE16(h.outputId % U16);
    assert b[2..4] == BE16(h.pixelCount % U16);
    assert b[4..8] == BE32(h.frameIndex % U32);
    assert b[8..10] == BE16(h.chunkIndex % U16);
    assert b[10..12] == BE16(h.totalChunks % U16);
    BE16RoundTrip(h.outputId % U16);
    BE16RoundTrip(h.pixelCount % U16);
    BE32RoundTrip(h.frameIndex % U32);
    BE16RoundTrip(h.chunkIndex % U16);
    BE16RoundTrip(h.totalChunks % U16);
  }

  /** `_chunk_payload`: bytes per packet and the number of packets. */
  datatype ChunkPlan = ChunkPlan(maxPerPacket: nat, totalChunks: nat, length: nat)

  function ChunkPayload(mtu: int, length: nat): (r: ChunkPlan)
    ensures r.maxPerPacket >= 1 && r.length == length
    ensures mtu - HeaderSize >= 1 ==> r.maxPerPacket == mtu - HeaderSize
    ensures mtu - HeaderSize < 1 ==> r.maxPerPacket == 1
    ensures r.totalChunks * r.maxPerPacket >= length
    ensures r.totalChunks > 0 ==> (r.totalChunks - 1) * r.maxPerPacket < length
  {
    var m: nat := if mtu - HeaderSize >= 1 then mtu - HeaderSize else 1;
    var total := (length + m - 1) / m;
    CeilDiv(length, m);
    ChunkPlan(m, total, length)
  }

  /** `(n + m - 1) / m` is the ceiling of `n / m`. */
  lemma CeilDiv(n: nat, m: nat)
    requires m >= 1
    ensures ((n + m - 1) / m) * m >= n
    ensures (n + m - 1) / m > 0 ==> ((n + m - 1) / m - 1) * m < n
  {
    var q := (n + m - 1) / m;
    var rem := (n + m - 1) % m;
    assert q * m + rem == n + m - 1;
  }

  /** The empty payload is sent as no packet at all. */
  lemma EmptyPayloadHasNoChunks(mtu: int)
    ensures ChunkPayload(mtu, 0).totalChunks == 0
  {
  }

  /** Chunk `k` of the payload. */
  function ChunkData(payload: seq<byte>, m: nat, k: nat): seq<byte>
  {
    Slice(payload, k * m, k * m + m)
  }

  /** Packet `k` of a frame: the shared header fields, this chunk's index,
      then its data. */
  function FramePacket(payload: seq<byte>, plan: ChunkPlan, outputId: int, frameIndex: int, k: nat): seq<byte>
  {
    EncodeHeader(Header(outputId, |payload| / 3, frameIndex, k, plan.totalChunks))
      + ChunkData(payload, plan.maxPerPacket, k)
  }

  /** Every packet `send_frame` hands to the socket, in order. */
  function FramePackets(mtu: int, payload: seq<byte>, outputId: int, frameIndex: int): seq<seq<byte>>
  {
    var plan := ChunkPayload(mtu, |payload|);
    seq(plan.totalChunks, k requires 0 <= k => FramePacket(payload, plan, outputId, frameIndex, k))
  }

  /** The data part of each packet. */
  function Bodies(packets: seq<seq<byte>>): (r: seq<seq<byte>>)
    requires forall i :: 0 <= i < |packets| ==> |packets[i]| >= HeaderSize
    ensures |r| == |packets|
  {
    seq(|packets|, i requires 0 <= i < |packets| => packets[i][HeaderSize..])
  }

  lemma ChunkStartInside(plan: ChunkPlan, k: nat)
    requires plan.maxPerPacket >= 1 && k < plan.totalChunks
    requires (plan.totalChunks - 1) * plan.maxPerPacket < plan.length
    ensures k * plan.maxPerPacket < plan.length
  {
    MulLe(k, plan.totalChunks - 1, plan.maxPerPacket);
  }

  lemma MulLe(a: nat, b: nat, m: nat)
    requires a <= b
    ensures a * m <= b * m
  {
  }

  /** Every chunk is non-empty and all but the last carry exactly
      `maxPerPacket` bytes, so no packet exceeds the header plus that. */
  lemma ChunkSizes(mtu: int, payload: seq<byte>, outputId: int, frameIndex: int, k: nat)
    requires k < |FramePackets(mtu, payload, outputId, frameIndex)|
    ensures var plan := ChunkPayload(mtu, |payload|);
      var data := FramePackets(mtu, payload, outputId, frameIndex)[k][HeaderSize..];
      0 < |data| <= plan.maxPerPacket &&
      (k + 1 < plan.totalChunks ==> |data| == plan.maxPerPacket) &&
      |FramePackets(mtu, payload, outputId, frameIndex)[k]| <= HeaderSize + plan.maxPerPacket
  {
    var plan := ChunkPayload(mtu, |payload|);
    var m := plan.maxPerPacket;
    ChunkStartInside(plan, k);
    if k + 1 < plan.totalChunks {
      ChunkStartInside(plan, k + 1);
      assert (k + 1) * m == k * m + m;
    }
    var p := FramePackets(mtu, payload, outputId, frameIndex)[k];
    assert p[HeaderSize..] == ChunkData(payload, m, k);
  }

  /** Every packet of a frame carries the same output id, pixel count,
      frame index and chunk total, and packet `k` carries index `k`. */
  lemma PacketHeaders(mtu: int, payload: seq<byte>, outputId: int, frameIndex: int, k: nat)
    requires k < |FramePackets(mtu, payload, outputId, frameIndex)|
    ensures var p := FramePackets(mtu, payload, outputId, frameIndex)[k];
      |p| >= HeaderSize &&
      DecodeHeader(p) == Header(outputId % U16, (|payload| / 3) % U16, frameIndex % U32, k % U16,
        ChunkPayload(mtu, |payload|).totalChunks % U16)
  {
    var plan := ChunkPayload(mtu, |payload|);
    var h := Header(outputId, |payload| / 3, frameIndex, k, plan.totalChunks);
    var p := FramePackets(mtu, payload, outputId, frameIndex)[k];
    assert p == EncodeHeader(h) + ChunkData(payload, plan.maxPerPacket, k);
    assert p[..HeaderSize] == EncodeHeader(h);
    HeaderRoundTrip(h);
    assert DecodeHeader(p) == DecodeHeader(p[..HeaderSize]);
  }

  /** The first `j` chunks, concatenated, are the first `min(j * m, len)`
      bytes of the payload. */
  /** The data of the first `j` chunks. */
  function ChunkList(payload: seq<byte>, m: nat, j: nat): (r: seq<seq<byte>>)
    ensures |r| == j && forall k :: 0 <= k < j ==> r[k] == ChunkData(payload, m, k)
  {
    seq(j, k requires 0 <= k => ChunkData(payload, m, k))
  }

  lemma {:induction false} ChunksPrefix(payload: seq<byte>, m: nat, j: nat)
    requires m >= 1
    ensures Flatten(ChunkList(payload, m, j)) == payload[..MinN(j * m, |payload|)]
  {
    if j == 0 {
      assert ChunkList(payload, m, j) == [];
    } else {
      ChunksPrefix(payload, m, j - 1);
      FlattenChunksSnoc(payload, m, j);
      var lo, hi := LastChunk(payload, m, j);
      PrefixJoin(payload, lo, hi);
    }
  }

  lemma FlattenChunksSnoc(payload: seq<byte>, m: nat, j: nat)
    requires j >= 1
    ensures Flatten(ChunkList(payload, m, j))
      == Flatten(ChunkList(payload, m, j - 1)) + ChunkData(payload, m, j - 1)
  {
    assert ChunkList(payload, m, j)[..j - 1] == ChunkList(payload, m, j - 1);
  }

  lemma PrefixJoin(s: seq<byte>, lo: int, hi: int)
    requires 0 <= lo <= hi <= |s|
    ensures s[..lo] + s[lo..hi] == s[..hi]
  {
  }


  lemma LastChunk(payload: seq<byte>, m: nat, j: nat) returns (lo: nat, hi: nat)
    requires m >= 1 && j >= 1
    ensures lo == MinN((j - 1) * m, |payload|) && hi == MinN(j * m, |payload|)
    ensures lo <= hi <= |payload|
    ensures ChunkData(payload, m, j - 1) == payload[lo..hi]
  {
    MulSucc(j - 1, m);
    lo, hi := MinN((j - 1) * m, |payload|), MinN(j * m, |payload|);
  }

  lemma MulSucc(a: nat, m: nat)
    ensures (a + 1) * m == a * m + m
  {
  }

  /** Concatenating the packets' data in order gives back the payload. */
  lemma ReassemblyRestoresPayload(mtu: int, payload: seq<byte>, outputId: int, frameIndex: int)
    ensures var packets := FramePackets(mtu, payload, outputId, frameIndex);
      (forall i :: 0 <= i < |packets| ==> |packets[i]| >= HeaderSize) &&
      Flatten(Bodies(packets)) == payload
  {
    var plan := ChunkPayload(mtu, |payload|);
    var packets := FramePackets(mtu, payload, outputId, frameIndex);
    var chunks := ChunkList(payload, plan.maxPerPacket, plan.totalChunks);
    forall k | 0 <= k < plan.totalChunks
      ensures |packets[k]| >= HeaderSize && packets[k][HeaderSize..] == chunks[k]
    {
      BodyOfPacket(payload, plan, outputId, frameIndex, k);
    }
    assert Bodies(packets) == chunks;
    ChunksPrefix(payload, plan.maxPerPacket, plan.totalChunks);
    assert MinN(plan.totalChunks * plan.maxPerPacket, |payload|) == |payload|;
  }

  lemma BodyOfPacket(payload: seq<byte>, plan: ChunkPlan, outputId: int, frameIndex: int, k: nat)
    ensures var p := FramePacket(payload, plan, outputId, frameIndex, k);
      |p| >= HeaderSize && p[HeaderSize..] == ChunkData(payload, plan.maxPerPacket, k)
  {
  }

  /** `send_frame` with the socket as a sink: the packets sent, in order.
      The chunk is cut at the running `offset`, which advances by the length
      of each chunk sent. */
  method SendFrame(mtu: int, pixelPayload: seq<byte>, outputId: int, frameIndex: int)
    returns (sent: seq<seq<byte>>)
    ensures sent == FramePackets(mtu, pixelPayload, outputId, frameIndex)
  {
    var pixelCount := |pixelPayload| / 3;
    var plan := ChunkPayload(mtu, |pixelPayload|);
    var maxPayloadPerPacket, totalChunks := plan.maxPerPacket, plan.totalChunks;
    sent := [];
    var offset := 0;
    for chunkIndex := 0 to totalChunks
      invariant chunkIndex < totalChunks ==> offset == chunkIndex * maxPayloadPerPacket
      invariant sent == seq(chunkIndex, k requires 0 <= k => FramePacket(pixelPayload, plan, outputId, frameIndex, k))
    {
      var chunk := Slice(pixelPayload, offset, offset + maxPayloadPerPacket);
      var header := EncodeHeader(Header(outputId, pixelCount, frameIndex, chunkIndex, totalChunks));
      sent := sent + [header + chunk];
      ChunkStartInside(plan, chunkIndex);
      if chunkIndex + 1 < totalChunks {
        ChunkStartInside(plan, chunkIndex + 1);
      }
      assert |chunk| == maxPayloadPerPacket || chunkIndex + 1 == totalChunks;
      offset := offset + |chunk|;
    }
  }

  /** Gradient level of pixel `i` of `n`: `int(i / max(1, n - 1) * 255)`,
      taken exactly. */
  function Gradient(i: nat, n: nat): nat
  {
    (i * 255) / (if n >= 2 then n - 1 else 1)
  }

  lemma GradientRange(i: nat, n: nat)
    requires i < n
    ensures 0 <= Gradient(i, n) <= 255
    ensures i == 0 ==> Gradient(i, n) == 0
    ensures n >= 2 && i == n - 1 ==> Gradient(i, n) == 255
  {
    var d := if n >= 2 then n - 1 else 1;
    assert i <= d;
    MulLe(i, d, 255);
    assert i * 255 <= d * 255;
    DivBound(i * 255, d, 255);
  }

  lemma DivBound(x: nat, d: nat, c: nat)
    requires d >= 1 && x <= d * c
    ensures x / d <= c
  {
    var q := x / d;
    assert q * d + x % d == x;
    assert x < (c + 1) * d;
    if q >= c + 1 {
      MulLe(c + 1, q, d);
    }
  }

  /** The red, green and blue bytes of one pixel at gradient level `t`. */
  function PixelColour(channelIndex: int, t: nat): (rgb: seq<byte>)
    requires t <= 255
    ensures |rgb| == 3
  {
    if channelIndex == 0 then [t, 0, 0]
    else if channelIndex == 1 then [0, t, 0]
    else if channelIndex == 2 then [0, 0, t]
    else [t, 255 - t, (t * 2) % 256]
  }

  /** The pattern `generate_dummy_pixel_data` fills: pixel `i` of `n`. */
  function DummyPixel(n: nat, channelIndex: int, i: nat): (rgb: seq<byte>)
    requires i < n
    ensures |rgb| == 3
  {
    GradientRange(i, n);
    PixelColour(channelIndex, Gradient(i, n))
  }

  /** The whole dummy frame of `n` pixels: byte `j` is component `j % 3` of
      pixel `j / 3`. */
  function DummyPixelData(n: nat, channelIndex: int): (r: seq<byte>)
    ensures |r| == 3 * n
  {
    seq(3 * n, j requires 0 <= j < 3 * n => DummyPixel(n, channelIndex, j / 3)[j % 3])
  }

  /** `generate_dummy_pixel_data(pixel_count, channel_index)`: one RGB
      triple per pixel, appended in order. */
  method GenerateDummyPixelData(pixelCount: int, channelIndex: int) returns (data: seq<byte>)
    ensures pixelCount >= 0 ==> |data| == 3 * pixelCount
    ensures pixelCount < 0 ==> data == []
    ensures forall i :: 0 <= i < pixelCount ==> data[3 * i .. 3 * i + 3] == DummyPixel(pixelCount, channelIndex, i)
    ensures pixelCount >= 0 ==> data == DummyPixelData(pixelCount, channelIndex)
  {
    data := [];
    var n := if pixelCount < 0 then 0 else pixelCount;
    for i := 0 to n
      invariant |data| == 3 * i
      invariant forall j :: 0 <= j < i ==> data[3 * j .. 3 * j + 3] == DummyPixel(n, channelIndex, j)
    {
      GradientRange(i, n);
      var t := Gradient(i, n);
      var r, g, b;
      if channelIndex == 0 {
        r, g, b := t, 0, 0;
      } else if channelIndex == 1 {
        r, g, b := 0, t, 0;
      } else if channelIndex == 2 {
        r, g, b := 0, 0, t;
      } else {
        r, g, b := t, 255 - t, (t * 2) % 256;
      }
      ColourOfPixel(n, channelIndex, i, r, g, b);
      var rgb := [r % 256, g % 256, b % 256];
      AppendPixel(data, rgb, n, channelIndex, i);
      data := data + rgb;
    }
    if pixelCount >= 0 {
      PixelsMakeFrame(data, n, channelIndex);
    }
  }

  /** The bytes the loop computes for pixel `i`, masked to 8 bits, are its
      dummy colour. */
  lemma ColourOfPixel(n: nat, channelIndex: int, i: nat, r: int, g: int, b: int)
    requires i < n
    requires channelIndex == 0 ==> r == Gradient(i, n) && g == 0 && b == 0
    requires channelIndex == 1 ==> r == 0 && g == Gradient(i, n) && b == 0
    requires channelIndex == 2 ==> r == 0 && g == 0 && b == Gradient(i, n)
    requires channelIndex !in {0, 1, 2} ==> r == Gradient(i, n) && g == 255 - Gradient(i, n) && b == (Gradient(i, n) * 2) % 256
    ensures [r % 256, g % 256, b % 256] == DummyPixel(n, channelIndex, i)
  {
    GradientRange(i, n);
  }

  /** Appending pixel `i` to the first `i` pixels gives the first `i + 1`. */
  lemma AppendPixel(data: seq<byte>, rgb: seq<byte>, n: nat, channelIndex: int, i: nat)
    requires i < n && |data| == 3 * i
    requires forall j :: 0 <= j < i ==> data[3 * j .. 3 * j + 3] == DummyPixel(n, channelIndex, j)
    requires rgb == DummyPixel(n, channelIndex, i)
    ensures forall j :: 0 <= j < i + 1 ==> (data + rgb)[3 * j .. 3 * j + 3] == DummyPixel(n, channelIndex, j)
  {
    var next := data + rgb;
    forall j | 0 <= j < i + 1 ensures next[3 * j .. 3 * j + 3] == DummyPixel(n, channelIndex, j) {
      if j < i {
        assert next[3 * j .. 3 * j + 3] == data[3 * j .. 3 * j + 3];
      } else {
        assert next[3 * j .. 3 * j + 3] == rgb;
      }
    }
  }

  lemma PixelsMakeFrame(data: seq<byte>, n: nat, channelIndex: int)
    requires |data| == 3 * n
    requires forall i :: 0 <= i < n ==> data[3 * i .. 3 * i + 3] == DummyPixel(n, channelIndex, i)
    ensures data == DummyPixelData(n, channelIndex)
  {
    var frame := DummyPixelData(n, channelIndex);
    forall j | 0 <= j < 3 * n
      ensures data[j] == frame[j]
    {
      var i := j / 3;
      assert 3 * i <= j < 3 * i + 3;
      assert data[j] == data[3 * i .. 3 * i + 3][j % 3];
    }
  }

  /** Each dummy pixel: channel 0, 1 or 2 puts the gradient level in red,
      green or blue; any other channel mixes it; the first pixel is level 0
      and, with two or more pixels, the last is level 255. */
  lemma DummyPixelColours(n: nat, channelIndex: int, i: nat)
    requires i < n
    ensures var t := Gradient(i, n);
      var px := DummyPixel(n, channelIndex, i);
      t <= 255 &&
      (channelIndex == 0 ==> px == [t, 0, 0]) &&
      (channelIndex == 1 ==> px == [0, t, 0]) &&
      (channelIndex == 2 ==> px == [0, 0, t]) &&
      (channelIndex !in {0, 1, 2} ==> px == [t, 255 - t, (2 * t) % 256]) &&
      (i == 0 ==> t == 0) && (n >= 2 && i == n - 1 ==> t == 255)
  {
    GradientRange(i, n);
  }
}

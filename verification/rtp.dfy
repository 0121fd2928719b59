/** RTP packets (section 5.1 of RFC 3550) cut from a program stream, and a reference receiver. */
module Rtp {
  import opened Bytes

  const HEADER_SIZE := 12
  const MAX_PAYLOAD := 1400

  function Chunk(n: int): int { if n > MAX_PAYLOAD then MAX_PAYLOAD else n }

  function NextSeq(s: int): int { if s < 65535 then s + 1 else 0 }

  /** The fields that stay the same for all packets of a frame. */
  datatype Stamp = Stamp(payloadType: int, timestamp: seq<byte>, ssrc: seq<byte>)
  {
    predicate Ok() { 0 <= payloadType < 128 && |timestamp| == 4 && |ssrc| == 4 }
  }

  /** Version 2, no padding, extension or contributing sources. */
  function Header(marker: bool, seqNo: int, st: Stamp): (h: seq<byte>)
    requires st.Ok()
    ensures |h| == HEADER_SIZE
  {
    [0x80, U8((if marker then 128 else 0) + st.payloadType)] + Be16(seqNo) + st.timestamp + st.ssrc
  }

  /** The packets of one frame: only the last carries the marker. */
  function Packets(data: seq<byte>, seqNo: int, st: Stamp): seq<seq<byte>>
    requires st.Ok()
  {
    if data == [] then []
    else
      var n := Chunk(|data|);
      [Header(n == |data|, seqNo, st) + data[..n]] + Packets(data[n..], NextSeq(seqNo), st)
  }

  /** The sequence number after the packets of a frame of `n` bytes. */
  function SeqAfter(n: int, seqNo: int): int
    decreases n
  {
    if n <= 0 then seqNo else SeqAfter(n - Chunk(n), NextSeq(seqNo))
  }

  // ---------------------------------------------------------------- the reference receiver

  datatype Received = Received(marker: bool, seqNo: int, st: Stamp, payload: seq<byte>)

  function Read(p: seq<byte>): Option<Received>
  {
    if |p| < HEADER_SIZE || p[0] != 0x80 then None
    else
      Some(Received(p[1] >= 128, De16([p[2], p[3]]), Stamp((p[1] % 128) as int, p[4..8], p[8..12]), p[HEADER_SIZE..]))
  }

  lemma ReadsBack(marker: bool, seqNo: int, st: Stamp, payload: seq<byte>)
    requires st.Ok() && 0 <= seqNo < 0x1_0000
    ensures Read(Header(marker, seqNo, st) + payload) == Some(Received(marker, seqNo, st, payload))
  {
    var p := Header(marker, seqNo, st) + payload;
    Be16RoundTrip(seqNo);
    assert [p[2], p[3]] == Be16(seqNo);
    assert p[4..8] == st.timestamp && p[8..12] == st.ssrc && p[HEADER_SIZE..] == payload;
  }

  function PacketCount(n: int): int { (n + MAX_PAYLOAD - 1) / MAX_PAYLOAD }

  lemma CountStep(n: int)
    requires 0 < n
    ensures PacketCount(n) == 1 + PacketCount(n - Chunk(n))
  {
  }

  lemma SeqStep(s: int, i: int)
    requires 0 <= s < 0x1_0000 && 0 <= i
    ensures 0 <= NextSeq(s) < 0x1_0000 && (NextSeq(s) + i) % 0x1_0000 == (s + 1 + i) % 0x1_0000
  {
  }

  /** What packet `i` of a frame is: its place in the numbering, its marker, its part of the data. */
  lemma {:induction false} PacketAt(data: seq<byte>, seqNo: int, st: Stamp, i: int)
    requires st.Ok() && 0 <= seqNo < 0x1_0000 && 0 <= i < PacketCount(|data|)
    ensures |Packets(data, seqNo, st)| == PacketCount(|data|)
    ensures var lo := i * MAX_PAYLOAD; var hi := lo + Chunk(|data| - lo);
      && 0 <= lo < hi <= |data|
      && Read(Packets(data, seqNo, st)[i])
         == Some(Received(i == PacketCount(|data|) - 1, (seqNo + i) % 0x1_0000, st, data[lo..hi]))
    decreases |data|
  {
    CountIs(data, seqNo, st);
    var n := Chunk(|data|);
    CountStep(|data|);
    if i == 0 {
      ReadsBack(n == |data|, seqNo, st, data[..n]);
    } else {
      SeqStep(seqNo, i - 1);
      PacketAt(data[n..], NextSeq(seqNo), st, i - 1);
      assert n == MAX_PAYLOAD;
      var lo := (i - 1) * MAX_PAYLOAD;
      var hi := lo + Chunk(|data| - n - lo);
      assert data[n..][lo..hi] == data[n + lo..n + hi];
    }
  }

  lemma {:induction false} CountIs(data: seq<byte>, seqNo: int, st: Stamp)
    requires st.Ok()
    ensures |Packets(data, seqNo, st)| == PacketCount(|data|)
    decreases |data|
  {
    if data != [] {
      CountStep(|data|);
      CountIs(data[Chunk(|data|)..], NextSeq(seqNo), st);
    }
  }

  /** The next frame goes on with the next number. */
  lemma {:induction false} SeqAfterIs(n: nat, seqNo: int)
    requires 0 <= seqNo < 0x1_0000
    ensures SeqAfter(n, seqNo) == (seqNo + PacketCount(n)) % 0x1_0000
    decreases n
  {
    if n > 0 {
      CountStep(n);
      SeqStep(seqNo, PacketCount(n - Chunk(n)));
      SeqAfterIs(n - Chunk(n), NextSeq(seqNo));
    }
  }

  /** The payloads of packets, joined. */
  function Payloads(packets: seq<seq<byte>>): seq<byte>
  {
    if packets == [] then []
    else (if |packets[0]| >= HEADER_SIZE then packets[0][HEADER_SIZE..] else []) + Payloads(packets[1..])
  }

  /** Nothing is lost and nothing reordered. */
  lemma {:induction false} PayloadsAreTheData(data: seq<byte>, seqNo: int, st: Stamp)
    requires st.Ok()
    ensures Payloads(Packets(data, seqNo, st)) == data
    decreases |data|
  {
    if data != [] {
      var n := Chunk(|data|);
      PayloadsAreTheData(data[n..], NextSeq(seqNo), st);
      assert data == data[..n] + data[n..];
    }
  }
}

/** The fixed parts of a program stream, read field by field as ISO/IEC 13818-1 lays them out (sections 2.4.3.6,
    2.5.3.3, 2.5.3.5 and 2.5.4). */
module PsFields {
  import opened Bytes
  import opened PsStream

  predicate Code(s: seq<byte>, id: byte) { |s| >= 4 && s[0] == 0 && s[1] == 0 && s[2] == 1 && s[3] == id }

  /** A pack header: its start code, the multiplex rate of 26215 units of 50 bytes a second, marker bits, no
      stuffing. */
  lemma PackFields(kind: FrameKind, data: seq<byte>, t: bv64)
    ensures var s := Mux(kind, data, t);
      && |s| >= 14 && Code(s, 0xBA)
      && s[10] as int * 16384 + s[11] as int * 64 + s[12] as int / 4 == 26215 && s[12] % 4 == 3
      && s[13] / 8 == 31 && s[13] % 8 == 0
  {
    var h := PackHeader(ScrBytes(t));
    var s := Mux(kind, data, t);
    assert forall i :: 0 <= i < 14 ==> s[i] == h[i];
  }

  /** A system header: twelve bytes, the rate bound 26234 between marker bits, one audio and one video stream, both
      locked, and buffers of 232 KB for stream 0xE0 and 32 times 128 bytes for stream 0xC0. */
  predicate SystemSays(s: seq<byte>)
  {
    && |s| == 18 && Code(s, 0xBB) && s[4] == 0 && s[5] == 12
    && s[6] >= 128 && (s[6] as int - 128) * 32768 + s[7] as int * 128 + s[8] as int / 2 == 26234 && s[8] % 2 == 1
    && s[9] / 4 == 1 && s[9] % 4 == 0
    && s[10] / 32 == 7 && s[10] % 32 == 1 && s[11] == 127
    && s[12] == 0xE0 && s[13] / 32 == 7 && s[13] as int % 32 * 256 + s[14] as int == 232
    && s[15] == 0xC0 && s[16] / 32 == 6 && s[16] as int % 32 * 256 + s[17] as int == 32
  }

  /** A stream map: 24 bytes, current, without descriptors of the program; stream 0xE0 is H.264 video (type 0x1B) with
      six bytes of descriptors, stream 0xC0 is G.711 audio (type 0x90).  The length given for the elementary streams
      is 8, while they take the 14 bytes from the twelfth to the CRC. */
  predicate MapSays(s: seq<byte>)
  {
    && |s| == 12 + 14 + 4 && Code(s, 0xBC) && s[4] == 0 && s[5] == 24
    && s[6] / 128 == 1 && s[6] % 32 == 1 && s[7] == 255 && s[8] == 0 && s[9] == 0
    && s[10] == 0 && s[11] == 8 && StreamsSay(s)
  }

  predicate StreamsSay(s: seq<byte>)
    requires |s| == 30
  {
    && s[12] == 0x1B && s[13] == 0xE0 && s[14] == 0 && s[15] == 6
    && s[16] == 0x0A && s[17] == 4 && s[18] == 0x65 && s[19] == 0x6E && s[20] == 0x67 && s[21] == 0
    && s[22] == 0x90 && s[23] == 0xC0 && s[24] == 0 && s[25] == 0
    && s[26] == 0x2E && s[27] == 0xB9 && s[28] == 0x0F && s[29] == 0x3D
  }

  lemma SystemIs()
    ensures SystemSays(SYSTEM_HEADER)
  {
  }

  lemma MapIs()
    ensures MapSays(MAP_HEADER)
  {
    StreamsAre();
  }

  lemma StreamsAre()
    ensures StreamsSay(MAP_HEADER)
  {
  }

  /** An I frame, and no other, has both behind its pack header; then come the PES packets. */
  lemma SectionsSay(kind: FrameKind, data: seq<byte>, t: bv64)
    ensures var m := Mux(kind, data, t);
      && (kind == I ==> |m| >= 62 && SystemSays(m[14..32]) && MapSays(m[32..62]))
      && (kind == I && data != [] ==> Code(m[62..], 0xE0))
      && (kind != I && data != [] ==> |m| >= 14 && Code(m[14..], 0xE0))
  {
    SystemIs();
    MapIs();
    var m, packets := Mux(kind, data, t), PesPackets(data, ClockBytes(t));
    if kind == I {
      assert m[14..32] == SYSTEM_HEADER && m[32..62] == MAP_HEADER && m[62..] == packets;
    } else {
      assert m[14..] == packets;
    }
    if data != [] { PacketsBegin(data, ClockBytes(t)); }
  }

  lemma PacketsBegin(data: seq<byte>, clock: seq<byte>)
    requires data != [] && |clock| == 10
    ensures Code(PesPackets(data, clock), 0xE0)
  {
    var h := PesHeader(|data|, clock);
    assert PesPackets(data, clock)[..4] == h[..4];
  }

  /** A PES header of video: its length, aligned, not scrambled, with both clocks and nothing else in ten header
      bytes. */
  lemma PesFields(n: int, clock: seq<byte>)
    requires 0 < n && |clock| == 10
    ensures var h := PesHeader(n, clock);
      && Code(h, 0xE0) && h[4] as int * 256 + h[5] as int == (if n > 65522 then 65535 else n + 13)
      && h[6] == 0x80 + 0x04 && h[7] == 0xC0 && h[8] == 10 && h[9..] == clock
  {
    var h := PesHeader(n, clock);
    Be16RoundTrip(PesPayload(n) + PES_PPL_LENGTH);
    assert h[4..6] == Be16(PesPayload(n) + PES_PPL_LENGTH);
  }
}

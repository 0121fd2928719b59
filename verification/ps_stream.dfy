/** What a video frame looks like as a program stream, and a reference receiver for it that follows
    the length fields (ISO/IEC 13818-1 sections 2.4.3.6, 2.5.3.3, 2.5.3.5 and 2.5.4). */
module PsStream {
  import opened Bytes
  import opened PsClock

  datatype FrameKind = P | I

  const PACK_SIZE := 14
  const SYSTEM_SIZE := 18
  const MAP_SIZE := 30
  const PES_SIZE := 19
  const PES_PPL_LENGTH := 13
  const MAX_PES := 0xFFFF - PES_PPL_LENGTH

  /** The SCR field of a pack header. */
  function ScrBytes(t: bv64): (s: seq<byte>)
    ensures |s| == 6
  {
    [HighByte(Scr1(t)), LowByte(Scr1(t)), HighByte(Scr2(t)), LowByte(Scr2(t)), HighByte(Scr3(t)), LowByte(Scr3(t))]
  }

  function PackHeader(scr: seq<byte>): (s: seq<byte>)
    requires |scr| == 6
    ensures |s| == PACK_SIZE
  {
    [0, 0, 1, 0xBA] + scr + [0x01, 0x99, 0x9F, 0xF8]
  }

  const SYSTEM_HEADER: seq<byte> :=
    [0, 0, 1, 0xBB, 0, 0x0C, 0x80, 0xCC, 0xF5, 0x04, 0xE1, 0x7F, 0xE0, 0xE0, 0xE8, 0xC0, 0xC0, 0x20]

  const MAP_HEADER: seq<byte> :=
    [0, 0, 1, 0xBC, 0, 0x18, 0xE1, 0xFF, 0, 0, 0, 0x08, 0x1B, 0xE0, 0, 0x06,
     0x0A, 0x04, 0x65, 0x6E, 0x67, 0, 0x90, 0xC0, 0, 0, 0x2E, 0xB9, 0x0F, 0x3D]

  /** The payload size of the next PES packet when `n` bytes of the frame remain. */
  function PesPayload(n: int): int
  {
    if n > MAX_PES then MAX_PES else n
  }

  /** The PTS and DTS fields, both made from a 32-bit copy of the time. */
  function ClockBytes(t: bv64): (s: seq<byte>)
    ensures |s| == 10
  {
    var low := t & 0xFFFF_FFFF;
    [FromWord(TimePrefix(3, low))] + Be32(TimeRest(low)) + [FromWord(TimePrefix(1, low))] + Be32(TimeRest(low))
  }

  /** The PES header written when `n` bytes of the frame remain. */
  function PesHeader(n: int, clock: seq<byte>): (s: seq<byte>)
    requires |clock| == 10
    ensures |s| == PES_SIZE
  {
    [0, 0, 1, 0xE0] + Be16(PesPayload(n) + PES_PPL_LENGTH) + [0x84, 0xC0, 10] + clock
  }

  function PesPackets(data: seq<byte>, clock: seq<byte>): seq<byte>
    requires |clock| == 10
  {
    if data == [] then []
    else
      var n := PesPayload(|data|);
      PesHeader(|data|, clock) + data[..n] + PesPackets(data[n..], clock)
  }

  function Sections(kind: FrameKind): seq<byte>
  {
    if kind.I? then SYSTEM_HEADER + MAP_HEADER else []
  }

  function Prefix(kind: FrameKind, t: bv64): seq<byte>
  {
    PackHeader(ScrBytes(t)) + Sections(kind)
  }

  /** The program stream of one frame. */
  function Mux(kind: FrameKind, data: seq<byte>, t: bv64): seq<byte>
  {
    Prefix(kind, t) + PesPackets(data, ClockBytes(t))
  }

  // ---------------------------------------------------------------- the reference receiver

  /** One PES packet as received: its ten clock bytes and its payload. */
  datatype Piece = Piece(clock: seq<byte>, data: seq<byte>)

  /** One pack as received: its six SCR bytes and its PES packets. */
  datatype Program = Program(scr: seq<byte>, pieces: seq<Piece>)

  /** The elementary stream: all payloads in order. */
  function Data(pieces: seq<Piece>): seq<byte>
  {
    if pieces == [] then [] else pieces[0].data + Data(pieces[1..])
  }

  predicate Starts(s: seq<byte>, id: byte)
  {
    |s| >= 6 && s[0] == 0 && s[1] == 0 && s[2] == 1 && s[3] == id
  }

  /** Bytes covered by a packet that starts with a start code and a 16-bit length. */
  function Extent(s: seq<byte>): (n: int)
    requires |s| >= 6
    ensures 6 <= n
  {
    6 + De16([s[4], s[5]])
  }

  function HeaderEnd(s: seq<byte>): int
    requires |s| >= PES_SIZE
  {
    9 + s[8] as int
  }

  /** A whole video PES packet that announces both clocks. */
  predicate PesOk(s: seq<byte>)
  {
    && Starts(s, 0xE0) && |s| >= PES_SIZE
    && PES_SIZE <= HeaderEnd(s) <= Extent(s) <= |s|
    && s[6] / 64 == 2 && s[7] / 64 == 3
  }

  /** The packets after a pack header: PES packets are read, the system header and the stream map are
      skipped by their lengths, anything else is an error. */
  function ReadPackets(s: seq<byte>): Option<seq<Piece>>
    decreases |s|
  {
    if s == [] then Some([])
    else if PesOk(s) then
      match ReadPackets(s[Extent(s)..])
      case None => None
      case Some(more) => Some([Piece(s[9..PES_SIZE], s[HeaderEnd(s)..Extent(s)])] + more)
    else if (Starts(s, 0xBB) || Starts(s, 0xBC)) && Extent(s) <= |s| then ReadPackets(s[Extent(s)..])
    else None
  }

  /** A pack header with its stuffing bytes. */
  predicate PackOk(s: seq<byte>)
  {
    && Starts(s, 0xBA) && |s| >= PACK_SIZE
    && s[12] % 4 == 3
    && PACK_SIZE + (s[13] % 8) as int <= |s|
  }

  /** Receives one pack. */
  function Demux(s: seq<byte>): Option<Program>
  {
    if !PackOk(s) then None
    else
      match ReadPackets(s[PACK_SIZE + (s[13] % 8) as int..])
      case None => None
      case Some(pieces) => Some(Program(s[4..10], pieces))
  }

  // ---------------------------------------------------------------- reading the clocks

  /** PTS and DTS of a PES packet. */
  function ReadPts(c: seq<byte>): bv64
    requires |c| == 10
  {
    ReadTime(ToWord(c[0]), De32(c[1..5]))
  }

  function ReadDts(c: seq<byte>): bv64
    requires |c| == 10
  {
    ReadTime(ToWord(c[5]), De32(c[6..10]))
  }

  predicate ClockOk(c: seq<byte>)
  {
    |c| == 10 && TimeFieldOk(3, ToWord(c[0]), De32(c[1..5])) && TimeFieldOk(1, ToWord(c[5]), De32(c[6..10]))
  }

  /** SCR base of a pack. */
  function ReadScrBase(s: seq<byte>): bv64
    requires |s| == 6
  {
    ReadScr(Word16(s[0], s[1]), Word16(s[2], s[3]), Word16(s[4], s[5]))
  }

  predicate ScrBytesOk(s: seq<byte>)
  {
    |s| == 6 && ScrOk(Word16(s[0], s[1]), Word16(s[2], s[3]), Word16(s[4], s[5]))
        && ReadScrExtension(Word16(s[4], s[5])) == 0
  }

  lemma LowClockRoundTrip(prefix: bv8, t: bv64)
    requires prefix < 16
    ensures var low := t & 0xFFFF_FFFF;
      TimeFieldOk(prefix, TimePrefix(prefix, low), TimeRest(low))
          && ReadTime(TimePrefix(prefix, low), TimeRest(low)) == low
  {
    TimeRoundTrip(prefix, t & 0xFFFF_FFFF);
  }

  /** Every PES packet of a frame sent at time `t` shows the low 32 bits of `t` as PTS and as DTS, with
      all prefix and marker bits in place. */
  lemma ClockReads(t: bv64)
    ensures var c := ClockBytes(t);
      ClockOk(c) && ReadPts(c) == t & 0xFFFF_FFFF && ReadDts(c) == t & 0xFFFF_FFFF
  {
    var c, low := ClockBytes(t), t & 0xFFFF_FFFF;
    assert c[1..5] == Be32(TimeRest(low)) == c[6..10];
    Be32RoundTrip(TimeRest(low));
    WordRoundTrip(TimePrefix(3, low));
    WordRoundTrip(TimePrefix(1, low));
    LowClockRoundTrip(3, t);
    LowClockRoundTrip(1, t);
  }

  /** Its pack header shows the low 33 bits of `t`. */
  lemma ScrReads(t: bv64)
    ensures ScrBytesOk(ScrBytes(t)) && ReadScrBase(ScrBytes(t)) == t & 0x1_FFFF_FFFF
  {
    Word16RoundTrip(Scr1(t));
    Word16RoundTrip(Scr2(t));
    Word16RoundTrip(Scr3(t));
    ScrRoundTrip(t);
  }

  // ---------------------------------------------------------------- the receiver undoes the muxer

  /** The pieces a frame is cut into. */
  function Pieces(data: seq<byte>, clock: seq<byte>): seq<Piece>
  {
    if data == [] then []
    else
      var n := PesPayload(|data|);
      [Piece(clock, data[..n])] + Pieces(data[n..], clock)
  }

  lemma PesHeaderReads(n: int, clock: seq<byte>)
    requires 0 < n && |clock| == 10
    ensures var h := PesHeader(n, clock);
      && Starts(h, 0xE0) && Extent(h) == PES_SIZE + PesPayload(n) && HeaderEnd(h) == PES_SIZE
      && h[6] / 64 == 2 && h[7] / 64 == 3 && h[9..] == clock
  {
    var h := PesHeader(n, clock);
    Be16RoundTrip(PesPayload(n) + PES_PPL_LENGTH);
    assert [h[4], h[5]] == Be16(PesPayload(n) + PES_PPL_LENGTH);
  }

  /** One PES packet is read back whole whatever follows it. */
  lemma PesReadsBack(data: seq<byte>, clock: seq<byte>, rest: seq<byte>)
    requires data != [] && |clock| == 10
    ensures var n := PesPayload(|data|); var s := PesHeader(|data|, clock) + data[..n] + rest;
      PesOk(s) && s[Extent(s)..] == rest && s[9..PES_SIZE] == clock && s[HeaderEnd(s)..Extent(s)] == data[..n]
  {
    var n := PesPayload(|data|);
    var h := PesHeader(|data|, clock);
    var s := h + data[..n] + rest;
    PesHeaderReads(|data|, clock);
    assert forall i :: 0 <= i < PES_SIZE ==> s[i] == h[i];
    assert s[9..PES_SIZE] == h[9..];
    assert Extent(s) == Extent(h) == PES_SIZE + n;
  }

  lemma {:induction false} PacketsReadBack(data: seq<byte>, clock: seq<byte>)
    requires |clock| == 10
    ensures ReadPackets(PesPackets(data, clock)) == Some(Pieces(data, clock))
    decreases |data|
  {
    if data != [] {
      var n := PesPayload(|data|);
      PesReadsBack(data, clock, PesPackets(data[n..], clock));
      PacketsReadBack(data[n..], clock);
    }
  }

  /** A system header or stream map in front is skipped. */
  lemma SkipsSection(h: seq<byte>, id: byte, rest: seq<byte>)
    requires Starts(h, id) && (id == 0xBB || id == 0xBC) && Extent(h) == |h|
    ensures ReadPackets(h + rest) == ReadPackets(rest)
  {
    var s := h + rest;
    assert Starts(s, id) && Extent(s) == |h|;
    assert s[|h|..] == rest;
  }

  lemma SectionsAreWhole()
    ensures Starts(SYSTEM_HEADER, 0xBB) && Extent(SYSTEM_HEADER) == |SYSTEM_HEADER| == SYSTEM_SIZE
    ensures Starts(MAP_HEADER, 0xBC) && Extent(MAP_HEADER) == |MAP_HEADER| == MAP_SIZE
  {
  }

  lemma PackReadsBack(scr: seq<byte>, rest: seq<byte>)
    requires |scr| == 6 && ReadPackets(rest).Some?
    ensures Demux(PackHeader(scr) + rest) == Some(Program(scr, ReadPackets(rest).value))
  {
    var s := PackHeader(scr) + rest;
    assert s[4..10] == scr && s[PACK_SIZE..] == rest;
  }

  /** What follows the pack header is read as the PES packets alone. */
  lemma SectionsAreSkipped(kind: FrameKind, packets: seq<byte>)
    ensures ReadPackets(Sections(kind) + packets) == ReadPackets(packets)
  {
    if kind.I? {
      SectionsAreWhole();
      SkipsSection(MAP_HEADER, 0xBC, packets);
      SkipsSection(SYSTEM_HEADER, 0xBB, MAP_HEADER + packets);
      assert SYSTEM_HEADER + MAP_HEADER + packets == SYSTEM_HEADER + (MAP_HEADER + packets);
    } else {
      assert [] + packets == packets;
    }
  }

  lemma Reassociate(a: seq<byte>, b: seq<byte>, c: seq<byte>)
    ensures a + b + c == a + (b + c)
  {
  }

  /** The receiver gets back the SCR bytes and every piece, for every frame and every time. */
  lemma DemuxUndoesMux(kind: FrameKind, data: seq<byte>, t: bv64)
    ensures Demux(Mux(kind, data, t)) == Some(Program(ScrBytes(t), Pieces(data, ClockBytes(t))))
  {
    var packets := PesPackets(data, ClockBytes(t));
    PacketsReadBack(data, ClockBytes(t));
    SectionsAreSkipped(kind, packets);
    PackReadsBack(ScrBytes(t), Sections(kind) + packets);
    Reassociate(PackHeader(ScrBytes(t)), Sections(kind), packets);
  }

  /** The pieces are the frame, cut: in order, nothing lost, nothing empty, none longer than fits, all
      stamped alike. */
  lemma {:induction false} PiecesAreTheFrame(data: seq<byte>, clock: seq<byte>)
    ensures Data(Pieces(data, clock)) == data
    ensures forall p <- Pieces(data, clock) :: 1 <= |p.data| <= MAX_PES && p.clock == clock
    ensures |Pieces(data, clock)| == PesCount(|data|)
    decreases |data|
  {
    if data != [] {
      var n := PesPayload(|data|);
      PiecesAreTheFrame(data[n..], clock);
      CountStep(|data|);
      assert data == data[..n] + data[n..];
    }
  }

  /** A frame survives the program stream unchanged, and so do its clocks. */
  lemma FrameSurvives(kind: FrameKind, data: seq<byte>, t: bv64)
    ensures var got := Demux(Mux(kind, data, t));
      && got.Some? && Data(got.value.pieces) == data
      && |got.value.scr| == 6 && ReadScrBase(got.value.scr) == t & 0x1_FFFF_FFFF
      && forall p <- got.value.pieces :: |p.clock| == 10 && ReadPts(p.clock) == ReadDts(p.clock) == t & 0xFFFF_FFFF
  {
    DemuxUndoesMux(kind, data, t);
    PiecesAreTheFrame(data, ClockBytes(t));
    ScrReads(t);
    ClockReads(t);
  }

  // ---------------------------------------------------------------- sizes

  /** PES packets needed for `n` bytes: n / MAX_PES, rounded up. */
  function PesCount(n: int): int { (n + MAX_PES - 1) / MAX_PES }

  /** Bytes a frame of `n` bytes takes as a program stream. */
  function MuxSize(kind: FrameKind, n: int): int
  {
    PACK_SIZE + (if kind.I? then SYSTEM_SIZE + MAP_SIZE else 0) + n + PES_SIZE * PesCount(n)
  }

  lemma CountStep(n: int)
    requires 0 < n
    ensures PesCount(n) == 1 + PesCount(n - PesPayload(n))
  {
  }

  lemma {:induction false} PacketsSize(data: seq<byte>, clock: seq<byte>)
    requires |clock| == 10
    ensures |PesPackets(data, clock)| == |data| + PES_SIZE * PesCount(|data|)
    decreases |data|
  {
    if data != [] {
      PacketsSize(data[PesPayload(|data|)..], clock);
      CountStep(|data|);
    }
  }

  lemma MuxHasSize(kind: FrameKind, data: seq<byte>, t: bv64)
    ensures |Mux(kind, data, t)| == MuxSize(kind, |data|)
  {
    PacketsSize(data, ClockBytes(t));
  }

  const RTP_PAYLOAD := 1400
  const PS_BUFFER := 512 * 1400

  /** The room left in front of the program stream for RTP headers. */
  function Headroom(n: int): int
  {
    (n / RTP_PAYLOAD + 1) * 20 + RTP_PAYLOAD
  }

  /** A frame fits the send task's buffer, headroom included, exactly up to 705049 bytes for a key
      frame and 705097 for any other. */
  lemma FitsBufferExactly(kind: FrameKind, n: nat)
    ensures Headroom(n) + MuxSize(kind, n) <= PS_BUFFER <==> n <= (if kind.I? then 705049 else 705097)
  {
  }
}

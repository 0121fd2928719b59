/** From camera frames to what a receiver decodes: muxing, cutting into packets, regrouping by marker
    and demuxing by length gives the frames back. */
module EndToEnd {
  import opened Bytes
  import opened Buffers
  import opened PsStream
  import PsMux
  import opened Rtp
  import opened FanOut
  import Reassembly
  import Sender

  datatype Frame = Frame(kind: FrameKind, data: seq<byte>, time: bv64)

  /** The RTP timestamp is a 32-bit copy of the frame's time. */
  function Low32(time: bv64): bv32 { (time & 0xFFFF_FFFF) as bv32 }

  function StampOf(payloadType: int, time: bv64, ssrc: bv32): Stamp
  {
    Stamp(payloadType, Be32(Low32(time)), Be32(ssrc))
  }

  /** The program stream of a frame, with what its packets carry besides. */
  datatype Unit = Unit(key: bool, ps: seq<byte>, stamp: GoodStamp)

  type GoodStamp = st: Stamp | st.Ok() witness Stamp(0, [0, 0, 0, 0], [0, 0, 0, 0])

  function UnitsOf(frames: seq<Frame>, payloadType: int, ssrc: bv32): seq<Unit>
    requires 0 <= payloadType < 128
  {
    if frames == [] then []
    else
      var f := frames[0];
      [Unit(f.kind.I?, Mux(f.kind, f.data, f.time), StampOf(payloadType, f.time, ssrc))]
      + UnitsOf(frames[1..], payloadType, ssrc)
  }

  /** All packets of a sequence of program streams. */
  function SendUnits(units: seq<Unit>, seqNo: int): seq<seq<byte>>
  {
    if units == [] then []
    else Packets(units[0].ps, seqNo, units[0].stamp) + SendUnits(units[1..], SeqAfter(|units[0].ps|, seqNo))
  }

  // ---------------------------------------------------------------- the receiving end

  /** Joins payloads up to and including each marked packet; a packet that does not parse, or an
      unfinished unit at the end, is an error. */
  function Regroup(packets: seq<seq<byte>>, partial: seq<byte>): Option<seq<seq<byte>>>
    decreases |packets|
  {
    if packets == [] then if partial == [] then Some([]) else None
    else
      match Read(packets[0])
      case None => None
      case Some(r) =>
        var joined := partial + r.payload;
        if !r.marker then Regroup(packets[1..], joined)
        else
          match Regroup(packets[1..], [])
          case None => None
          case Some(units) => Some([joined] + units)
  }

  function DemuxAll(units: seq<seq<byte>>): Option<seq<seq<byte>>>
  {
    if units == [] then Some([])
    else
      match Demux(units[0])
      case None => None
      case Some(p) =>
        match DemuxAll(units[1..])
        case None => None
        case Some(frames) => Some([Data(p.pieces)] + frames)
  }

  function ReceiveFrames(packets: seq<seq<byte>>): Option<seq<seq<byte>>>
  {
    match Regroup(packets, [])
    case None => None
    case Some(units) => DemuxAll(units)
  }

  /** The payloads of the frames. */
  function Contents(frames: seq<Frame>): seq<seq<byte>>
  {
    if frames == [] then [] else [frames[0].data] + Contents(frames[1..])
  }

  function Streams(units: seq<Unit>): seq<seq<byte>>
  {
    if units == [] then [] else [units[0].ps] + Streams(units[1..])
  }

  /** Program streams that are sent are not empty. */
  predicate Sendable(units: seq<Unit>) { forall i :: 0 <= i < |units| ==> units[i].ps != [] }

  /** The packets of one program stream are regrouped into it, whatever packets follow. */
  lemma {:induction false} RegroupOne(data: seq<byte>, seqNo: int, st: Stamp, more: seq<seq<byte>>, partial: seq<byte>,
      units: seq<seq<byte>>)
    requires st.Ok() && 0 <= seqNo < 0x1_0000 && data != []
    requires Regroup(more, []) == Some(units)
    ensures Regroup(Packets(data, seqNo, st) + more, partial) == Some([partial + data] + units)
    decreases |data|
  {
    var n := Chunk(|data|);
    var first := Header(n == |data|, seqNo, st) + data[..n];
    var rest := Packets(data[n..], NextSeq(seqNo), st);
    ReadsBack(n == |data|, seqNo, st, data[..n]);
    assert Packets(data, seqNo, st) + more == [first] + (rest + more);
    RegroupStep(first, rest + more, partial);
    if n == |data| {
      assert data[..n] == data && rest + more == more;
    } else {
      RegroupOne(data[n..], NextSeq(seqNo), st, more, partial + data[..n], units);
      assert partial + data[..n] + data[n..] == partial + data;
    }
  }

  lemma RegroupStep(p: seq<byte>, rest: seq<seq<byte>>, partial: seq<byte>)
    requires Read(p).Some?
    ensures var r := Read(p).value;
      Regroup([p] + rest, partial)
      == if !r.marker then Regroup(rest, partial + r.payload)
         else if Regroup(rest, []).None? then None
         else Some([partial + r.payload] + Regroup(rest, []).value)
  {
    assert ([p] + rest)[1..] == rest;
  }

  lemma SeqStays(n: nat, seqNo: int)
    requires 0 <= seqNo < 0x1_0000
    ensures 0 <= SeqAfter(n, seqNo) < 0x1_0000
  {
    SeqAfterIs(n, seqNo);
  }

  lemma {:induction false} RegroupUndoesCutting(units: seq<Unit>, seqNo: int)
    requires Sendable(units) && 0 <= seqNo < 0x1_0000
    ensures Regroup(SendUnits(units, seqNo), []) == Some(Streams(units))
    decreases |units|
  {
    if units != [] {
      var u, after := units[0], SeqAfter(|units[0].ps|, seqNo);
      SeqStays(|u.ps|, seqNo);
      RegroupUndoesCutting(units[1..], after);
      RegroupOne(u.ps, seqNo, u.stamp, SendUnits(units[1..], after), [], Streams(units[1..]));
      assert [] + u.ps == u.ps;
    }
  }

  lemma MuxNotEmpty(kind: FrameKind, data: seq<byte>, t: bv64)
    ensures |Mux(kind, data, t)| > 3
  {
    MuxHasSize(kind, data, t);
  }

  lemma {:induction false} FramesAreSendable(frames: seq<Frame>, payloadType: int, ssrc: bv32)
    requires 0 <= payloadType < 128
    ensures Sendable(UnitsOf(frames, payloadType, ssrc)) && |UnitsOf(frames, payloadType, ssrc)| == |frames|
  {
    if frames != [] {
      MuxNotEmpty(frames[0].kind, frames[0].data, frames[0].time);
      FramesAreSendable(frames[1..], payloadType, ssrc);
    }
  }

  lemma {:induction false} DemuxAllUndoesMux(frames: seq<Frame>, payloadType: int, ssrc: bv32)
    requires 0 <= payloadType < 128
    ensures DemuxAll(Streams(UnitsOf(frames, payloadType, ssrc))) == Some(Contents(frames))
  {
    if frames != [] {
      FrameSurvives(frames[0].kind, frames[0].data, frames[0].time);
      DemuxAllUndoesMux(frames[1..], payloadType, ssrc);
    }
  }

  /** Nothing lost and nothing reordered, for every sequence of frames of any kinds, sizes and times and
      from every sequence number. */
  lemma FramesArrive(frames: seq<Frame>, seqNo: int, payloadType: int, ssrc: bv32)
    requires 0 <= payloadType < 128 && 0 <= seqNo < 0x1_0000
    ensures ReceiveFrames(SendUnits(UnitsOf(frames, payloadType, ssrc), seqNo)) == Some(Contents(frames))
  {
    FramesAreSendable(frames, payloadType, ssrc);
    RegroupUndoesCutting(UnitsOf(frames, payloadType, ssrc), seqNo);
    DemuxAllUndoesMux(frames, payloadType, ssrc);
  }

  /** `p` is an RTP packet with number `n`, modulo 2^16. */
  ghost predicate HasNumber(p: seq<byte>, n: int)
  {
    Read(p).Some? && Read(p).value.seqNo == n % 0x1_0000
  }

  ghost predicate Numbered(packets: seq<seq<byte>>, from: int)
  {
    forall i :: 0 <= i < |packets| ==> HasNumber(packets[i], from + i)
  }

  lemma FrameIsNumbered(ps: seq<byte>, seqNo: int, st: Stamp)
    requires st.Ok() && 0 <= seqNo < 0x1_0000
    ensures Numbered(Packets(ps, seqNo, st), seqNo)
  {
    CountIs(ps, seqNo, st);
    forall i | 0 <= i < |Packets(ps, seqNo, st)|
      ensures HasNumber(Packets(ps, seqNo, st)[i], seqNo + i)
    {
      PacketAt(ps, seqNo, st, i);
    }
  }

  lemma NumberedJoin(a: seq<seq<byte>>, b: seq<seq<byte>>, from: int, next: int)
    requires Numbered(a, from) && Numbered(b, next) && next % 0x1_0000 == (from + |a|) % 0x1_0000
    ensures Numbered(a + b, from)
  {
    forall i | |a| <= i < |a| + |b|
      ensures HasNumber((a + b)[i], from + i)
    {
      assert HasNumber(b[i - |a|], next + (i - |a|));
      ModAdd(next, from + |a|, i - |a|);
    }
  }

  lemma ModAdd(a: int, b: int, c: int)
    requires a % 0x1_0000 == b % 0x1_0000
    ensures (a + c) % 0x1_0000 == (b + c) % 0x1_0000
  {
  }

  /** Packets are numbered consecutively across frames, modulo 2^16. */
  lemma {:induction false} NumberedAcrossFrames(units: seq<Unit>, seqNo: int)
    requires Sendable(units) && 0 <= seqNo < 0x1_0000
    ensures Numbered(SendUnits(units, seqNo), seqNo)
    decreases |units|
  {
    if units != [] {
      var ps, st := units[0].ps, units[0].stamp;
      var next := SeqAfter(|ps|, seqNo);
      CountIs(ps, seqNo, st);
      SeqAfterIs(|ps|, seqNo);
      FrameIsNumbered(ps, seqNo, st);
      NumberedAcrossFrames(units[1..], next);
      NumberedJoin(Packets(ps, seqNo, st), SendUnits(units[1..], next), seqNo, next);
    }
  }

  // ---------------------------------------------------------------- what one client gets

  function Same(n: nat, b: bool): seq<bool> { seq(n, k => b) }

  /** Of `n` packets behind `sent` others of their frame, only the first of the frame. */
  function FirstOnly(n: nat, sent: nat): seq<bool> { seq(n, k => k + sent == 0) }

  /** For each packet, whether its frame is a key frame, and whether it is the first of it. */
  function Keys(units: seq<Unit>): seq<bool>
  {
    if units == [] then [] else Same(PacketCount(|units[0].ps|), units[0].key) + Keys(units[1..])
  }

  function Firsts(units: seq<Unit>): seq<bool>
  {
    if units == [] then [] else FirstOnly(PacketCount(|units[0].ps|), 0) + Firsts(units[1..])
  }

  /** Packets of the units before unit `j`. */
  function Before(units: seq<Unit>, j: nat): nat
    requires j <= |units|
  {
    if j == 0 then 0 else PacketCount(|units[0].ps|) + Before(units[1..], j - 1)
  }

  /** The packets made are those of these units. */
  ghost predicate Carries(f: Fan, units: seq<Unit>)
  {
    f.made == SendUnits(units, 0) && f.keys == Keys(units) && f.firsts == Firsts(units)
  }

  /** What sending packets records. */
  lemma {:induction false} SendAllRecords(f: Fan, packets: seq<seq<byte>>)
    requires Between(f)
    ensures var g, n := SendAll(f, packets), |packets|;
      g.made == f.made + packets && g.keys == f.keys + Same(n, f.pass.key)
          && g.firsts == f.firsts + FirstOnly(n, f.pass.sent)
    decreases |packets|
  {
    if packets != [] {
      var n := |packets| - 1;
      SendAllRecords(Send(f, packets[0]), packets[1..]);
      assert Same(n + 1, f.pass.key) == [f.pass.key] + Same(n, f.pass.key);
      assert FirstOnly(n + 1, f.pass.sent) == [f.pass.sent == 0] + FirstOnly(n, f.pass.sent + 1);
    }
  }

  /** The number with which the packets of the next unit begin. */
  function NumberAfter(units: seq<Unit>, seqNo: int): int
  {
    if units == [] then seqNo else NumberAfter(units[1..], SeqAfter(|units[0].ps|, seqNo))
  }

  lemma {:induction false} UnitsSnoc(units: seq<Unit>, u: Unit, seqNo: int)
    ensures SendUnits(units + [u], seqNo) == SendUnits(units, seqNo) + Packets(u.ps, NumberAfter(units, seqNo), u.stamp)
    decreases |units|
  {
    if units == [] {
      assert [u][1..] == [] && units + [u] == [u];
    } else {
      assert (units + [u])[1..] == units[1..] + [u];
      UnitsSnoc(units[1..], u, SeqAfter(|units[0].ps|, seqNo));
    }
  }

  lemma {:induction false} KindsSnoc(units: seq<Unit>, u: Unit)
    ensures Keys(units + [u]) == Keys(units) + Same(PacketCount(|u.ps|), u.key)
    ensures Firsts(units + [u]) == Firsts(units) + FirstOnly(PacketCount(|u.ps|), 0)
    decreases |units|
  {
    if units == [] {
      assert [u][1..] == [] && units + [u] == [u];
    } else {
      assert (units + [u])[1..] == units[1..] + [u];
      KindsSnoc(units[1..], u);
    }
  }

  /** Sending the packets of one more unit to a stream node that has sent `units`. */
  lemma OneMoreUnit(f: Fan, units: seq<Unit>, u: Unit)
    requires Carries(f, units) && Between(f) && f.pass.sent == 0 && f.pass.key == u.key
    ensures Carries(SendAll(f, Packets(u.ps, NumberAfter(units, 0), u.stamp)), units + [u])
  {
    var packets := Packets(u.ps, NumberAfter(units, 0), u.stamp);
    CountIs(u.ps, NumberAfter(units, 0), u.stamp);
    SendAllRecords(f, packets);
    UnitsSnoc(units, u, 0);
    KindsSnoc(units, u);
  }

  /** A packet that is the first of a key frame. */
  lemma {:induction false} FirstOfFrame(units: seq<Unit>, k: nat) returns (j: nat)
    requires k < |Firsts(units)| && k < |Keys(units)| && Firsts(units)[k] && Keys(units)[k]
    ensures j < |units| && units[j].key && k == Before(units, j)
        && Before(units, j + 1) == k + PacketCount(|units[j].ps|)
    decreases |units|
  {
    var n := PacketCount(|units[0].ps|);
    if k < n {
      j := 0;
      assert Before(units, 1) == n + Before(units[1..], 0);
    } else {
      j := FirstOfFrame(units[1..], k - n);
      j := j + 1;
    }
  }

  /** Behind the packets of some units come those of the others. */
  lemma {:induction false} LaterUnits(units: seq<Unit>, seqNo: int, j: nat) returns (next: int)
    requires Sendable(units) && 0 <= seqNo < 0x1_0000 && j <= |units|
    ensures 0 <= next < 0x1_0000
    ensures var all, n := SendUnits(units, seqNo), Before(units, j);
      n <= |all| && all[n..] == SendUnits(units[j..], next)
    decreases |units|
  {
    if j == 0 {
      next := seqNo;
      assert units[0..] == units;
    } else {
      var ps, st := units[0].ps, units[0].stamp;
      var after := SeqAfter(|ps|, seqNo);
      CountIs(ps, seqNo, st);
      SeqStays(|ps|, seqNo);
      next := LaterUnits(units[1..], after, j - 1);
      DropBoth(Packets(ps, seqNo, st), SendUnits(units[1..], after), Before(units[1..], j - 1));
      assert units[1..][j - 1..] == units[j..];
    }
  }

  lemma DropBoth(a: seq<seq<byte>>, b: seq<seq<byte>>, n: nat)
    requires n <= |b|
    ensures (a + b)[|a| + n..] == b[n..]
  {
  }

  /** A client that is switched on and not flagged, and that has had its turn for every packet, was switched on by
      a key frame; what it has got after that frame regroups to exactly the later program streams. */
  lemma ClientGetsUnits(c: Client, f: Fan, units: seq<Unit>) returns (j: nat, skipped: nat)
    requires Sendable(units) && Carries(f, units) && Served(c, f, |f.made|) && c.synced && !c.deleted
    ensures j < |units| && units[j].key && skipped == PacketCount(|units[j].ps|) - 1 <= |c.log|
    ensures Regroup(c.log[skipped..], []) == Some(Streams(units[j + 1..]))
  {
    j := FirstOfFrame(units, c.since - 1);
    skipped := PacketCount(|units[j].ps|) - 1;
    TailRegroups(units, 0, j + 1, f.made);
    LogTail(c, f, skipped, Before(units, j + 1));
  }

  lemma LogTail(c: Client, f: Fan, skipped: nat, from: nat)
    requires Served(c, f, |f.made|) && c.synced && !c.deleted && c.since + skipped == from <= |f.made|
    ensures skipped <= |c.log| && c.log[skipped..] == f.made[from..]
  {
  }

  lemma TailRegroups(units: seq<Unit>, seqNo: int, j: nat, made: seq<seq<byte>>)
    requires Sendable(units) && 0 <= seqNo < 0x1_0000 && j <= |units| && made == SendUnits(units, seqNo)
    ensures Before(units, j) <= |made| && Regroup(made[Before(units, j)..], []) == Some(Streams(units[j..]))
  {
    var next := LaterUnits(units, seqNo, j);
    RegroupUndoesCutting(units[j..], next);
  }

  lemma {:induction false} LaterFrames(frames: seq<Frame>, payloadType: int, ssrc: bv32, j: nat)
    requires 0 <= payloadType < 128 && j < |frames|
    ensures var units := UnitsOf(frames, payloadType, ssrc);
      |units| == |frames| && units[j].key == frames[j].kind.I?
          && |units[j].ps| == MuxSize(frames[j].kind, |frames[j].data|)
          && units[j + 1..] == UnitsOf(frames[j + 1..], payloadType, ssrc)
    decreases j
  {
    var units := UnitsOf(frames, payloadType, ssrc);
    assert units[1..] == UnitsOf(frames[1..], payloadType, ssrc);
    if j > 0 {
      LaterFrames(frames[1..], payloadType, ssrc, j - 1);
      assert units[j + 1..] == units[1..][j..] && frames[j + 1..] == frames[1..][j..];
    } else {
      UnitsLength(frames[1..], payloadType, ssrc);
      MuxHasSize(frames[0].kind, frames[0].data, frames[0].time);
    }
  }

  lemma {:induction false} UnitsLength(frames: seq<Frame>, payloadType: int, ssrc: bv32)
    requires 0 <= payloadType < 128
    ensures |UnitsOf(frames, payloadType, ssrc)| == |frames|
  {
    if frames != [] { UnitsLength(frames[1..], payloadType, ssrc); }
  }

  /** How many packets of its key frame a client that was switched on by the first of them still gets. */
  function RestOfFrame(frame: Frame): int { PacketCount(MuxSize(frame.kind, |frame.data|)) - 1 }

  /** Behind as many packets as the rest of key frame `j` has, a client has got exactly the later frames. */
  ghost predicate DeliveredFrom(log: seq<seq<byte>>, frames: seq<Frame>, j: int)
    requires 0 <= j < |frames|
  {
    var skipped := RestOfFrame(frames[j]);
    frames[j].kind.I? && 0 <= skipped <= |log| && ReceiveFrames(log[skipped..]) == Some(Contents(frames[j + 1..]))
  }

  /** Between packets the client at place `i` is switched on and not flagged. */
  predicate InService(f: Fan, i: int)
  {
    !f.pass.Packet? && 0 <= i < |f.clients| && f.clients[i].synced && !f.clients[i].deleted
  }

  /** In every run in which no visit went astray and whole frames have been sent, a client in service was switched on
      by a key frame, and what it has got after that frame gives back exactly the later frames. */
  lemma FramesReachClients(events: seq<Event>, i: int, frames: seq<Frame>, payloadType: int, ssrc: bv32)
    returns (j: int)
    requires 0 <= payloadType < 128 && NeverAstray(EMPTY, events)
        && Carries(Run(EMPTY, events), UnitsOf(frames, payloadType, ssrc)) && InService(Run(EMPTY, events), i)
    ensures 0 <= j < |frames| && DeliveredFrom(Run(EMPTY, events).clients[i].log, frames, j)
  {
    var f, units := Run(EMPTY, events), UnitsOf(frames, payloadType, ssrc);
    ServedOverEveryRun(events, i);
    FramesAreSendable(frames, payloadType, ssrc);
    var skipped;
    j, skipped := ClientGetsUnits(f.clients[i], f, units);
    LaterFrames(frames, payloadType, ssrc, j);
    DemuxAllUndoesMux(frames[j + 1..], payloadType, ssrc);
  }

  lemma LogIsNumbered(c: Client, f: Fan, due: int)
    requires Served(c, f, due) && Numbered(f.made, 0)
    ensures Numbered(c.log, c.since)
  {
    forall i | 0 <= i < |c.log|
      ensures HasNumber(c.log[i], c.since + i)
    {
      assert HasNumber(f.made[c.since + i], 0 + (c.since + i));
    }
  }

  /** In every run in which no visit went astray a client sees consecutive numbers, starting right after the packet
      that switched it on. */
  lemma ClientSeesConsecutiveNumbers(events: seq<Event>, j: nat, units: seq<Unit>)
    requires Sendable(units) && NeverAstray(EMPTY, events) && j < |Run(EMPTY, events).clients|
    requires Run(EMPTY, events).made == SendUnits(units, 0)
    ensures var c := Run(EMPTY, events).clients[j]; Numbered(c.log, c.since)
  {
    var f := Run(EMPTY, events);
    ServedOverEveryRun(events, j);
    NumberedAcrossFrames(units, 0);
    LogIsNumbered(f.clients[j], f, Due(f, j));
  }

  // ---------------------------------------------------------------- time stamps

  /** A 32-bit number, most significant byte first. */
  function Big(s: seq<byte>): int
    requires |s| == 4
  {
    s[0] as int * 0x100_0000 + s[1] as int * 0x1_0000 + s[2] as int * 0x100 + s[3] as int
  }

  /** An RTP packet of this payload type and source with the low 32 bits of the time as its timestamp. */
  predicate Stamped(p: seq<byte>, time: bv64, payloadType: int, ssrc: bv32)
  {
    && Read(p).Some?
    && var st := Read(p).value.st;
       st.payloadType == payloadType && |st.timestamp| == |st.ssrc| == 4
       && Big(st.timestamp) == time as int % 0x1_0000_0000 && Big(st.ssrc) == ssrc as int
  }

  lemma JoinsWords(high: bv32, low: bv32, t: bv64)
    requires t == (high as bv64 << 32) | low as bv64
    ensures t as int == high as int * 0x1_0000_0000 + low as int
  {
  }

  lemma HighAndLow(t: bv64, high: bv32, low: bv32)
    requires high == (t >> 32) as bv32 && low == (t & 0xFFFF_FFFF) as bv32
    ensures t == (high as bv64 << 32) | low as bv64
  {
  }

  lemma LowIsRemainder(time: bv64)
    ensures Low32(time) as int == time as int % 0x1_0000_0000
  {
    var high, low := (time >> 32) as bv32, (time & 0xFFFF_FFFF) as bv32;
    HighAndLow(time, high, low);
    JoinsWords(high, low, time);
    RemainderIs(high as int, low as int, time as int);
  }

  lemma RemainderIs(high: int, low: int, t: int)
    requires t == high * 0x1_0000_0000 + low && 0 <= low < 0x1_0000_0000
    ensures t % 0x1_0000_0000 == low
  {
  }

  lemma JoinsBytes(a: bv8, b: bv8, c: bv8, d: bv8, v: bv32)
    requires v == (a as bv32 << 24) | (b as bv32 << 16) | (c as bv32 << 8) | d as bv32
    ensures v as int == a as int * 0x100_0000 + b as int * 0x1_0000 + c as int * 0x100 + d as int
  {
  }

  lemma BigOfWords(a: bv8, b: bv8, c: bv8, d: bv8)
    ensures Big([FromWord(a), FromWord(b), FromWord(c), FromWord(d)])
         == a as int * 0x100_0000 + b as int * 0x1_0000 + c as int * 0x100 + d as int
  {
  }

  lemma BigReads(v: bv32)
    ensures Big(Be32(v)) == v as int
  {
    var a, b, c, d := ((v >> 24) & 0xFF) as bv8, ((v >> 16) & 0xFF) as bv8, ((v >> 8) & 0xFF) as bv8, (v & 0xFF) as bv8;
    BytesJoin(v, a, b, c, d);
    JoinsBytes(a, b, c, d, v);
    BigOfWords(a, b, c, d);
  }

  lemma BytesJoin(v: bv32, a: bv8, b: bv8, c: bv8, d: bv8)
    requires a == ((v >> 24) & 0xFF) as bv8 && b == ((v >> 16) & 0xFF) as bv8
    requires c == ((v >> 8) & 0xFF) as bv8 && d == (v & 0xFF) as bv8
    ensures v == (a as bv32 << 24) | (b as bv32 << 16) | (c as bv32 << 8) | d as bv32
  {
  }

  /** All packets of a frame carry its stamp. */
  lemma FrameIsStamped(ps: seq<byte>, seqNo: int, time: bv64, payloadType: int, ssrc: bv32)
    requires 0 <= payloadType < 128 && 0 <= seqNo < 0x1_0000
    ensures forall p <- Packets(ps, seqNo, StampOf(payloadType, time, ssrc)) :: Stamped(p, time, payloadType, ssrc)
  {
    var packets := Packets(ps, seqNo, StampOf(payloadType, time, ssrc));
    CountIs(ps, seqNo, StampOf(payloadType, time, ssrc));
    LowIsRemainder(time);
    BigReads(Low32(time));
    BigReads(ssrc);
    forall i | 0 <= i < |packets| ensures Stamped(packets[i], time, payloadType, ssrc) {
      PacketAt(ps, seqNo, StampOf(payloadType, time, ssrc), i);
    }
  }

  /** Every packet made of some frames is one of frame `j` and carries, as a number, its time modulo 2^32, and the
      payload type and source of the session. */
  lemma {:induction false} PacketsAreStamped(frames: seq<Frame>, seqNo: int, payloadType: int, ssrc: bv32, i: nat)
    returns (j: nat)
    requires 0 <= payloadType < 128 && 0 <= seqNo < 0x1_0000
    requires i < |SendUnits(UnitsOf(frames, payloadType, ssrc), seqNo)|
    ensures j < |frames| && |UnitsOf(frames, payloadType, ssrc)| == |frames|
    ensures var units := UnitsOf(frames, payloadType, ssrc);
      && Before(units, j) <= i < Before(units, j + 1)
      && Stamped(SendUnits(units, seqNo)[i], frames[j].time, payloadType, ssrc)
    decreases |frames|
  {
    var units := UnitsOf(frames, payloadType, ssrc);
    var first, after := FirstUnit(frames, seqNo, payloadType, ssrc);
    UnitsLength(frames, payloadType, ssrc);
    if i < |first| {
      j := 0;
      assert first[i] in first;
      BeforeStep(units, 0);
    } else {
      var k := PacketsAreStamped(frames[1..], after, payloadType, ssrc, i - |first|);
      BeforeStep(units, k);
      BeforeStep(units, k + 1);
      j := k + 1;
    }
  }

  /** The packets of the first frame and those of the others. */
  lemma FirstUnit(frames: seq<Frame>, seqNo: int, payloadType: int, ssrc: bv32)
    returns (first: seq<seq<byte>>, after: int)
    requires 0 <= payloadType < 128 && 0 <= seqNo < 0x1_0000 && frames != []
    ensures 0 <= after < 0x1_0000
    ensures var units := UnitsOf(frames, payloadType, ssrc);
      && units != [] && units[1..] == UnitsOf(frames[1..], payloadType, ssrc)
      && SendUnits(units, seqNo) == first + SendUnits(units[1..], after) && |first| == PacketCount(|units[0].ps|)
    ensures forall p <- first :: Stamped(p, frames[0].time, payloadType, ssrc)
  {
    var units := UnitsOf(frames, payloadType, ssrc);
    var u := units[0];
    first, after := Packets(u.ps, seqNo, u.stamp), SeqAfter(|u.ps|, seqNo);
    SeqStays(|u.ps|, seqNo);
    CountIs(u.ps, seqNo, u.stamp);
    FrameIsStamped(u.ps, seqNo, frames[0].time, payloadType, ssrc);
  }

  lemma BeforeStep(units: seq<Unit>, j: nat)
    requires j < |units|
    ensures Before(units, j + 1) == PacketCount(|units[0].ps|) + Before(units[1..], j)
    ensures Before(units, 0) == 0 && Before(units[1..], 0) == 0
  {
  }

  // ---------------------------------------------------------------- one frame through the buffers

  /** What the send task does with a video frame: it muxes the frame into its own buffer, behind the
      headroom, and sends it from there. */
  method SendFrame(node: Sender.StreamNode, src: array<byte>, from: int, frameLen: int, kind: FrameKind, time: bv64,
                   psData: array<byte>, preSize: int)
    returns (left: nat)
    requires src != psData && 0 <= frameLen && 0 <= from && from + frameLen <= src.Length
    requires HEADER_SIZE <= preSize && preSize + MuxSize(kind, frameLen) <= psData.Length
    requires 0 <= node.rtp.payloadType < 128 && 0 <= node.rtp.seqNo < 0x1_0000
    modifies psData, node, node.rtp
    ensures left <= |node.clients|
    ensures var ps := Mux(kind, old(src[from..from + frameLen]), time);
      var packets := Packets(ps, old(node.rtp.seqNo), StampOf(node.rtp.payloadType, time, node.rtp.ssrc));
      && node.AsFan(left, kind.I?, |packets|) == SendAll(old(node.AsFan(|node.clients|, kind.I?, 0)), packets)
      && node.rtp.seqNo == SeqAfter(|ps|, old(node.rtp.seqNo))
    ensures |node.made| == |old(node.made)| + PacketCount(MuxSize(kind, frameLen))
    ensures node.made[..|old(node.made)|] == old(node.made)
    ensures forall p <- node.made[|old(node.made)|..] :: Stamped(p, time, node.rtp.payloadType, node.rtp.ssrc)
  {
    ghost var was, frame := psData[..], src[..][from..from + frameLen];
    ghost var before, seqNo := node.AsFan(|node.clients|, kind.I?, 0), node.rtp.seqNo;
    var len := PsMux.PsProcess(src, from, frameLen, kind, time, psData, preSize);
    SpliceReads(was, preSize, Mux(kind, frame, time));
    MuxNotEmpty(kind, frame, time);
    var unused;
    unused, left := node.PackPsRtpAndAddNode(psData, len, Low32(time), preSize, kind.I?);
    ghost var ps, st := Mux(kind, frame, time), StampOf(node.rtp.payloadType, time, node.rtp.ssrc);
    SendAllRecords(before, Packets(ps, seqNo, st));
    CountIs(ps, seqNo, st);
    MuxHasSize(kind, frame, time);
    FrameIsStamped(ps, seqNo, time, node.rtp.payloadType, node.rtp.ssrc);
    assert node.made == before.made + Packets(ps, seqNo, st);
  }

  /** What the send task does with a frame taken off the queue: key frames and others are muxed and sent as such, and
      everything else is dropped. */
  method SendQueued(node: Sender.StreamNode, dataType: int, src: array<byte>, from: int, frameLen: int, time: bv64,
                    psData: array<byte>, preSize: int)
    returns (left: nat)
    requires src != psData && 0 <= frameLen && 0 <= from && from + frameLen <= src.Length
    requires HEADER_SIZE <= preSize && preSize + MuxSize(if dataType == 1 then I else P, frameLen) <= psData.Length
    requires 0 <= node.rtp.payloadType < 128 && 0 <= node.rtp.seqNo < 0x1_0000
    modifies psData, node, node.rtp
    ensures left <= |node.clients|
    ensures dataType == 1 || dataType == 2 ==>
      var key := dataType == 1;
      var ps := Mux(if key then I else P, old(src[from..from + frameLen]), time);
      var packets := Packets(ps, old(node.rtp.seqNo), StampOf(node.rtp.payloadType, time, node.rtp.ssrc));
      node.AsFan(left, key, |packets|) == SendAll(old(node.AsFan(|node.clients|, key, 0)), packets)
    ensures dataType != 1 && dataType != 2 ==>
      node.rtp.seqNo == old(node.rtp.seqNo) && node.AsFan(left, false, 0) == old(node.AsFan(|node.clients|, false, 0))
  {
    left := |node.clients|;
    if dataType == Reassembly.I_FRAME {
      left := SendFrame(node, src, from, frameLen, I, time, psData, preSize);
    } else if dataType == Reassembly.BP_FRAME {
      left := SendFrame(node, src, from, frameLen, P, time, psData, preSize);
    }
  }

  lemma SpliceReads(buf: seq<byte>, off: int, s: seq<byte>)
    requires 0 <= off && off + |s| <= |buf|
    ensures Splice(buf, off, s)[off..off + |s|] == s
  {
  }
}

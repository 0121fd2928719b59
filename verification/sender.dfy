/** `pack_ps_rtp_and_add_node` while nothing else touches the client list: a frame is cut into packets inside
    its buffer and every packet is offered to every listed client before the next header overwrites anything.
    `FanOut.UndisturbedWalk` ties the passes over the clients to the walk that takes one access at a time. */
module Sender {
  import opened Bytes
  import opened Buffers
  import opened Rtp
  import opened RtpPack
  import opened FanOut
  import opened ListRace

  class StreamNode {
    const rtp: RtpInfo
    var clients: seq<Client>

    // a log the program does not keep: the packets made, the kind of frame each came from, and which are first
    var made: seq<seq<byte>>
    var keys: seq<bool>
    var firsts: seq<bool>

    constructor (payloadType: int, ssrc: bv32)
      requires 0 <= payloadType < 128
      ensures fresh(rtp) && rtp.payloadType == payloadType && rtp.seqNo == 0
      ensures forall key :: AsFan(0, key, 0) == EMPTY.(pass := Frame(0, key, 0))
    {
      rtp := new RtpInfo(payloadType, ssrc);
      clients, made, keys, firsts := [], [], [], [];
    }

    /** Between the packets of a frame of which `sent` have been made. */
    ghost function AsFan(listed: nat, key: bool, sent: nat): Fan
      reads this
    {
      Fan(clients, Quiet, Frame(listed, key, sent), made, keys, firsts)
    }

    /** One visit: the client is dropped, or served, or switched on. */
    method VisitOne(i: nat, packet: seq<byte>, key: bool) returns (dropped: bool)
      requires i < |clients|
      modifies this`clients
      ensures dropped == old(clients)[i].deleted
      ensures clients == if dropped then old(clients)[..i] + old(clients)[i + 1..]
                         else old(clients)[i := Visit(old(clients)[i], packet, key, |made|)]
    {
      var c := clients[i];
      dropped := c.deleted;
      if dropped {
        clients := clients[..i] + clients[i + 1..];
      } else if c.synced {
        clients := clients[i := c.(log := c.log + [packet])];
      } else if key {
        clients := clients[i := c.(synced := true, since := |made| + 1)];
      }
    }

    /** Of the clients `all` the first `k` have been visited. */
    ghost predicate Walked(all: seq<Client>, k: int, packet: seq<byte>, key: bool, n: nat, i: nat)
      reads this
    {
      && 0 <= k <= |all| && i == |Walk(all[..k], packet, key, n)|
      && clients == Walk(all[..k], packet, key, n) + all[k..]
    }

    method WalkTurn(i: nat, packet: seq<byte>, key: bool, ghost all: seq<Client>, ghost k: int) returns (dropped: bool)
      requires Walked(all, k, packet, key, |made|, i) && k < |all|
      modifies this`clients
      ensures Walked(all, k + 1, packet, key, |made|, if dropped then i else i + 1)
    {
      WalkStep(clients, all, k, packet, key, |made|, i);
      dropped := VisitOne(i, packet, key);
    }

    /** The inner loop: one packet to every listed client, dropping those flagged for deletion. */
    method VisitAll(listed: nat, packet: seq<byte>, key: bool) returns (left: nat)
      requires listed <= |clients|
      modifies this`clients
      ensures Walked(old(clients), listed, packet, key, |made|, left)
    {
      ghost var all := clients;
      var i, tmp := 0, listed;
      left := listed;
      assert Walk(all[..0], packet, key, |made|) == [];
      while tmp != 0
        invariant 0 <= tmp <= listed && left == i + tmp && Walked(all, listed - tmp, packet, key, |made|, i)
      {
        var dropped := WalkTurn(i, packet, key, all, listed - tmp);
        if dropped { left := left - 1; } else { i := i + 1; }
        tmp := tmp - 1;
      }
    }

    /** A packet goes to the clients, and into the log. */
    method SendToClients(listed: nat, packet: seq<byte>, key: bool, ghost sent: nat, first: bool) returns (left: nat)
      requires listed <= |clients| && first == (sent == 0)
      modifies this
      ensures left <= |clients| && AsFan(left, key, sent + 1) == Send(old(AsFan(listed, key, sent)), packet)
    {
      left := VisitAll(listed, packet, key);
      made, keys, firsts := made + [packet], keys + [key], firsts + [first];
    }

    /** Of the packets `whole` of a frame, `sent` have been made and the buffer still holds the rest. */
    ghost predicate Cut(bytes: seq<byte>, st: Stamp, whole: seq<seq<byte>>, sent: seq<seq<byte>>, last: int)
      reads rtp
    {
      && rtp.Cutting(|bytes|) && rtp.St() == st
      && whole == sent + Packets(bytes[rtp.end..rtp.nalEnd], rtp.seqNo, st)
      && SeqAfter(rtp.nalEnd - rtp.end, rtp.seqNo) == last
    }

    /** They have also gone out to the clients. */
    ghost predicate Underway(bytes: seq<byte>, left: nat, before: Fan, key: bool, st: Stamp,
                             whole: seq<seq<byte>>, sent: seq<seq<byte>>, last: int)
      reads this, rtp
    {
      && left <= |clients| && Between(before)
      && Cut(bytes, st, whole, sent, last) && AsFan(left, key, |sent|) == SendAll(before, sent)
    }

    /** The next packet, as it stands in the buffer. */
    method NextPacket(buf: array<byte>, ghost st: Stamp, ghost whole: seq<seq<byte>>, ghost sent: seq<seq<byte>>,
        ghost last: int)
      returns (found: bool, packet: seq<byte>)
      requires Cut(buf[..], st, whole, sent, last)
      modifies rtp, buf
      ensures Cut(buf[..], st, whole, if found then sent + [packet] else sent, last) && rtp.nalEnd == old(rtp.nalEnd)
      ensures if found then old(rtp.end) < rtp.end else sent == whole && rtp.seqNo == last
    {
      ghost var was, end, seqNo := buf[..], rtp.end, rtp.seqNo;
      var pRtp, size;
      found, pRtp, size := rtp.GetRtpPsPack(buf);
      packet := [];
      if found {
        CutStep(was, buf[..], end, rtp.end, rtp.nalEnd, seqNo, st, whole, sent);
        packet := buf[..][pRtp..pRtp + size];
      } else {
        assert buf[..][rtp.end..rtp.nalEnd] == [];
      }
    }

    /** One turn of the sending loop. */
    method SendPacket(buf: array<byte>, listed: nat, key: bool, first: bool, ghost before: Fan, ghost st: Stamp,
                      ghost whole: seq<seq<byte>>, ghost sent: seq<seq<byte>>, ghost last: int)
      returns (found: bool, left: nat, ghost sent': seq<seq<byte>>)
      requires Underway(buf[..], listed, before, key, st, whole, sent, last) && first == (sent == [])
      modifies this, rtp, buf
      ensures Underway(buf[..], left, before, key, st, whole, sent', last) && rtp.nalEnd == old(rtp.nalEnd)
      ensures found ==> old(rtp.end) < rtp.end && sent' != []
      ensures !found ==> sent' == whole && rtp.seqNo == last
    {
      left, sent' := listed, sent;
      var packet;
      found, packet := NextPacket(buf, st, whole, sent, last);
      if found {
        SendAllSnoc(before, sent, packet);
        left := SendToClients(listed, packet, key, |sent|, first);
        sent' := sent + [packet];
      }
    }

    /** Sends the frame at `preSize`: its packets, in order, to the clients listed now.  `left` of the
        listed clients remain. */
    method PackPsRtpAndAddNode(buf: array<byte>, dataSize: int, time: bv32, preSize: int, key: bool)
      returns (curDataSize: int, left: nat)
      requires HEADER_SIZE <= preSize && 0 <= dataSize && preSize + dataSize <= buf.Length
      requires 0 <= rtp.payloadType < 128 && 0 <= rtp.seqNo < 0x1_0000
      modifies this, rtp, buf
      ensures curDataSize == 0 && left <= |clients|
      ensures dataSize <= 3 ==> AsFan(left, key, 0) == old(AsFan(|clients|, key, 0)) && rtp.seqNo == old(rtp.seqNo)
      ensures dataSize > 3 ==>
        var st := Stamp(rtp.payloadType, Be32(time), Be32(rtp.ssrc));
        var packets := Packets(old(buf[..])[preSize..preSize + dataSize], old(rtp.seqNo), st);
        && AsFan(left, key, |packets|) == SendAll(old(AsFan(|clients|, key, 0)), packets)
        && rtp.seqNo == SeqAfter(dataSize, old(rtp.seqNo))
    {
      curDataSize, left := 0, |clients|;
      if dataSize > 3 {
        ghost var before, bytes := AsFan(left, key, 0), buf[..];
        rtp.SetRtpPack1(preSize, dataSize, time, true);
        ghost var st, last := rtp.St(), SeqAfter(dataSize, rtp.seqNo);
        ghost var whole := Packets(bytes[preSize..preSize + dataSize], rtp.seqNo, st);
        ghost var sent: seq<seq<byte>> := [];
        var found, first := true, true;
        while found
          invariant Underway(buf[..], left, before, key, st, whole, sent, last)
          invariant !found ==> sent == whole && rtp.seqNo == last
          invariant found ==> first == (sent == [])
          decreases rtp.nalEnd - rtp.end, found
        {
          found, left, sent := SendPacket(buf, left, key, first, before, st, whole, sent, last);
          first := false;
        }
      }
    }
  }

  /** The packet just made is the next one of the frame, and the rest of the frame is still intact. */
  lemma CutStep(was: seq<byte>, now: seq<byte>, end: int, next: int, nalEnd: int, seqNo: int, st: Stamp,
      whole: seq<seq<byte>>, sent: seq<seq<byte>>)
    requires st.Ok() && HEADER_SIZE <= end < nalEnd <= |was| && next == end + Chunk(nalEnd - end)
    requires whole == sent + Packets(was[end..nalEnd], seqNo, st)
    requires now == Splice(was, end - HEADER_SIZE, Header(next == nalEnd, seqNo, st))
    ensures end < next <= nalEnd
    ensures whole == sent + [now[end - HEADER_SIZE..next]] + Packets(now[next..nalEnd], NextSeq(seqNo), st)
    ensures SeqAfter(nalEnd - end, seqNo) == SeqAfter(nalEnd - next, NextSeq(seqNo))
  {
    var rest := was[end..nalEnd];
    var n := Chunk(nalEnd - end);
    PacketInPlace(was, Header(next == nalEnd, seqNo, st), end - HEADER_SIZE, next, nalEnd);
    SliceOfSlice(was, end, nalEnd, 0, n);
    SliceOfSlice(was, end, nalEnd, n, nalEnd - end);
    assert Packets(rest, seqNo, st)
        == [Header(n == |rest|, seqNo, st) + rest[..n]] + Packets(rest[n..], NextSeq(seqNo), st);
  }
}

/** When clients are sure to get what the frames were made into: exactly while no more than one is ever listed. */
module Delivery {
  import opened Bytes
  import opened PsStream
  import opened Rtp
  import opened FanOut
  import opened FanRace
  import opened EndToEnd

  /** In every run within `n` clients that has sent whole frames, each client in service has got the frames behind the
      key frame that switched it on. */
  ghost predicate AllDelivered(n: int)
  {
    forall events, i, frames, payloadType, ssrc ::
      0 <= payloadType < 128 && Within(EMPTY, events, n) && InService(Run(EMPTY, events), i)
      && Carries(Run(EMPTY, events), UnitsOf(frames, payloadType, ssrc))
      ==> Delivered(Run(EMPTY, events).clients[i].log, frames)
  }

  ghost predicate Delivered(log: seq<seq<byte>>, frames: seq<EndToEnd.Frame>)
  {
    exists j :: 0 <= j < |frames| && DeliveredFrom(log, frames, j)
  }

  /** In every run within `n` clients that has sent some program streams, each client has seen consecutive numbers. */
  ghost predicate AllNumbered(n: int)
  {
    forall events, i, units ::
      Sendable(units) && Within(EMPTY, events, n) && 0 <= i < |Run(EMPTY, events).clients|
      && Run(EMPTY, events).made == SendUnits(units, 0)
      ==> NumberedLog(Run(EMPTY, events).clients[i])
  }

  ghost predicate NumberedLog(c: Client) { Numbered(c.log, c.since) }

  /** A key frame whose program stream takes three packets. */
  const LONG := EndToEnd.Frame(I, seq(3000, i => 0), 0)

  lemma LongTakesThree()
    ensures |Mux(LONG.kind, LONG.data, LONG.time)| == MuxSize(I, 3000) && PacketCount(MuxSize(I, 3000)) == 3
  {
    MuxHasSize(LONG.kind, LONG.data, LONG.time);
  }

  lemma RecordOfOne(u: EndToEnd.Unit, f: Fan)
    requires u.key && PacketCount(|u.ps|) == 3 && f.keys == [true, true, true] && f.firsts == [true, false, false]
    requires f.made == Packets(u.ps, 0, u.stamp)
    ensures Carries(f, [u])
  {
    assert [u][1..] == [];
    assert Same(3, true) == [true, true, true] && FirstOnly(3, 0) == [true, false, false];
    assert SendUnits([], SeqAfter(|u.ps|, 0)) == [] && Keys([]) == [] && Firsts([]) == [];
  }

  /** A run in which a client gets only the third packet of such a frame after the one that switched it on. */
  lemma LongFrameWithGap() returns (events: seq<Event>, units: seq<EndToEnd.Unit>)
    ensures Within(EMPTY, events, 2) && units == UnitsOf([LONG], 96, 0) && Sendable(units)
    ensures var f := Run(EMPTY, events);
      Carries(f, units) && InService(f, 0) && f.clients[0].since == 1
          && |f.made| == 3 && f.clients[0].log == [f.made[2]]
  {
    units := UnitsOf([LONG], 96, 0);
    FramesAreSendable([LONG], 96, 0);
    LongTakesThree();
    var u := units[0];
    assert [LONG][1..] == [] && units == [u];
    CountIs(u.ps, 0, u.stamp);
    var ps := Packets(u.ps, 0, u.stamp);
    assert ps == [ps[0], ps[1], ps[2]];
    events := LosesPacket(ps[0], ps[1], ps[2]);
    RecordOfOne(u, Run(EMPTY, events));
  }

  /** What follows the key frame is sure to reach the clients in service if and only if no more than one client is
      ever listed. */
  lemma DeliveryExactly(n: int)
    ensures AllDelivered(n) <==> n <= 1
  {
    if n <= 1 {
      forall events, i, frames, payloadType, ssrc |
        0 <= payloadType < 128 && Within(EMPTY, events, n) && InService(Run(EMPTY, events), i)
        && Carries(Run(EMPTY, events), UnitsOf(frames, payloadType, ssrc))
        ensures Delivered(Run(EMPTY, events).clients[i].log, frames)
      {
        OneClientNeverAstray(events, n);
        var j := FramesReachClients(events, i, frames, payloadType, ssrc);
      }
    } else {
      var events, units := LongFrameWithGap();
      WithinMore(EMPTY, events, 2, n);
      LongTakesThree();
      assert RestOfFrame(LONG) == 2;
      assert !Delivered(Run(EMPTY, events).clients[0].log, [LONG]);
    }
  }

  /** The numbers a client sees are sure to be consecutive if and only if no more than one client is ever listed. */
  lemma NumbersExactly(n: int)
    ensures AllNumbered(n) <==> n <= 1
  {
    if n <= 1 {
      forall events, i, units |
        Sendable(units) && Within(EMPTY, events, n) && 0 <= i < |Run(EMPTY, events).clients|
        && Run(EMPTY, events).made == SendUnits(units, 0)
        ensures NumberedLog(Run(EMPTY, events).clients[i])
      {
        OneClientNeverAstray(events, n);
        ClientSeesConsecutiveNumbers(events, i, units);
      }
    } else {
      var events, units := LongFrameWithGap();
      WithinMore(EMPTY, events, 2, n);
      NumberedAcrossFrames(units, 0);
      var f := Run(EMPTY, events);
      assert HasNumber(f.made[2], 0 + 2);
      assert !HasNumber(f.clients[0].log[0], f.clients[0].since + 0);
      assert !NumberedLog(f.clients[0]);
    }
  }
}

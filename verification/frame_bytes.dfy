/** What the stream callback makes of the bytes it receives, said on these bytes: which frames are queued, of which
    kind and with which stamp, and when the stream is closed. */
module FrameBytes {
  import opened Bytes
  import opened Wire
  import opened Reassembly

  /** The signed 32-bit number at `at`, least significant byte first. */
  function Signed(b: seq<byte>, at: int): int
    requires 0 <= at && at + 4 <= |b|
  {
    var n := b[at] as int + 0x100 * b[at + 1] as int + 0x1_0000 * b[at + 2] as int + 0x100_0000 * b[at + 3] as int;
    if n >= 0x8000_0000 then n - 0x1_0000_0000 else n
  }

  /** A whole block begins at `p`, the last of its frame. */
  predicate LastBlockAt(b: seq<byte>, p: int)
  {
    0 <= p && p + 28 <= |b| && 28 <= Signed(b, p) && p + Signed(b, p) <= |b| && b[p + 25] != 0
  }

  /** What is queued for the frame whose last block begins at `p`: kind, stamp, and the payload at its end. */
  predicate QueuedFor(b: seq<byte>, p: int, e: Entry)
    requires LastBlockAt(b, p)
  {
    && e.dataType == (if b[p + 7] == 1 then 1 else if b[p + 7] == 0 then 2 else if b[p + 7] == 4 then 3 else 0)
    && e.vPts == (Signed(b, p + 8) * 0x1_0000_0000 + Signed(b, p + 12)) * 90 % 0x1_0000_0000_0000_0000
    && Signed(b, p) - 28 <= |e.data| && e.data[|e.data| - (Signed(b, p) - 28)..] == b[p + 28..p + Signed(b, p)]
  }

  /** The head of a message is that of the block at `p`. */
  predicate HeadAt(b: seq<byte>, p: int, m: Message)
  {
    && LastBlockAt(b, p) && m.head == ReadHead(b[p..])
    && Signed(b, p) - 28 <= |m.data| && m.data[|m.data| - (Signed(b, p) - 28)..] == b[p + 28..p + Signed(b, p)]
  }

  lemma HeadIs(b: seq<byte>, p: int)
    requires 0 <= p && p + 28 <= |b|
    ensures var h := ReadHead(b[p..]);
      && h.actLength == Signed(b, p) && h.dataType == b[p + 6] && h.frameType == b[p + 7]
      && h.timeHigh == Signed(b, p + 8) && h.timeLow == Signed(b, p + 12) && h.endFlag == (b[p + 25] != 0)
  {
    FieldIs(b, p, 0);
    FieldIs(b, p, 8);
    FieldIs(b, p, 12);
  }

  lemma FieldIs(b: seq<byte>, p: int, at: int)
    requires 0 <= p && 0 <= at && p + at + 4 <= |b|
    ensures DeLe32(b[p..][at..at + 4]) == Signed(b, p + at)
  {
    assert b[p..][at..at + 4] == b[p + at..p + at + 4];
  }

  /** Positions in order. */
  predicate Increasing(ps: seq<int>) { forall i, j :: 0 <= i < j < |ps| ==> ps[i] < ps[j] }

  /** Each message completed has its last block at its position, all before `limit`. */
  predicate Located(b: seq<byte>, done: seq<Message>, ps: seq<int>, limit: int)
  {
    && |ps| == |done| && Increasing(ps)
    && forall i :: 0 <= i < |ps| ==> ps[i] < limit && HeadAt(b, ps[i], done[i])
  }

  lemma LocatedSnoc(b: seq<byte>, done: seq<Message>, ps: seq<int>, at: int, limit: int, m: Message)
    requires Located(b, done, ps, at) && HeadAt(b, at, m) && at < limit
    ensures Located(b, done + [m], ps + [at], limit)
  {
  }

  lemma BlockMoves(b: seq<byte>, at: nat, s: seq<byte>)
    requires at <= |b| && s == b[at..] && Complete(s)
    ensures var n := BlockLength(s);
      at + n <= |b| && s[n..] == b[at + n..] && s[HEAD_SIZE..n] == b[at + HEAD_SIZE..at + n] && n == Signed(b, at)
  {
    HeadIs(b, at);
  }

  lemma LastAt(b: seq<byte>, p: Parse, at: nat)
    requires at <= |b| && p.rest == b[at..] && Complete(p.rest) && ReadHead(p.rest).endFlag
    ensures HeadAt(b, at, Message(ReadHead(p.rest), Gather(p).acc))
  {
    HeadIs(b, at);
    BlockMoves(b, at, p.rest);
    EndOf(p.acc, p.rest[HEAD_SIZE..BlockLength(p.rest)]);
  }

  lemma EndOf(a: seq<byte>, c: seq<byte>)
    ensures (a + c)[|a + c| - |c|..] == c
  {
  }

  lemma BlockLocated(b: seq<byte>, p: Parse, at: nat, ps: seq<int>)
    requires at <= |b| && p.rest == b[at..] && Complete(p.rest) && Located(b, p.done, ps, at)
    ensures var q, n := TakeBlock(p), BlockLength(p.rest);
      && at + n <= |b| && q.rest == b[at + n..]
      && Located(b, q.done, if ReadHead(p.rest).endFlag then ps + [at] else ps, at + n)
  {
    BlockMoves(b, at, p.rest);
    if ReadHead(p.rest).endFlag {
      LastAt(b, p, at);
      LocatedSnoc(b, p.done, ps, at, at + BlockLength(p.rest), Message(ReadHead(p.rest), Gather(p).acc));
    }
  }

  lemma {:induction false} AllLocated(b: seq<byte>, p: Parse, at: nat, ps: seq<int>) returns (qs: seq<int>)
    requires at <= |b| && p.rest == b[at..] && Located(b, p.done, ps, at)
    ensures Located(b, ParseAll(p).done, qs, |b|)
    decreases |p.rest|
  {
    if Complete(p.rest) {
      BlockLocated(b, p, at, ps);
      qs := AllLocated(b, TakeBlock(p), at + BlockLength(p.rest), if ReadHead(p.rest).endFlag then ps + [at] else ps);
    } else {
      qs := ps;
    }
  }

  /** Message `i` is queued: it is media, and a key frame has come. */
  predicate Wanted(done: seq<Message>, i: int, started: bool)
    requires 0 <= i < |done|
  {
    done[i].head.dataType == 13 && (started || exists j :: 0 <= j <= i && done[j].head.frameType == 1)
  }

  /** The queue is the wanted messages in order. */
  lemma {:induction false} QueuedAre(done: seq<Message>, started: bool) returns (ix: seq<int>)
    ensures |ix| == |Queued(done, started)| && Increasing(ix)
    ensures forall k :: 0 <= k < |ix| ==> 0 <= ix[k] < |done| && Queued(done, started)[k] == EntryOf(done[ix[k]])
    ensures forall i :: 0 <= i < |done| ==> (i in ix <==> Wanted(done, i, started))
    decreases |done|
  {
    if done == [] {
      ix := [];
    } else {
      var on := started || IsKey(done[0]);
      var rest := QueuedAre(done[1..], on);
      ix := ShiftedBy(rest, if on && IsMedia(done[0]) then [0] else []);
      WantedShifts(done, started);
    }
  }

  /** Places one further on, behind `first`. */
  lemma ShiftedBy(rest: seq<int>, first: seq<int>) returns (ix: seq<int>)
    requires Increasing(rest) && (forall k :: 0 <= k < |rest| ==> rest[k] >= 0) && (first == [] || first == [0])
    ensures |ix| == |first| + |rest| && Increasing(ix)
    ensures forall k :: 0 <= k < |ix| ==> ix[k] == if k < |first| then 0 else rest[k - |first|] + 1
    ensures forall i :: i > 0 ==> (i in ix <==> i - 1 in rest)
    ensures 0 in ix <==> first == [0]
  {
    ix := first + seq(|rest|, k requires 0 <= k < |rest| => rest[k] + 1);
    assert forall k :: 0 <= k < |ix| ==> ix[k] == if k < |first| then 0 else rest[k - |first|] + 1;
    forall i | i > 0 ensures i in ix <==> i - 1 in rest { InShifted(rest, first, ix, i); }
  }

  lemma InShifted(rest: seq<int>, first: seq<int>, ix: seq<int>, i: int)
    requires |ix| == |first| + |rest| && i > 0
    requires forall k :: 0 <= k < |ix| ==> ix[k] == if k < |first| then 0 else rest[k - |first|] + 1
    ensures i in ix <==> i - 1 in rest
  {
    if i in ix {
      var k :| 0 <= k < |ix| && ix[k] == i;
      assert rest[k - |first|] == i - 1;
    }
    if i - 1 in rest {
      var k :| 0 <= k < |rest| && rest[k] == i - 1;
      assert ix[|first| + k] == i;
    }
  }

  lemma WantedShifts(done: seq<Message>, started: bool)
    requires done != []
    ensures var on := started || done[0].head.frameType == 1;
      && (Wanted(done, 0, started) <==> on && done[0].head.dataType == 13)
      && forall i :: 0 < i < |done| ==> (Wanted(done, i, started) <==> Wanted(done[1..], i - 1, on))
  {
    forall i | 0 < i < |done|
      ensures Wanted(done, i, started) <==> Wanted(done[1..], i - 1, started || done[0].head.frameType == 1)
    {
      if j :| 0 < j <= i && done[j].head.frameType == 1 { assert done[1..][j - 1].head.frameType == 1; }
      assert forall j :: 0 <= j < |done| - 1 ==> done[1..][j] == done[j + 1];
    }
  }

  /** In every run the frames completed have their last blocks at `ps`, in order, in the bytes received, and of these
      exactly those are queued, in order, whose data type byte is 13 and at or before which there is a frame type byte
      of 1; their kinds and stamps are what the bytes of these blocks say. */
  lemma QueueByBytes(events: seq<Event>) returns (ps: seq<int>, ix: seq<int>)
    ensures var r := Run(START, events);
      && |ps| == |r.p.done| && Increasing(ps) && |ix| == |r.queue| && Increasing(ix)
      && (forall i :: 0 <= i < |ps| ==> LastBlockAt(r.arrived, ps[i]))
      && (forall i :: 0 <= i < |ps| ==>
            (i in ix <==> r.arrived[ps[i] + 6] == 13 && exists j :: 0 <= j <= i && r.arrived[ps[j] + 7] == 1))
      && forall k :: 0 <= k < |ix| ==> 0 <= ix[k] < |ps| && QueuedFor(r.arrived, ps[ix[k]], r.queue[k])
  {
    var r := Run(START, events);
    FramesArePrefix(events);
    ps := CompletedAt(r.arrived, r.p.done);
    ix := QueuedAre(r.p.done, false);
    WantedByBytes(r.arrived, r.p.done, ps);
    forall k | 0 <= k < |ix| ensures QueuedFor(r.arrived, ps[ix[k]], r.queue[k]) {
      EntrySays(r.arrived, ps[ix[k]], r.p.done[ix[k]]);
    }
  }

  lemma CompletedAt(b: seq<byte>, done: seq<Message>) returns (ps: seq<int>)
    requires done <= OneShot(b).done
    ensures Located(b, done, ps, |b|)
  {
    var qs := AllLocated(b, Parse([], [], b), 0, []);
    ps := qs[..|done|];
  }

  lemma EntrySays(b: seq<byte>, p: int, m: Message)
    requires HeadAt(b, p, m)
    ensures QueuedFor(b, p, EntryOf(m))
  {
    HeadIs(b, p);
  }

  lemma HeadsSay(b: seq<byte>, done: seq<Message>, ps: seq<int>)
    requires Located(b, done, ps, |b|)
    ensures forall i :: 0 <= i < |ps| ==>
      done[i].head.dataType == b[ps[i] + 6] && done[i].head.frameType == b[ps[i] + 7]
  {
    forall i | 0 <= i < |ps| ensures done[i].head.dataType == b[ps[i] + 6] && done[i].head.frameType == b[ps[i] + 7] {
      HeadIs(b, ps[i]);
    }
  }

  lemma WantedByBytes(b: seq<byte>, done: seq<Message>, ps: seq<int>)
    requires Located(b, done, ps, |b|)
    ensures forall i :: 0 <= i < |ps| ==>
      (Wanted(done, i, false) <==> b[ps[i] + 6] == 13 && exists j :: 0 <= j <= i && b[ps[j] + 7] == 1)
  {
    HeadsSay(b, done, ps);
  }

  // ---------------------------------------------------------------- when the stream is closed

  /** In no callback was somebody missing or the queue full. */
  predicate NeverRefused(events: seq<Event>)
  {
    forall i :: 0 <= i < |events| && events[i].Wake? ==> !events[i].gone && !events[i].full
  }

  lemma {:induction false} CallbackStaysOpen(r: Rx)
    requires !r.closed
    ensures !Callback(r, false, false).closed
    decreases |r.p.rest|
  {
    if Complete(r.p.rest) && !ReadHead(r.p.rest).endFlag { CallbackStaysOpen(r.(p := Gather(r.p))); }
  }

  /** Then the stream is not closed. */
  lemma {:induction false} StaysOpen(r: Rx, events: seq<Event>)
    requires !r.closed && NeverRefused(events)
    ensures !Run(r, events).closed
    decreases |events|
  {
    if events != [] {
      if events[0].Wake? { CallbackStaysOpen(r); }
      StaysOpen(Next(r, events[0]), events[1..]);
    }
  }

  /** A callback that completes a frame closes the stream if and only if nobody is left, or the frame is to be queued
      and the queue is full. */
  lemma {:induction false} ClosesExactly(r: Rx, gone: bool, full: bool)
    requires !r.closed
    ensures var q := Callback(r, gone, full);
      && (q.closed <==> Completes(r.p.rest) && (gone || (full && ToQueue(r.p.rest, r.started))))
      && (q.closed ==> q.queue == r.queue && q.p.done == r.p.done)
    decreases |r.p.rest|
  {
    if Complete(r.p.rest) && !ReadHead(r.p.rest).endFlag {
      ClosesExactly(r.(p := Gather(r.p)), gone, full);
    } else if Complete(r.p.rest) {
      assert r.p.rest[0..] == r.p.rest;
      HeadIs(r.p.rest, 0);
    }
  }

  /** The last block of a frame is there. */
  predicate Completes(s: seq<byte>)
    decreases |s|
  {
    Complete(s) && (s[25] != 0 || Completes(s[BlockLength(s)..]))
  }

  /** It is of a media frame, which is a key frame if none has come before. */
  predicate ToQueue(s: seq<byte>, started: bool)
    requires Completes(s)
    decreases |s|
  {
    if s[25] != 0 then s[6] == 13 && (started || s[7] == 1) else ToQueue(s[BlockLength(s)..], started)
  }
}

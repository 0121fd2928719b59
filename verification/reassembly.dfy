/** `recv_stream_cb` as a state machine over arrivals and callbacks: which frames are completed and
    which of them are queued does not depend on how TCP cut the byte stream. */
module Reassembly {
  import opened Bytes
  import opened Wire

  const I_FRAME := 1
  const BP_FRAME := 2
  const AUDIO_FRAME := 3
  const TWO_64 := 0x1_0000_0000_0000_0000

  /** What is queued for the send task. */
  datatype Entry = Entry(dataType: int, vPts: int, data: seq<byte>)

  /** The kind recorded for a block's frame type; types without a kind leave it zero. */
  function KindOf(frameType: byte): int
  {
    if frameType == 0 then BP_FRAME else if frameType == 1 then I_FRAME else if frameType == 4 then AUDIO_FRAME else 0
  }

  /** The 90 kHz stamp: the 64-bit time of the last block, times 90, in 64-bit arithmetic. */
  function StampOf(h: Head): int
  {
    (h.timeHigh * 0x1_0000_0000 + h.timeLow) * 90 % TWO_64
  }

  function EntryOf(m: Message): Entry { Entry(KindOf(m.head.frameType), StampOf(m.head), m.data) }

  predicate IsKey(m: Message) { m.head.frameType == 1 }

  predicate IsMedia(m: Message) { m.head.dataType == 13 }

  /** What the completed frames put in the queue: media frames, from the first key frame on. */
  function Queued(done: seq<Message>, started: bool): seq<Entry>
  {
    if done == [] then []
    else
      var on := started || IsKey(done[0]);
      (if on && IsMedia(done[0]) then [EntryOf(done[0])] else []) + Queued(done[1..], on)
  }

  predicate AnyKey(done: seq<Message>) { exists m <- done :: IsKey(m) }

  /** `p` is what has been parsed and what waits in the input buffer; `arrived`, which the program does
      not keep, is everything received; `started` says that the send task has been started. */
  datatype Rx = Rx(p: Parse, started: bool, queue: seq<Entry>, closed: bool, arrived: seq<byte>)

  /** A frame has been gathered, `h` being the header of its last block.  The stream is closed if nobody
      is left to send to or the queue is full; otherwise the frame is queued or dropped. */
  function Finish(r: Rx, h: Head, gone: bool, full: bool): Rx
  {
    var m := Message(h, r.p.acc);
    var on := r.started || IsKey(m);
    if gone then r.(closed := true)
    else if !on || !IsMedia(m) then r.(p := Emit(r.p, h), started := on)
    else if full then r.(started := on, closed := true)
    else r.(p := Emit(r.p, h), started := on, queue := r.queue + [EntryOf(m)])
  }

  /** One callback: blocks are taken until a frame is gathered or no whole block is left. */
  function Callback(r: Rx, gone: bool, full: bool): Rx
    decreases |r.p.rest|
  {
    if r.closed || !Complete(r.p.rest) then r
    else
      var h := ReadHead(r.p.rest);
      var q := r.(p := Gather(r.p));
      if h.endFlag then Finish(q, h, gone, full) else Callback(q, gone, full)
  }

  datatype Event = Arrive(bytes: seq<byte>) | Wake(gone: bool, full: bool)

  function Next(r: Rx, e: Event): Rx
  {
    match e
    case Arrive(bytes) =>
      if r.closed then r.(arrived := r.arrived + bytes)
      else r.(p := r.p.(rest := r.p.rest + bytes), arrived := r.arrived + bytes)
    case Wake(gone, full) => Callback(r, gone, full)
  }

  function Run(r: Rx, events: seq<Event>): Rx
    decreases |events|
  {
    if events == [] then r else Run(Next(r, events[0]), events[1..])
  }

  const START := Rx(Parse([], [], []), false, [], false, [])

  /** What a parser that sees the whole byte string at once finds. */
  function OneShot(bytes: seq<byte>): Parse { ParseAll(Parse([], [], bytes)) }

  ghost predicate Inv(r: Rx)
  {
    && r.queue == Queued(r.p.done, false)
    && (AnyKey(r.p.done) ==> r.started)
    && (!r.closed ==> r.started == AnyKey(r.p.done))
    && (if r.closed then r.p.done <= OneShot(r.arrived).done else ParseAll(r.p) == OneShot(r.arrived))
  }

  // ---------------------------------------------------------------- parsing in two goes

  /** Parsing what there is and then the rest is parsing it all. */
  lemma {:induction false} ParseInTwoGoes(p: Parse, more: seq<byte>)
    ensures var q := ParseAll(p);
      ParseAll(p.(rest := p.rest + more)) == ParseAll(q.(rest := q.rest + more))
    decreases |p.rest|
  {
    if Complete(p.rest) {
      TakeBlockStable(p, more);
      ParseInTwoGoes(TakeBlock(p), more);
    }
  }

  lemma OneShotGrows(bytes: seq<byte>, more: seq<byte>)
    ensures OneShot(bytes).done <= OneShot(bytes + more).done
  {
    ParseInTwoGoes(Parse([], [], bytes), more);
    var q := OneShot(bytes);
    ParseAllGrows(q.(rest := q.rest + more));
  }

  lemma {:induction false} QueuedSnoc(done: seq<Message>, m: Message, started: bool)
    ensures Queued(done + [m], started)
         == Queued(done, started) + (if (started || AnyKey(done) || IsKey(m)) && IsMedia(m) then [EntryOf(m)] else [])
  {
    if done == [] {
      assert [m][1..] == [];
    } else {
      assert (done + [m])[1..] == done[1..] + [m];
      QueuedSnoc(done[1..], m, started || IsKey(done[0]));
      AnyKeySplits(done);
    }
  }

  lemma AnyKeySplits(done: seq<Message>)
    requires done != []
    ensures AnyKey(done) <==> IsKey(done[0]) || AnyKey(done[1..])
  {
    assert done == [done[0]] + done[1..];
  }

  lemma AnyKeySnoc(done: seq<Message>, m: Message)
    ensures AnyKey(done + [m]) <==> AnyKey(done) || IsKey(m)
  {
    assert (done + [m])[|done|] == m;
    assert forall i :: 0 <= i < |done| ==> (done + [m])[i] == done[i];
  }

  // ---------------------------------------------------------------- every run

  /** A callback that completes a frame. */
  lemma FrameKeeps(r: Rx, gone: bool, full: bool)
    requires Inv(r) && !r.closed && Complete(r.p.rest) && ReadHead(r.p.rest).endFlag
    ensures Inv(Callback(r, gone, full))
  {
    var m := Message(ReadHead(r.p.rest), Gather(r.p).acc);
    QueuedSnoc(r.p.done, m, false);
    AnyKeySnoc(r.p.done, m);
    ParseAllGrows(r.p);
  }

  lemma {:induction false} CallbackKeeps(r: Rx, gone: bool, full: bool)
    requires Inv(r)
    ensures Inv(Callback(r, gone, full))
    decreases |r.p.rest|
  {
    if !r.closed && Complete(r.p.rest) {
      if ReadHead(r.p.rest).endFlag {
        FrameKeeps(r, gone, full);
      } else {
        CallbackKeeps(r.(p := Gather(r.p)), gone, full);
      }
    }
  }

  lemma ArriveKeeps(r: Rx, bytes: seq<byte>)
    requires Inv(r)
    ensures Inv(Next(r, Arrive(bytes)))
  {
    if r.closed {
      OneShotGrows(r.arrived, bytes);
    } else {
      ParseInTwoGoes(r.p, bytes);
      ParseInTwoGoes(Parse([], [], r.arrived), bytes);
    }
  }

  lemma {:induction false} RunKeeps(r: Rx, events: seq<Event>)
    requires Inv(r)
    ensures Inv(Run(r, events))
    decreases |events|
  {
    if events != [] {
      match events[0] {
        case Arrive(bytes) => ArriveKeeps(r, bytes);
        case Wake(gone, full) => CallbackKeeps(r, gone, full);
      }
      RunKeeps(Next(r, events[0]), events[1..]);
    }
  }

  /** However the bytes arrive and whenever callbacks run, the frames completed are a prefix of those
      the one-shot parser finds, and the queue holds exactly the media frames among them from the
      first key frame on. */
  lemma FramesArePrefix(events: seq<Event>)
    ensures var r := Run(START, events);
      r.p.done <= OneShot(r.arrived).done && r.queue == Queued(r.p.done, false)
  {
    RunKeeps(START, events);
    ParseAllGrows(Run(START, events).p);
  }

  /** Once no whole block is left in the input buffer, all of them have been completed. */
  lemma DrainedMeansAll(events: seq<Event>)
    requires !Run(START, events).closed && !Complete(Run(START, events).p.rest)
    ensures var r := Run(START, events);
      r.p == OneShot(r.arrived) && r.queue == Queued(OneShot(r.arrived).done, false)
  {
    RunKeeps(START, events);
  }

  /** Two runs that received the same bytes in different pieces queue the same frames. */
  lemma ChunkingDoesNotMatter(a: seq<Event>, b: seq<Event>)
    requires !Run(START, a).closed && !Complete(Run(START, a).p.rest)
    requires !Run(START, b).closed && !Complete(Run(START, b).p.rest)
    requires Run(START, a).arrived == Run(START, b).arrived
    ensures Run(START, a).queue == Run(START, b).queue
  {
    DrainedMeansAll(a);
    DrainedMeansAll(b);
  }

  lemma {:induction false} QueuedNeedsKey(done: seq<Message>)
    requires !AnyKey(done)
    ensures Queued(done, false) == []
  {
    if done != [] {
      assert !IsKey(done[0]);
      assert forall m <- done[1..] :: m in done;
      QueuedNeedsKey(done[1..]);
    }
  }

  /** In no run is anything queued before a key frame has been completed. */
  lemma NothingBeforeKeyFrame(events: seq<Event>)
    requires !AnyKey(Run(START, events).p.done)
    ensures Run(START, events).queue == []
  {
    RunKeeps(START, events);
    QueuedNeedsKey(Run(START, events).p.done);
  }
}

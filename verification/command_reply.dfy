/** `recv_cmd_from_hbserver`: the answer to the request for a stream.  Every callback clears the front of the buffer
    but goes on writing where the last one stopped, so it matters how TCP cut the reply. */
module CommandReply {
  import opened Bytes
  import opened Buffers
  import opened Wire
  import opened WireIo

  const CAPACITY := 1024 * 1024
  const CLEARED := 2048
  const SUCCESS: seq<byte> := [83, 85, 67, 67, 69, 83, 83]

  /** The string at the front of a buffer. */
  function Text(s: seq<byte>): seq<byte>
  {
    if s == [] || s[0] == 0 then [] else [s[0]] + Text(s[1..])
  }

  predicate FoundAt(s: seq<byte>, word: seq<byte>, i: int)
  {
    0 <= i <= |s| - |word| && s[i..i + |word|] == word
  }

  /** `strstr` finds `word`. */
  predicate Contains(s: seq<byte>, word: seq<byte>)
  {
    exists i :: 0 <= i <= |s| && FoundAt(s, word, i)
  }

  /** The reply grants the stream. */
  predicate Grants(data: seq<byte>) { Contains(Text(data), SUCCESS) }

  ghost function Zeros(n: nat): (s: seq<byte>)
    ensures |s| == n
  {
    seq(n, i => 0)
  }

  // ---------------------------------------------------------------- the callback

  /** `TooMuch`: more bytes were asked for than there is room for, or the text in the buffer has no end. */
  datatype Outcome = Waiting | Accepted | Dropped | TooMuch

  /** `rest` is the input buffer, `buf` is `hGetStreamFromSource` and `len` is `iRecvStreamDataLen`.  The others are
      not kept by the program: all payload taken, how much of it before the last callback, and all bytes received. */
  datatype Rx = Rx(rest: seq<byte>, buf: seq<byte>, len: nat, outcome: Outcome, gathered: seq<byte>, earlier: nat,
      arrived: seq<byte>)
  {
    predicate Sized() { |buf| == CAPACITY && len <= CAPACITY }
  }

  /** The last block has been taken. */
  function Judge(r: Rx): Rx
  {
    if 0 !in r.buf then r.(outcome := TooMuch)
    else if Contains(Text(r.buf), SUCCESS) then r.(outcome := Accepted, len := 0)
    else r.(outcome := Dropped)
  }

  /** One turn of the loop. */
  ghost function Turn(r: Rx): (q: Rx)
    requires r.Sized() && r.outcome.Waiting? && Arrived(r.rest)
    ensures q.Sized() && (q.outcome.Waiting? ==> |q.rest| < |r.rest|)
  {
    var h := ReadHead(r.rest);
    var n := h.actLength - HEAD_SIZE;
    if AsSize(n) > CAPACITY - r.len then r.(outcome := TooMuch)
    else
      var payload := r.rest[HEAD_SIZE..h.actLength];
      var q := r.(rest := r.rest[h.actLength..], buf := Splice(r.buf, r.len, payload), len := r.len + n,
                  gathered := r.gathered + payload);
      if h.endFlag then Judge(q) else q
  }

  ghost function Loop(r: Rx): (q: Rx)
    requires r.Sized()
    ensures q.Sized() && (q.outcome.Waiting? ==> !Arrived(q.rest))
    decreases r.outcome.Waiting?, |r.rest|
  {
    if r.outcome.Waiting? && Arrived(r.rest) then Loop(Turn(r)) else r
  }

  /** A callback first clears the front of the buffer. */
  ghost function Begun(r: Rx): (q: Rx)
    requires r.Sized()
    ensures q.Sized()
  {
    r.(buf := Splice(r.buf, 0, Zeros(CLEARED)), earlier := r.len)
  }

  ghost function Callback(r: Rx): (q: Rx)
    requires r.Sized()
    ensures q.Sized()
  {
    if r.outcome.Waiting? then Loop(Begun(r)) else r
  }

  datatype Event = Arrive(bytes: seq<byte>) | Wake

  ghost function Next(r: Rx, e: Event): (q: Rx)
    requires r.Sized()
    ensures q.Sized()
  {
    match e
    case Arrive(bytes) => r.(rest := r.rest + bytes, arrived := r.arrived + bytes)
    case Wake => Callback(r)
  }

  ghost function Run(r: Rx, events: seq<Event>): (q: Rx)
    requires r.Sized()
    ensures q.Sized()
    decreases |events|
  {
    if events == [] then r else Run(Next(r, events[0]), events[1..])
  }

  ghost function Start(): (r: Rx)
    ensures r.Sized()
  {
    Rx([], Zeros(CAPACITY), 0, Waiting, [], 0, [])
  }

  // ---------------------------------------------------------------- replies

  /** The blocks of a whole reply are at the front. */
  predicate HasReply(s: seq<byte>)
    decreases |s|
  {
    Complete(s) && (ReadHead(s).endFlag || HasReply(s[BlockLength(s)..]))
  }

  function Payload(s: seq<byte>): seq<byte>
    requires HasReply(s)
    decreases |s|
  {
    var n := BlockLength(s);
    s[HEAD_SIZE..n] + if ReadHead(s).endFlag then [] else Payload(s[n..])
  }

  /** The payload of all blocks but the last. */
  function EarlyPayload(s: seq<byte>): seq<byte>
    requires HasReply(s)
    decreases |s|
  {
    var n := BlockLength(s);
    if ReadHead(s).endFlag then [] else s[HEAD_SIZE..n] + EarlyPayload(s[n..])
  }

  /** What follows the reply. */
  function After(s: seq<byte>): seq<byte>
    requires HasReply(s)
    decreases |s|
  {
    var n := BlockLength(s);
    if ReadHead(s).endFlag then s[n..] else After(s[n..])
  }

  lemma BlockStays(s: seq<byte>, more: seq<byte>)
    requires Complete(s)
    ensures Complete(s + more) && ReadHead(s + more) == ReadHead(s)
    ensures var n := BlockLength(s); (s + more)[HEAD_SIZE..n] == s[HEAD_SIZE..n] && (s + more)[n..] == s[n..] + more
  {
    var t := s + more;
    assert t[0..4] == s[0..4] && t[8..12] == s[8..12] && t[12..16] == s[12..16];
  }

  lemma {:induction false} ReplyStays(s: seq<byte>, more: seq<byte>)
    requires HasReply(s)
    ensures HasReply(s + more) && Payload(s + more) == Payload(s) && EarlyPayload(s + more) == EarlyPayload(s)
    ensures After(s + more) == After(s) + more
    decreases |s|
  {
    BlockStays(s, more);
    if !ReadHead(s).endFlag { ReplyStays(s[BlockLength(s)..], more); }
  }

  /** The reply at the front of `all` is `acc` and then the one at the front of `tail`. */
  predicate SameReply(all: seq<byte>, acc: seq<byte>, tail: seq<byte>)
  {
    && (HasReply(all) <==> HasReply(tail))
    && (HasReply(all) ==>
          && Payload(all) == acc + Payload(tail) && EarlyPayload(all) == acc + EarlyPayload(tail)
          && After(all) == After(tail))
  }

  /** Of what has arrived, blocks with the payload `acc` have been taken. */
  ghost predicate Consumed(arrived: seq<byte>, acc: seq<byte>, rest: seq<byte>)
  {
    forall more :: SameReply(arrived + more, acc, rest + more)
  }

  lemma ConsumedNow(arrived: seq<byte>, acc: seq<byte>, rest: seq<byte>)
    requires Consumed(arrived, acc, rest)
    ensures SameReply(arrived, acc, rest)
  {
    assert SameReply(arrived + [], acc, rest + []);
    assert arrived + [] == arrived && rest + [] == rest;
  }

  lemma ConsumedArrives(arrived: seq<byte>, acc: seq<byte>, rest: seq<byte>, bytes: seq<byte>)
    requires Consumed(arrived, acc, rest)
    ensures Consumed(arrived + bytes, acc, rest + bytes)
  {
    forall more ensures SameReply(arrived + bytes + more, acc, rest + bytes + more) {
      assert SameReply(arrived + (bytes + more), acc, rest + (bytes + more));
      assert arrived + bytes + more == arrived + (bytes + more) && rest + bytes + more == rest + (bytes + more);
    }
  }

  lemma ConsumedTake(arrived: seq<byte>, acc: seq<byte>, rest: seq<byte>)
    requires Consumed(arrived, acc, rest) && Complete(rest) && !ReadHead(rest).endFlag
    ensures var n := BlockLength(rest); Consumed(arrived, acc + rest[HEAD_SIZE..n], rest[n..])
  {
    var n := BlockLength(rest);
    var payload := rest[HEAD_SIZE..n];
    forall more ensures SameReply(arrived + more, acc + payload, rest[n..] + more) {
      assert SameReply(arrived + more, acc, rest + more);
      BlockStays(rest, more);
      SameReplyTake(arrived + more, acc, rest + more);
    }
  }

  lemma SameReplyTake(all: seq<byte>, acc: seq<byte>, tail: seq<byte>)
    requires SameReply(all, acc, tail) && Complete(tail) && !ReadHead(tail).endFlag
    ensures var n := BlockLength(tail); SameReply(all, acc + tail[HEAD_SIZE..n], tail[n..])
  {
    var n := BlockLength(tail);
    if HasReply(tail) {
      Joins(acc, tail[HEAD_SIZE..n], Payload(tail[n..]));
      Joins(acc, tail[HEAD_SIZE..n], EarlyPayload(tail[n..]));
    }
  }

  lemma Joins(a: seq<byte>, b: seq<byte>, c: seq<byte>)
    ensures a + (b + c) == a + b + c
  {
  }

  // ---------------------------------------------------------------- what the buffer says

  /** While nothing was taken before this callback the buffer holds what was gathered; otherwise its text is empty. */
  predicate Written(r: Rx)
    requires r.Sized()
  {
    if r.earlier == 0 then r.buf[..r.len] == r.gathered && (forall k :: r.len <= k < CAPACITY ==> r.buf[k] == 0)
    else r.buf[0] == 0
  }

  /** A callback is taking blocks. */
  ghost predicate Taking(r: Rx)
  {
    && r.Sized() && r.outcome.Waiting? && r.len == |r.gathered| && r.earlier <= r.len && Written(r)
    && Consumed(r.arrived, r.gathered, r.rest)
  }

  /** No reply that begins with what has arrived fits the buffer. */
  ghost predicate TooLong(arrived: seq<byte>)
  {
    forall more :: HasReply(arrived + more) ==> |Payload(arrived + more)| > CAPACITY
  }

  /** In the cleared buffer the payload is a text with an end. */
  predicate Readable(data: seq<byte>) { |data| < CAPACITY || (|data| == CAPACITY && 0 in data) }

  /** The reply has been judged by what the buffer said: right if no payload was taken before the last callback. */
  predicate Judged(r: Rx)
  {
    && HasReply(r.arrived) && r.rest == After(r.arrived) && r.earlier <= |EarlyPayload(r.arrived)|
    && |Payload(r.arrived)| <= CAPACITY
    && (r.outcome.TooMuch? <==> r.earlier == 0 && !Readable(Payload(r.arrived)))
    && (r.outcome.Accepted? <==> r.earlier == 0 && Readable(Payload(r.arrived)) && Grants(Payload(r.arrived)))
  }

  ghost predicate Inv(r: Rx)
  {
    && r.Sized()
    && match r.outcome
       case Waiting =>
         && r.len == |r.gathered| && Consumed(r.arrived, r.gathered, r.rest)
         && (r.len == 0 ==> forall k :: 0 <= k < CAPACITY ==> r.buf[k] == 0)
       case TooMuch => TooLong(r.arrived) || Judged(r)
       case _ => Judged(r)
  }

  /** The text of some bytes with zeros behind them. */
  lemma {:induction false} TextOf(s: seq<byte>, data: seq<byte>)
    requires |data| <= |s| && s[..|data|] == data && forall k :: |data| <= k < |s| ==> s[k] == 0
    ensures Text(s) == Text(data)
    decreases |data|
  {
    if data != [] && data[0] != 0 {
      assert s[1..][..|data| - 1] == data[1..];
      assert forall k :: |data| - 1 <= k < |s| - 1 ==> s[1..][k] == s[k + 1];
      TextOf(s[1..], data[1..]);
    }
  }

  lemma BegunIsTaking(r: Rx)
    requires Inv(r) && r.outcome.Waiting?
    ensures Taking(Begun(r))
  {
    var q := Begun(r);
    if r.len == 0 {
      assert r.gathered == [];
    } else {
      assert q.buf[0] == Zeros(CLEARED)[0];
    }
  }

  /** The payload of the next block behind the rest. */
  ghost function Taken(r: Rx): (q: Rx)
    requires r.Sized() && Complete(r.rest) && r.len + BlockLength(r.rest) - HEAD_SIZE <= CAPACITY
    ensures q.Sized()
  {
    var n := BlockLength(r.rest);
    var payload := r.rest[HEAD_SIZE..n];
    r.(rest := r.rest[n..], buf := Splice(r.buf, r.len, payload), len := r.len + |payload|,
       gathered := r.gathered + payload)
  }

  lemma TakenIsWritten(r: Rx)
    requires Taking(r) && Complete(r.rest) && r.len + BlockLength(r.rest) - HEAD_SIZE <= CAPACITY
    ensures Written(Taken(r))
  {
    var q := Taken(r);
    if r.earlier == 0 { assert q.buf[..q.len] == r.buf[..r.len] + r.rest[HEAD_SIZE..BlockLength(r.rest)]; }
  }

  /** The buffer has a NUL unless the payload fills it and has none. */
  lemma NulIn(q: Rx)
    requires q.Sized() && q.len == |q.gathered| && Written(q)
    ensures 0 in q.buf <==> q.earlier > 0 || Readable(q.gathered)
  {
    if q.earlier > 0 {
      assert q.buf[0] == 0;
    } else if q.len < CAPACITY {
      assert q.buf[CAPACITY - 1] == 0;
    } else {
      assert q.buf == q.gathered;
    }
  }

  lemma TextIn(q: Rx)
    requires q.Sized() && q.len == |q.gathered| && Written(q)
    ensures Text(q.buf) == if q.earlier == 0 then Text(q.gathered) else []
  {
    if q.earlier == 0 { TextOf(q.buf, q.gathered); }
  }

  /** With its last block the reply has been gathered. */
  lemma LastTaken(r: Rx)
    requires Taking(r) && Complete(r.rest) && r.len + BlockLength(r.rest) - HEAD_SIZE <= CAPACITY
    requires ReadHead(r.rest).endFlag
    ensures var q := Taken(r);
      && q.len == |q.gathered| <= CAPACITY && HasReply(r.arrived) && Payload(r.arrived) == q.gathered
      && After(r.arrived) == q.rest && r.earlier <= |EarlyPayload(r.arrived)|
  {
    ConsumedNow(r.arrived, r.gathered, r.rest);
  }

  lemma JudgedRight(r: Rx)
    requires Taking(r) && Complete(r.rest) && r.len + BlockLength(r.rest) - HEAD_SIZE <= CAPACITY
    requires ReadHead(r.rest).endFlag
    ensures !Judge(Taken(r)).outcome.Waiting? && Judged(Judge(Taken(r)))
  {
    var q := Taken(r);
    TakenIsWritten(r);
    LastTaken(r);
    TextIn(q);
    NulIn(q);
  }

  /** A block that is too short for its head, or has no room. */
  lemma NoRoom(r: Rx)
    requires Taking(r) && Arrived(r.rest) && AsSize(ReadHead(r.rest).actLength - HEAD_SIZE) > CAPACITY - r.len
    ensures TooLong(r.arrived)
  {
    forall more | HasReply(r.arrived + more) ensures |Payload(r.arrived + more)| > CAPACITY {
      assert SameReply(r.arrived + more, r.gathered, r.rest + more);
      HeadStays(r.rest, more);
    }
  }

  lemma HeadStays(s: seq<byte>, more: seq<byte>)
    requires |s| >= HEAD_SIZE
    ensures ReadHead(s + more) == ReadHead(s)
  {
    var t := s + more;
    assert t[0..4] == s[0..4] && t[8..12] == s[8..12] && t[12..16] == s[12..16];
  }

  lemma TurnKeeps(r: Rx)
    requires Taking(r) && Arrived(r.rest)
    ensures var q := Turn(r); if q.outcome.Waiting? then Taking(q) else Inv(q)
  {
    var n := ReadHead(r.rest).actLength - HEAD_SIZE;
    AsksTooMuch(n, r.len, CAPACITY);
    if AsSize(n) > CAPACITY - r.len {
      NoRoom(r);
    } else if ReadHead(r.rest).endFlag {
      JudgedRight(r);
    } else {
      TakenIsWritten(r);
      ConsumedTake(r.arrived, r.gathered, r.rest);
    }
  }

  lemma {:induction false} LoopKeeps(r: Rx)
    requires Taking(r)
    ensures Inv(Loop(r))
    decreases |r.rest|
  {
    if Arrived(r.rest) {
      TurnKeeps(r);
      if Turn(r).outcome.Waiting? { LoopKeeps(Turn(r)); }
    }
  }

  lemma ArriveKeeps(r: Rx, bytes: seq<byte>)
    requires Inv(r)
    ensures Inv(Next(r, Arrive(bytes)))
  {
    if r.outcome.Waiting? {
      ConsumedArrives(r.arrived, r.gathered, r.rest, bytes);
    } else if r.outcome.TooMuch? && TooLong(r.arrived) {
      forall more | HasReply(r.arrived + bytes + more) ensures |Payload(r.arrived + bytes + more)| > CAPACITY {
        assert r.arrived + bytes + more == r.arrived + (bytes + more);
      }
    } else {
      ReplyStays(r.arrived, bytes);
    }
  }

  lemma {:induction false} RunKeeps(r: Rx, events: seq<Event>)
    requires Inv(r)
    ensures Inv(Run(r, events))
    decreases |events|
  {
    if events != [] {
      match events[0] {
        case Arrive(bytes) => ArriveKeeps(r, bytes);
        case Wake => if r.outcome.Waiting? { BegunIsTaking(r); LoopKeeps(Begun(r)); }
      }
      RunKeeps(Next(r, events[0]), events[1..]);
    }
  }

  lemma StartIsGood()
    ensures Inv(Start())
  {
    forall more: seq<byte> ensures SameReply([] + more, [], [] + more) {
      if HasReply([] + more) {
        assert [] + Payload([] + more) == Payload([] + more);
        assert [] + EarlyPayload([] + more) == EarlyPayload([] + more);
      }
    }
  }

  // ---------------------------------------------------------------- every run

  /** However the bytes arrive, once a reply has been decided on it was accepted if and only if it is readable and
      grants the stream and none of its payload was taken before the callback that took its last block; what followed
      it is then left for the stream callback. */
  lemma DecidedExactly(events: seq<Event>)
    requires HasReply(Run(Start(), events).arrived) && !Run(Start(), events).outcome.Waiting?
    ensures var r := Run(Start(), events);
      var data := Payload(r.arrived);
      && (r.outcome.Accepted? <==> r.earlier == 0 && Readable(data) && Grants(data))
      && (r.outcome.TooMuch? <==> |data| > CAPACITY || (r.earlier == 0 && !Readable(data)))
      && (|data| <= CAPACITY ==> r.earlier <= |EarlyPayload(r.arrived)| && r.rest == After(r.arrived))
  {
    StartIsGood();
    RunKeeps(Start(), events);
    var r := Run(Start(), events);
    if TooLong(r.arrived) {
      assert r.arrived + [] == r.arrived;
      assert HasReply(r.arrived + []);
    }
  }

  /** A callback that finds a whole reply decides. */
  lemma WakeDecides(r: Rx)
    requires Inv(r) && HasReply(r.arrived)
    ensures !Callback(r).outcome.Waiting? && Callback(r).arrived == r.arrived
    ensures r.outcome.Waiting? ==> Callback(r).earlier == r.len
  {
    if r.outcome.Waiting? {
      BegunIsTaking(r);
      LoopDecides(Begun(r));
    }
  }

  lemma {:induction false} LoopDecides(r: Rx)
    requires Taking(r) && HasReply(r.arrived)
    ensures var q := Loop(r); !q.outcome.Waiting? && SameCallback(r, q)
    decreases |r.rest|
  {
    ConsumedNow(r.arrived, r.gathered, r.rest);
    TurnGoes(r);
    if Turn(r).outcome.Waiting? { LoopDecides(Turn(r)); }
  }

  predicate SameCallback(r: Rx, q: Rx) { q.arrived == r.arrived && q.earlier == r.earlier }

  lemma TurnGoes(r: Rx)
    requires Taking(r) && Arrived(r.rest)
    ensures var q := Turn(r); SameCallback(r, q) && (q.outcome.Waiting? ==> Taking(q))
  {
    TurnKeeps(r);
  }

  // ---------------------------------------------------------------- when the cutting matters

  /** The run has received these bytes and decided. */
  ghost predicate Decides(events: seq<Event>, bytes: seq<byte>)
  {
    var r := Run(Start(), events);
    r.arrived == bytes && !r.outcome.Waiting?
  }

  /** However the bytes are cut, the outcome is that of all of them in one callback. */
  ghost predicate CuttingDoesNotMatter(bytes: seq<byte>)
  {
    forall events :: Decides(events, bytes) ==> Run(Start(), events).outcome == InOneGo(bytes)
  }

  ghost function InOneGo(bytes: seq<byte>): Outcome { Run(Start(), [Arrive(bytes), Wake]).outcome }

  lemma RunOne(r: Rx, e: Event, events: seq<Event>)
    requires r.Sized()
    ensures Run(r, [e] + events) == Run(Next(r, e), events)
  {
  }

  lemma FirstArrival(bytes: seq<byte>)
    ensures var r := Next(Start(), Arrive(bytes));
      Inv(r) && r.outcome.Waiting? && r.arrived == bytes && r.rest == bytes && r.len == 0
  {
    StartIsGood();
    ArriveKeeps(Start(), bytes);
    assert [] + bytes == bytes;
  }

  lemma RunInOne(bytes: seq<byte>)
    ensures Run(Start(), [Arrive(bytes), Wake]) == Callback(Next(Start(), Arrive(bytes)))
  {
    var r := Next(Start(), Arrive(bytes));
    assert [Arrive(bytes), Wake] == [Arrive(bytes)] + [Wake];
    RunOne(Start(), Arrive(bytes), [Wake]);
    assert Run(r, [Wake]) == Run(Callback(r), []) == Callback(r);
  }

  lemma OneGoDecides(bytes: seq<byte>)
    requires HasReply(bytes)
    ensures Decides([Arrive(bytes), Wake], bytes) && Run(Start(), [Arrive(bytes), Wake]).earlier == 0
  {
    FirstArrival(bytes);
    WakeDecides(Next(Start(), Arrive(bytes)));
    RunInOne(bytes);
  }

  /** In one callback the reply is judged by what it says. */
  lemma OneGo(bytes: seq<byte>)
    requires HasReply(bytes)
    ensures InOneGo(bytes)
         == if !Readable(Payload(bytes)) then TooMuch else if Grants(Payload(bytes)) then Accepted else Dropped
  {
    OneGoDecides(bytes);
    DecidedExactly([Arrive(bytes), Wake]);
  }

  /** Blocks none of which is the last of its reply. */
  predicate Inner(s: seq<byte>)
    decreases |s|
  {
    s == [] || (Complete(s) && !ReadHead(s).endFlag && Inner(s[BlockLength(s)..]))
  }

  /** A reply is some inner blocks and its last one. */
  lemma {:induction false} LastBlock(s: seq<byte>) returns (front: seq<byte>, back: seq<byte>)
    requires HasReply(s)
    ensures s == front + back && Inner(front) && HasReply(back) && ReadHead(back).endFlag
    decreases |s|
  {
    if ReadHead(s).endFlag {
      front, back := [], s;
    } else {
      var n := BlockLength(s);
      front, back := LastBlock(s[n..]);
      BlockOfPrefix(s, n + |front|);
      assert s[..n + |front|][n..] == front;
      front := s[..n + |front|];
    }
  }

  lemma BlockOfPrefix(s: seq<byte>, n: nat)
    requires Complete(s) && BlockLength(s) <= n <= |s|
    ensures Complete(s[..n]) && ReadHead(s[..n]) == ReadHead(s)
  {
    HeadStays(s[..n], s[n..]);
    assert s[..n] + s[n..] == s;
  }

  /** A callback takes all inner blocks there are without a decision, unless they are too much. */
  lemma {:induction false} LoopTakesInner(r: Rx)
    requires Taking(r) && Inner(r.rest)
    ensures var q := Loop(r);
      && SameCallback(r, q) && Inv(q)
      && (if q.outcome.TooMuch? then TooLong(q.arrived) else q.outcome.Waiting? && q.rest == [])
    decreases |r.rest|
  {
    LoopKeeps(r);
    if r.rest != [] {
      TurnGoes(r);
      if Turn(r).outcome.TooMuch? { NoRoom(r); }
      if Turn(r).outcome.Waiting? { LoopTakesInner(Turn(r)); }
    }
  }

  /** Once the inner blocks of a reply have been taken, its early payload has been gathered. */
  lemma InnerGathered(q: Rx, front: seq<byte>, back: seq<byte>)
    requires Inv(q) && q.arrived == front
    requires if q.outcome.TooMuch? then TooLong(front) else q.outcome.Waiting? && q.rest == []
    requires HasReply(back) && ReadHead(back).endFlag && HasReply(front + back) && |Payload(front + back)| <= CAPACITY
    ensures q.outcome.Waiting? && q.len == |EarlyPayload(front + back)|
  {
    if q.outcome.Waiting? {
      assert SameReply(front + back, q.gathered, q.rest + back);
      assert q.rest + back == back;
    }
  }

  /** The inner blocks of a reply in one callback. */
  lemma InnerBlocks(front: seq<byte>, back: seq<byte>)
    requires Inner(front) && HasReply(back) && ReadHead(back).endFlag
    requires HasReply(front + back) && |Payload(front + back)| <= CAPACITY
    ensures var q := Callback(Next(Start(), Arrive(front)));
      Inv(q) && q.outcome.Waiting? && q.arrived == front && q.len == |EarlyPayload(front + back)|
  {
    FirstArrival(front);
    var r := Next(Start(), Arrive(front));
    BegunIsTaking(r);
    LoopTakesInner(Begun(r));
    InnerGathered(Callback(r), front, back);
  }

  /** A callback for all that comes before the last block, and one for the last block. */
  ghost function InTwo(front: seq<byte>, back: seq<byte>): seq<Event> { [Arrive(front), Wake, Arrive(back), Wake] }

  lemma RunInTwo(front: seq<byte>, back: seq<byte>)
    ensures Run(Start(), InTwo(front, back))
         == Callback(Next(Callback(Next(Start(), Arrive(front))), Arrive(back)))
  {
    var first := Next(Start(), Arrive(front));
    var half := Callback(first);
    var whole := Next(half, Arrive(back));
    assert InTwo(front, back) == [Arrive(front)] + ([Wake] + ([Arrive(back)] + [Wake]));
    RunOne(Start(), Arrive(front), [Wake] + ([Arrive(back)] + [Wake]));
    RunOne(first, Wake, [Arrive(back)] + [Wake]);
    RunOne(half, Arrive(back), [Wake]);
    assert Run(whole, [Wake]) == Run(Callback(whole), []) == Callback(whole);
  }

  /** A reply that carries payload before its last block is dropped if a callback comes right before that block. */
  lemma CutIsDropped(front: seq<byte>, back: seq<byte>)
    requires Inner(front) && HasReply(back) && ReadHead(back).endFlag
    requires HasReply(front + back) && |Payload(front + back)| <= CAPACITY && EarlyPayload(front + back) != []
    ensures Decides(InTwo(front, back), front + back) && Run(Start(), InTwo(front, back)).outcome.Dropped?
  {
    InnerBlocks(front, back);
    var half := Callback(Next(Start(), Arrive(front)));
    ArriveKeeps(half, back);
    WakeDecides(Next(half, Arrive(back)));
    RunInTwo(front, back);
    DecidedExactly(InTwo(front, back));
  }

  lemma CutBeforeLast(bytes: seq<byte>) returns (events: seq<Event>)
    requires HasReply(bytes) && |Payload(bytes)| <= CAPACITY && EarlyPayload(bytes) != []
    ensures Decides(events, bytes) && Run(Start(), events).outcome.Dropped?
  {
    var front, back := LastBlock(bytes);
    CutIsDropped(front, back);
    events := InTwo(front, back);
  }

  /** The outcome is the same however a reply is cut if and only if it carries no payload before its last block, or
      does not grant the stream anyway, or does not fit at all. */
  lemma CuttingExactly(bytes: seq<byte>)
    requires HasReply(bytes)
    ensures var data := Payload(bytes);
      CuttingDoesNotMatter(bytes)
      <==> EarlyPayload(bytes) == [] || (Readable(data) && !Grants(data)) || |data| > CAPACITY
  {
    var data := Payload(bytes);
    OneGo(bytes);
    if EarlyPayload(bytes) == [] || (Readable(data) && !Grants(data)) || |data| > CAPACITY {
      forall events | Decides(events, bytes) ensures Run(Start(), events).outcome == InOneGo(bytes) {
        DecidedExactly(events);
      }
    } else {
      var events := CutBeforeLast(bytes);
    }
  }

  // ---------------------------------------------------------------- replies as they are sent

  /** What is sent for a command is a whole reply, which carries payload before its last block if and only if it
      takes more than one. */
  lemma {:induction false} EncodedReply(cmd: seq<byte>, first: bool, dataType: byte, reserved: seq<byte>)
    requires |reserved| == 2 && cmd != []
    ensures var s := Encode(cmd, first, dataType, reserved);
      HasReply(s) && Payload(s) == cmd && After(s) == [] && (EarlyPayload(s) == [] <==> |cmd| <= NET_BUFFER_LEN)
    decreases |cmd|
  {
    var n := BlockPayload(|cmd|);
    EncodeSplits(cmd, first, dataType, reserved);
    if n == |cmd| {
      BlockFront(cmd, n, dataType, first, true, reserved, []);
    } else {
      BlockFront(cmd, n, dataType, first, false, reserved, Encode(cmd[n..], false, dataType, reserved));
      EncodedReply(cmd[n..], false, dataType, reserved);
    }
  }

  lemma BlockFront(cmd: seq<byte>, n: int, dataType: byte, first: bool, last: bool, reserved: seq<byte>,
      more: seq<byte>)
    requires |reserved| == 2 && 0 <= n <= NET_BUFFER_LEN && n <= |cmd|
    ensures var s := HeadBytes(HEAD_SIZE + n, dataType, first, last, reserved) + cmd[..n] + more;
      && Complete(s) && BlockLength(s) == HEAD_SIZE + n && ReadHead(s).endFlag == last
      && s[HEAD_SIZE..HEAD_SIZE + n] == cmd[..n] && s[HEAD_SIZE + n..] == more
  {
    var b := HeadBytes(HEAD_SIZE + n, dataType, first, last, reserved);
    HeadReadsBack(HEAD_SIZE + n, dataType, first, last, reserved);
    HeadOfBlock(b, cmd[..n] + more);
    assert b + cmd[..n] + more == b + (cmd[..n] + more);
  }

  /** However the bytes of a granting reply are cut, it is accepted. */
  ghost predicate AlwaysAccepted(bytes: seq<byte>)
  {
    forall events :: Decides(events, bytes) ==> Run(Start(), events).outcome.Accepted?
  }

  /** A granting reply, sent as commands are, is accepted however it is cut if and only if it fits one block. */
  lemma ReplySurvivesExactly(cmd: seq<byte>, dataType: byte, reserved: seq<byte>)
    requires |reserved| == 2 && cmd != [] && Grants(cmd)
    ensures AlwaysAccepted(Encode(cmd, true, dataType, reserved)) <==> |cmd| <= NET_BUFFER_LEN
  {
    var bytes := Encode(cmd, true, dataType, reserved);
    EncodedReply(cmd, true, dataType, reserved);
    CuttingExactly(bytes);
    OneGo(bytes);
    assert Decides([Arrive(bytes), Wake], bytes) by { OneGoDecides(bytes); }
    if EarlyPayload(bytes) != [] && |cmd| <= CAPACITY { var events := CutBeforeLast(bytes); }
  }

  function Block(payload: seq<byte>, first: bool, last: bool): seq<byte>
  {
    HeadBytes(HEAD_SIZE + |payload|, 0, first, last, [0, 0]) + payload
  }

  lemma OneBlock(payload: seq<byte>, first: bool, last: bool, more: seq<byte>)
    requires |payload| <= NET_BUFFER_LEN
    ensures var s := Block(payload, first, last) + more;
      && Complete(s) && BlockLength(s) == HEAD_SIZE + |payload| && ReadHead(s).endFlag == last
      && s[HEAD_SIZE..HEAD_SIZE + |payload|] == payload && s[HEAD_SIZE + |payload|..] == more
  {
    BlockFront(payload, |payload|, 0, first, last, [0, 0], more);
    assert payload[..|payload|] == payload;
  }

  /** A reply in two blocks. */
  lemma TwoBlocks(a: seq<byte>, b: seq<byte>)
    requires |a| <= NET_BUFFER_LEN && |b| <= NET_BUFFER_LEN
    ensures var first, second := Block(a, true, false), Block(b, false, true);
      && Inner(first) && HasReply(second) && ReadHead(second).endFlag
      && HasReply(first + second) && Payload(first + second) == a + b && EarlyPayload(first + second) == a
  {
    var first, second := Block(a, true, false), Block(b, false, true);
    OneBlock(a, true, false, second);
    OneBlock(a, true, false, []);
    OneBlock(b, false, true, []);
    assert first + [] == first && second + [] == second;
  }

  /** Sent in two blocks, any granting reply is accepted in one callback and dropped in two. */
  lemma TwoBlocksCut(a: seq<byte>, b: seq<byte>)
    requires 0 < |a| <= NET_BUFFER_LEN && |b| <= NET_BUFFER_LEN && Grants(a + b)
    ensures var first, second := Block(a, true, false), Block(b, false, true);
      InOneGo(first + second).Accepted? && Run(Start(), InTwo(first, second)).outcome.Dropped?
  {
    TwoBlocks(a, b);
    OneGo(Block(a, true, false) + Block(b, false, true));
    CutIsDropped(Block(a, true, false), Block(b, false, true));
  }

  /** So is this one. */
  lemma CutReplyIsDropped() returns (first: seq<byte>, second: seq<byte>)
    ensures InOneGo(first + second).Accepted? && Run(Start(), InTwo(first, second)).outcome.Dropped?
  {
    var a, b := SUCCESS[..3], SUCCESS[3..];
    assert a + b == SUCCESS;
    SuccessGrants();
    TwoBlocksCut(a, b);
    first, second := Block(a, true, false), Block(b, false, true);
  }

  lemma SuccessGrants()
    ensures Grants(SUCCESS)
  {
    TextIsAll(SUCCESS);
    assert FoundAt(SUCCESS, SUCCESS, 0);
  }

  lemma {:induction false} TextIsAll(s: seq<byte>)
    requires 0 !in s
    ensures Text(s) == s
  {
    if s != [] { TextIsAll(s[1..]); }
  }

  // ---------------------------------------------------------------- the receiver

  class Receiver {
    var input: seq<byte>
    const hGetStreamFromSource: array<byte>
    var iRecvStreamDataLen: int
    var outcome: Outcome

    // a log the program does not keep
    ghost var gathered: seq<byte>
    ghost var earlier: nat
    ghost var arrived: seq<byte>

    constructor ()
      ensures Valid() && AsRx() == Start()
    {
      input, iRecvStreamDataLen, outcome := [], 0, Waiting;
      gathered, earlier, arrived := [], 0, [];
      hGetStreamFromSource := new byte[CAPACITY](i => 0);
      new;
      assert hGetStreamFromSource[..] == Zeros(CAPACITY);
    }

    predicate Valid()
      reads this
    {
      hGetStreamFromSource.Length == CAPACITY && 0 <= iRecvStreamDataLen <= CAPACITY
    }

    ghost function AsRx(): (r: Rx)
      reads this, hGetStreamFromSource
      requires Valid()
      ensures r.Sized()
    {
      Rx(input, hGetStreamFromSource[..], iRecvStreamDataLen, outcome, gathered, earlier, arrived)
    }

    method Receive(bytes: seq<byte>)
      requires Valid()
      modifies this
      ensures Valid() && AsRx() == Next(old(AsRx()), Arrive(bytes))
    {
      input := input + bytes;
      arrived := arrived + bytes;
    }

    /** Takes one block off the input, if there is room for it. */
    method ReadBlock() returns (h: Head)
      requires Valid() && outcome.Waiting? && Arrived(input)
      modifies this, hGetStreamFromSource
      ensures Valid() && h == ReadHead(old(input))
      ensures Turn(old(AsRx())) == if outcome.Waiting? && h.endFlag then Judge(AsRx()) else AsRx()
    {
      h := ReadHead(input);
      var n := h.actLength - HEAD_SIZE;
      if AsSize(n) > CAPACITY - iRecvStreamDataLen {
        outcome := TooMuch;
        return;
      }
      AsksTooMuch(n, iRecvStreamDataLen, CAPACITY);
      Store(hGetStreamFromSource, iRecvStreamDataLen, input[HEAD_SIZE..h.actLength]);
      gathered := gathered + input[HEAD_SIZE..h.actLength];
      input := input[h.actLength..];
      iRecvStreamDataLen := iRecvStreamDataLen + n;
    }

    /** Looks for the word of success in what the buffer says. */
    method JudgeReply()
      requires Valid()
      modifies this
      ensures Valid() && AsRx() == Judge(old(AsRx()))
    {
      var buf := hGetStreamFromSource[..];
      if 0 !in buf {
        outcome := TooMuch;
      } else if Contains(Text(buf), SUCCESS) {
        iRecvStreamDataLen := 0;
        outcome := Accepted;
      } else {
        outcome := Dropped;
      }
    }

    method TakeTurn()
      requires Valid() && outcome.Waiting? && Arrived(input)
      modifies this, hGetStreamFromSource
      ensures Valid() && AsRx() == Turn(old(AsRx()))
    {
      var h := ReadBlock();
      if outcome.Waiting? && h.endFlag { JudgeReply(); }
    }

    /** `recv_cmd_from_hbserver`. */
    method RecvCmd()
      requires Valid() && outcome.Waiting?
      modifies this, hGetStreamFromSource
      ensures Valid() && AsRx() == Callback(old(AsRx()))
    {
      ghost var was := AsRx();
      earlier := iRecvStreamDataLen;
      Store(hGetStreamFromSource, 0, seq(CLEARED, i => 0));
      assert AsRx() == Begun(was);
      while outcome.Waiting? && Arrived(input)
        invariant Valid() && Loop(AsRx()) == Callback(was)
        decreases outcome.Waiting?, |input|
      {
        TakeTurn();
      }
    }
  }
}

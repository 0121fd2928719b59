/** The two ends of the media server connection as the program runs them: `SendDataToStream` refills one
    block struct in a loop, `recv_stream_cb` gathers payload in one large buffer. */
module WireIo {
  import opened Bytes
  import opened Buffers
  import opened Wire
  import opened Reassembly

  /** How many blocks a command of `n` bytes takes, and what is left for the last one. */
  method SplitInBlocks(n: nat) returns (split: int, lastLength: int)
    ensures n == 0 ==> split == 0
    ensures n > 0 ==> split > 0 && 0 < lastLength <= NET_BUFFER_LEN && n == (split - 1) * NET_BUFFER_LEN + lastLength
  {
    if n % NET_BUFFER_LEN == 0 {
      split := n / NET_BUFFER_LEN;
      lastLength := NET_BUFFER_LEN;
    } else {
      split := (n + NET_BUFFER_LEN) / NET_BUFFER_LEN;
      lastLength := n % NET_BUFFER_LEN;
    }
  }

  /** Fills the block struct and returns the bytes handed to the socket. */
  method FillBlock(cBuffer: array<byte>, cmd: seq<byte>, from: int, n: int, dataType: byte, head: bool, end: bool,
      reserved: seq<byte>)
    returns (block: seq<byte>)
    requires |reserved| == 2 && 0 <= from && 0 <= n <= cBuffer.Length && from + n <= |cmd|
    modifies cBuffer
    ensures block == HeadBytes(HEAD_SIZE + n, dataType, head, end, reserved) + cmd[from..from + n]
  {
    Store(cBuffer, 0, cmd[from..from + n]);
    block := HeadBytes(HEAD_SIZE + n, dataType, head, end, reserved) + cBuffer[..n];
    assert cBuffer[..n] == cmd[from..from + n];
  }

  /** `SendDataToStream`: the bytes handed to the socket. */
  method SendDataToStream(cmd: seq<byte>, dataType: byte, reserved: seq<byte>) returns (written: seq<byte>)
    requires |reserved| == 2
    ensures written == Encode(cmd, true, dataType, reserved)
  {
    var cBuffer := new byte[NET_BUFFER_LEN];
    var split, lastLength := SplitInBlocks(|cmd|);
    written := [];
    assert cmd[0..] == cmd;
    for i := 0 to split
      invariant written + Unsent(cmd, i * NET_BUFFER_LEN, i == 0, dataType, reserved)
          == Encode(cmd, true, dataType, reserved)
    {
      var from := i * NET_BUFFER_LEN;
      ghost var next := (i + 1) * NET_BUFFER_LEN;
      var n, head, end;
      if i == split - 1 {
        n := lastLength;
        head, end := split == 1, true;
      } else {
        n := NET_BUFFER_LEN;
        head, end := i == 0, false;
      }
      BlockBounds(i, split, |cmd|, lastLength);
      var block := FillBlock(cBuffer, cmd, from, n, dataType, head, end, reserved);
      EncodeTurn(cmd, from, next, n, i == 0, dataType, reserved, block);
      Appends(written, block, Unsent(cmd, next, false, dataType, reserved));
      written := written + block;
    }
    assert written + [] == written;
  }

  /** Every block but the last is full. */
  lemma BlockBounds(i: int, split: int, length: int, lastLength: int)
    requires 0 <= i < split && 0 < lastLength <= NET_BUFFER_LEN && length == (split - 1) * NET_BUFFER_LEN + lastLength
    ensures var from := i * NET_BUFFER_LEN;
      && 0 <= from < length && (i + 1) * NET_BUFFER_LEN == from + NET_BUFFER_LEN
      && BlockPayload(length - from) == (if i == split - 1 then lastLength else NET_BUFFER_LEN)
      && (from + BlockPayload(length - from) == length <==> i == split - 1)
  {
  }

  /** What is still to be sent from `from` on. */
  ghost function Unsent(cmd: seq<byte>, from: int, first: bool, dataType: byte, reserved: seq<byte>): seq<byte>
    requires |reserved| == 2 && 0 <= from
  {
    if from >= |cmd| then [] else Encode(cmd[from..], first, dataType, reserved)
  }

  lemma Appends(a: seq<byte>, b: seq<byte>, c: seq<byte>)
    ensures a + b + c == a + (b + c)
  {
  }

  /** The block for `n` bytes at `from` is what the rest of the command starts with. */
  lemma EncodeTurn(cmd: seq<byte>, from: int, next: int, n: int, first: bool, dataType: byte, reserved: seq<byte>,
      block: seq<byte>)
    requires |reserved| == 2 && 0 <= from < |cmd| && n == BlockPayload(|cmd| - from) && next == from + NET_BUFFER_LEN
    requires block == HeadBytes(HEAD_SIZE + n, dataType, first, from + n == |cmd|, reserved) + cmd[from..from + n]
    ensures Unsent(cmd, from, first, dataType, reserved) == block + Unsent(cmd, next, false, dataType, reserved)
  {
    var rest := cmd[from..];
    EncodeSplits(rest, first, dataType, reserved);
    assert rest[..n] == cmd[from..from + n] && rest[n..] == cmd[from + n..];
  }

  /** The program's test that a whole block has arrived; the length field is compared as an unsigned number. */
  predicate Arrived(s: seq<byte>) { |s| >= HEAD_SIZE && 0 <= ReadHead(s).actLength <= |s| }

  /** The test lets a block pass that has no room for its own head if and only if its length field is below 28. */
  lemma ArrivedIsComplete(s: seq<byte>)
    ensures Arrived(s) && !Complete(s) <==> |s| >= HEAD_SIZE && 0 <= ReadHead(s).actLength < HEAD_SIZE
    ensures Complete(s) ==> Arrived(s)
  {
  }

  /** An `int` passed where a `size_t` is expected. */
  function AsSize(n: int): int { if n < 0 then n + 0x1_0000_0000_0000_0000 else n }

  /** A negative size is more than any buffer has room for. */
  lemma AsksTooMuch(n: int, have: nat, capacity: nat)
    requires -HEAD_SIZE <= n && have <= capacity < 0x8000_0000
    ensures AsSize(n) > capacity - have <==> !(0 <= n && have + n <= capacity)
  {
  }

  /** The blocks up to the end of the current frame have a proper length and fit the buffer. */
  ghost predicate Sane(s: seq<byte>, have: nat, capacity: nat)
    decreases |s|
  {
    Arrived(s) ==>
      var n := ReadHead(s).actLength;
      && HEAD_SIZE <= n && have + n - HEAD_SIZE <= capacity
      && (ReadHead(s).endFlag || Sane(s[n..], have + n - HEAD_SIZE, capacity))
  }

  /** A block has a proper length and fits. */
  predicate Room(s: seq<byte>, have: nat, capacity: nat)
    requires Arrived(s)
  {
    HEAD_SIZE <= ReadHead(s).actLength && have + ReadHead(s).actLength - HEAD_SIZE <= capacity
  }

  /** The callback with the program's own tests: the state it ends in, and whether it asked for too much. */
  ghost function Checked(r: Rx, gone: bool, full: bool, capacity: nat): (Rx, bool)
    decreases |r.p.rest|
  {
    if r.closed || !Arrived(r.p.rest) then (r, true)
    else if !Room(r.p.rest, |r.p.acc|, capacity) then (r, false)
    else
      var h, q := ReadHead(r.p.rest), r.(p := Gather(r.p));
      if h.endFlag then (Finish(q, h, gone, full), true) else Checked(q, gone, full, capacity)
  }

  lemma {:induction false} CheckedIs(r: Rx, gone: bool, full: bool, capacity: nat)
    requires !r.closed
    ensures var c := Checked(r, gone, full, capacity);
      c.1 == Sane(r.p.rest, |r.p.acc|, capacity) && (c.1 ==> c.0 == Callback(r, gone, full))
    decreases |r.p.rest|
  {
    if Arrived(r.p.rest) && Room(r.p.rest, |r.p.acc|, capacity) && !ReadHead(r.p.rest).endFlag {
      CheckedIs(r.(p := Gather(r.p)), gone, full, capacity);
    }
  }

  class Receiver {
    var input: seq<byte>
    const hGetStreamFromSource: array<byte>
    var iRecvStreamDataLen: int
    var started: bool
    var closed: bool
    var queue: seq<Entry>

    // a log the program does not keep
    ghost var done: seq<Message>
    ghost var arrived: seq<byte>

    constructor (capacity: nat)
      ensures Valid() && AsRx() == START && hGetStreamFromSource.Length == capacity
    {
      input, queue, started, closed, iRecvStreamDataLen := [], [], false, false, 0;
      done, arrived := [], [];
      hGetStreamFromSource := new byte[capacity];
    }

    predicate Valid()
      reads this
    {
      0 <= iRecvStreamDataLen <= hGetStreamFromSource.Length
    }

    ghost function AsRx(): Rx
      reads this, hGetStreamFromSource
      requires Valid()
    {
      Rx(Parse(done, hGetStreamFromSource[..iRecvStreamDataLen], input), started, queue, closed, arrived)
    }

    method Arrive(bytes: seq<byte>)
      requires Valid()
      modifies this
      ensures Valid() && AsRx() == Next(old(AsRx()), Event.Arrive(bytes))
    {
      if !closed { input := input + bytes; }
      arrived := arrived + bytes;
    }

    /** Takes one block off the input and puts its payload behind what is gathered. */
    method ReadBlock() returns (h: Head)
      requires Valid() && !closed && Complete(input)
      requires iRecvStreamDataLen + BlockLength(input) - HEAD_SIZE <= hGetStreamFromSource.Length
      modifies this`input, this`iRecvStreamDataLen, hGetStreamFromSource
      ensures Valid() && h == ReadHead(old(input)) && input == old(input)[h.actLength..]
      ensures iRecvStreamDataLen == old(iRecvStreamDataLen) + h.actLength - HEAD_SIZE
      ensures AsRx() == old(AsRx()).(p := Gather(old(AsRx()).p))
    {
      h := ReadHead(input);
      Store(hGetStreamFromSource, iRecvStreamDataLen, input[HEAD_SIZE..h.actLength]);
      iRecvStreamDataLen := iRecvStreamDataLen + (h.actLength - HEAD_SIZE);
      input := input[h.actLength..];
    }

    /** The part of `recv_stream_cb` for the last block of a frame. */
    method FinishFrame(h: Head, gone: bool, full: bool)
      requires Valid() && !closed
      modifies this
      ensures Valid() && AsRx() == Finish(old(AsRx()), h, gone, full)
    {
      ghost var m := Message(h, hGetStreamFromSource[..iRecvStreamDataLen]);
      if gone { closed := true; return; }
      if !started && h.frameType == 1 { started := true; }
      if !started || h.dataType != 13 {
        iRecvStreamDataLen := 0;
        done := done + [m];
        return;
      }
      if full { closed := true; return; }
      var stamp := (h.timeHigh * 0x1_0000_0000 + h.timeLow) * 90 % TWO_64;
      queue := queue + [Entry(KindOf(h.frameType), stamp, hGetStreamFromSource[..iRecvStreamDataLen])];
      iRecvStreamDataLen := 0;
      done := done + [m];
    }

    /** One turn of the loop of `recv_stream_cb`; `more` says that it goes round again.  `ok` is false if the
        program asks for more bytes than there is room for behind what is gathered. */
    method TakeOne(gone: bool, full: bool) returns (more: bool, ok: bool)
      requires Valid() && !closed && hGetStreamFromSource.Length < 0x8000_0000
      modifies this, hGetStreamFromSource
      ensures Valid() && (more ==> ok && !closed && |input| < |old(input)|)
      ensures Checked(old(AsRx()), gone, full, hGetStreamFromSource.Length)
           == if more then Checked(AsRx(), gone, full, hGetStreamFromSource.Length) else (AsRx(), ok)
    {
      if !Arrived(input) { return false, true; }
      AsksTooMuch(ReadHead(input).actLength - HEAD_SIZE, iRecvStreamDataLen, hGetStreamFromSource.Length);
      if AsSize(ReadHead(input).actLength - HEAD_SIZE) > hGetStreamFromSource.Length - iRecvStreamDataLen {
        return false, false;
      }
      var h := ReadBlock();
      if h.endFlag { FinishFrame(h, gone, full); }
      more, ok := !h.endFlag, true;
    }

    /** `recv_stream_cb`.  `gone`: no client is left or the send task has finished; `full`: the queue
        already holds 512 frames.  The buffer is never asked to hold more than it can, `ok`, if and only if the
        blocks up to the end of the frame have a proper length and fit. */
    method RecvStreamCb(gone: bool, full: bool) returns (ok: bool)
      requires Valid() && !closed && hGetStreamFromSource.Length < 0x8000_0000
      modifies this, hGetStreamFromSource
      ensures Valid() && ok == old(Sane(input, iRecvStreamDataLen, hGetStreamFromSource.Length))
      ensures ok ==> AsRx() == Callback(old(AsRx()), gone, full)
    {
      CheckedIs(AsRx(), gone, full, hGetStreamFromSource.Length);
      ok := RunLoop(gone, full);
    }

    /** Its loop. */
    method RunLoop(gone: bool, full: bool) returns (ok: bool)
      requires Valid() && !closed && hGetStreamFromSource.Length < 0x8000_0000
      modifies this, hGetStreamFromSource
      ensures Valid() && Checked(old(AsRx()), gone, full, hGetStreamFromSource.Length) == (AsRx(), ok)
    {
      var more := true;
      ok := true;
      while more
        invariant Valid() && (more ==> ok && !closed)
        invariant Checked(old(AsRx()), gone, full, hGetStreamFromSource.Length)
               == if more then Checked(AsRx(), gone, full, hGetStreamFromSource.Length) else (AsRx(), ok)
        decreases more, |input|
      {
        more, ok := TakeOne(gone, full);
      }
    }
  }

  lemma HeadOfBlock(head: seq<byte>, payload: seq<byte>)
    requires |head| == HEAD_SIZE
    ensures ReadHead(head + payload) == ReadHead(head)
  {
    var s := head + payload;
    assert s[0..4] == head[0..4] && s[8..12] == head[8..12] && s[12..16] == head[12..16];
  }

  /** Two inputs for which the buffer is asked for too much: a head with a length field of 27, and, for a buffer
      of any size, a block with one byte more than it holds. */
  lemma UnsaneInputs(capacity: nat) returns (short: seq<byte>, long: seq<byte>)
    requires capacity < 0x7FFF_0000
    ensures |short| == HEAD_SIZE && ReadHead(short).actLength == HEAD_SIZE - 1 && !Sane(short, 0, capacity)
    ensures |long| == HEAD_SIZE + capacity + 1 && ReadHead(long).actLength == |long| && !Sane(long, 0, capacity)
  {
    short := HeadBytes(HEAD_SIZE - 1, 13, true, true, [0, 0]);
    HeadReadsBack(HEAD_SIZE - 1, 13, true, true, [0, 0]);
    var head, payload := HeadBytes(HEAD_SIZE + capacity + 1, 13, true, true, [0, 0]), seq(capacity + 1, i => 0);
    HeadReadsBack(HEAD_SIZE + capacity + 1, 13, true, true, [0, 0]);
    HeadOfBlock(head, payload);
    long := head + payload;
  }
}

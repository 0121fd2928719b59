/** The 28-byte-header blocks exchanged with the media server: what a command looks like on the wire,
    and how frames are put together again from bytes that arrive in arbitrary pieces. */
module Wire {
  import opened Bytes

  const HEAD_SIZE := 28
  const NET_BUFFER_LEN := 8 * 1024

  function Le32(n: int): (s: seq<byte>)
    ensures |s| == 4
  {
    [U8(n), U8(n / 0x100), U8(n / 0x1_0000), U8(n / 0x100_0000)]
  }

  /** A signed 32-bit number, least significant byte first. */
  function DeLe32(s: seq<byte>): int
    requires |s| == 4
  {
    var n := s[0] as int + 0x100 * s[1] as int + 0x1_0000 * s[2] as int + 0x100_0000 * s[3] as int;
    if n < 0x8000_0000 then n else n - 0x1_0000_0000
  }

  lemma Le32RoundTrip(n: int)
    requires 0 <= n < 0x8000_0000
    ensures DeLe32(Le32(n)) == n
  {
    var n1 := n / 0x100;
    var n2 := n1 / 0x100;
    assert n / 0x1_0000 == n2 && n / 0x100_0000 == n2 / 0x100;
  }

  /** The fields of a block header that the program uses. */
  datatype Head = Head(actLength: int, dataType: byte, frameType: byte, timeHigh: int, timeLow: int, headFlag: bool,
      endFlag: bool)

  function ReadHead(s: seq<byte>): Head
    requires |s| >= HEAD_SIZE
  {
    Head(DeLe32(s[0..4]), s[6], s[7], DeLe32(s[8..12]), DeLe32(s[12..16]), s[24] != 0, s[25] != 0)
  }

  /** One whole block is at the front. */
  predicate Complete(s: seq<byte>)
  {
    |s| >= HEAD_SIZE && HEAD_SIZE <= ReadHead(s).actLength <= |s|
  }

  function BlockLength(s: seq<byte>): (n: int)
    requires Complete(s)
    ensures HEAD_SIZE <= n <= |s|
  {
    ReadHead(s).actLength
  }

  /** A frame put together: the header of its last block and all its payload. */
  datatype Message = Message(head: Head, data: seq<byte>)

  datatype Parse = Parse(done: seq<Message>, acc: seq<byte>, rest: seq<byte>)

  /** The payload of the block in front is put behind what is gathered. */
  function Gather(p: Parse): (q: Parse)
    requires Complete(p.rest)
    ensures |q.rest| < |p.rest|
  {
    var n := BlockLength(p.rest);
    Parse(p.done, p.acc + p.rest[HEAD_SIZE..n], p.rest[n..])
  }

  /** A message is complete. */
  function Emit(p: Parse, h: Head): Parse
  {
    Parse(p.done + [Message(h, p.acc)], [], p.rest)
  }

  /** One block taken from the front. */
  function TakeBlock(p: Parse): Parse
    requires Complete(p.rest)
  {
    if ReadHead(p.rest).endFlag then Emit(Gather(p), ReadHead(p.rest)) else Gather(p)
  }

  /** The one-shot parser: takes blocks while there are whole ones. */
  function ParseAll(p: Parse): (r: Parse)
    ensures !Complete(r.rest)
    decreases |p.rest|
  {
    if Complete(p.rest) then ParseAll(TakeBlock(p)) else p
  }

  /** More bytes behind a whole block do not change what is taken. */
  lemma TakeBlockStable(p: Parse, more: seq<byte>)
    requires Complete(p.rest)
    ensures Complete(p.rest + more)
    ensures TakeBlock(p.(rest := p.rest + more)) == TakeBlock(p).(rest := TakeBlock(p).rest + more)
  {
    var s := p.rest + more;
    assert s[0..4] == p.rest[0..4] && s[8..12] == p.rest[8..12] && s[12..16] == p.rest[12..16];
    assert ReadHead(s) == ReadHead(p.rest);
    var n := BlockLength(p.rest);
    assert s[HEAD_SIZE..n] == p.rest[HEAD_SIZE..n] && s[n..] == p.rest[n..] + more;
  }

  lemma {:induction false} ParseAllGrows(p: Parse)
    ensures p.done <= ParseAll(p).done
    decreases |p.rest|
  {
    if Complete(p.rest) { ParseAllGrows(TakeBlock(p)); }
  }

  // ---------------------------------------------------------------- sending a command

  /** The 28 header bytes `SendDataToStream` writes; the two reserved bytes are never set. */
  function HeadBytes(actLength: int, dataType: byte, headFlag: bool, endFlag: bool, reserved: seq<byte>): (s: seq<byte>)
    requires |reserved| == 2
    ensures |s| == HEAD_SIZE
  {
    Le32(actLength) + [0, 9, dataType, 0] + Le32(0) + Le32(0) + Le32(0) + Le32(0)
    + [if headFlag then 1 else 0, if endFlag then 1 else 0] + reserved
  }

  function BlockPayload(n: int): int { if n > NET_BUFFER_LEN then NET_BUFFER_LEN else n }

  /** The blocks of a command, `first` telling whether this is its beginning. */
  function Encode(cmd: seq<byte>, first: bool, dataType: byte, reserved: seq<byte>): seq<byte>
    requires |reserved| == 2
  {
    if cmd == [] then []
    else
      var n := BlockPayload(|cmd|);
      HeadBytes(HEAD_SIZE + n, dataType, first, n == |cmd|, reserved) + cmd[..n]
      + Encode(cmd[n..], false, dataType, reserved)
  }

  lemma HeadReadsBack(actLength: int, dataType: byte, headFlag: bool, endFlag: bool, reserved: seq<byte>)
    requires |reserved| == 2 && 0 <= actLength < 0x8000_0000
    ensures ReadHead(HeadBytes(actLength, dataType, headFlag, endFlag, reserved))
        == Head(actLength, dataType, 0, 0, 0, headFlag, endFlag)
  {
    var s := HeadBytes(actLength, dataType, headFlag, endFlag, reserved);
    Le32RoundTrip(actLength);
    Le32RoundTrip(0);
    assert s[0..4] == Le32(actLength) && s[8..12] == Le32(0) && s[12..16] == Le32(0);
  }

  lemma BlockReadsBack(cmd: seq<byte>, n: int, dataType: byte, first: bool, last: bool, reserved: seq<byte>,
      more: seq<byte>, p: Parse)
    requires |reserved| == 2 && 0 <= n <= NET_BUFFER_LEN && n <= |cmd|
    requires p.rest == HeadBytes(HEAD_SIZE + n, dataType, first, last, reserved) + cmd[..n] + more
    ensures Complete(p.rest)
    ensures var h := Head(HEAD_SIZE + n, dataType, 0, 0, 0, first, last);
      TakeBlock(p) == if last then Parse(p.done + [Message(h, p.acc + cmd[..n])], [], more)
          else Parse(p.done, p.acc + cmd[..n], more)
  {
    var b := HeadBytes(HEAD_SIZE + n, dataType, first, last, reserved);
    HeadReadsBack(HEAD_SIZE + n, dataType, first, last, reserved);
    assert b + cmd[..n] + more == b + (cmd[..n] + more);
    assert p.rest[0..4] == b[0..4] && p.rest[8..12] == b[8..12] && p.rest[12..16] == b[12..16];
    assert ReadHead(p.rest) == ReadHead(b);
    assert p.rest[HEAD_SIZE..HEAD_SIZE + n] == cmd[..n] && p.rest[HEAD_SIZE + n..] == more;
  }

  /** A last block completes the message. */
  lemma LastBlockParses(cmd: seq<byte>, first: bool, dataType: byte, reserved: seq<byte>, p: Parse)
    requires |reserved| == 2 && |cmd| <= NET_BUFFER_LEN
    requires p.rest == HeadBytes(HEAD_SIZE + |cmd|, dataType, first, true, reserved) + cmd[..|cmd|] + []
    ensures var h := Head(HEAD_SIZE + |cmd|, dataType, 0, 0, 0, first, true);
      ParseAll(p) == Parse(p.done + [Message(h, p.acc + cmd)], [], [])
  {
    BlockReadsBack(cmd, |cmd|, dataType, first, true, reserved, [], p);
    assert cmd[..|cmd|] == cmd;
    var q := TakeBlock(p);
    assert ParseAll(q) == q;
  }

  /** Any other block is put behind what is already there. */
  lemma InnerBlockParses(cmd: seq<byte>, n: int, first: bool, dataType: byte, reserved: seq<byte>, more: seq<byte>,
      p: Parse)
    requires |reserved| == 2 && 0 <= n <= NET_BUFFER_LEN && n <= |cmd|
    requires p.rest == HeadBytes(HEAD_SIZE + n, dataType, first, false, reserved) + cmd[..n] + more
    ensures ParseAll(p) == ParseAll(Parse(p.done, p.acc + cmd[..n], more))
  {
    BlockReadsBack(cmd, n, dataType, first, false, reserved, more, p);
  }

  lemma EncodeSplits(cmd: seq<byte>, first: bool, dataType: byte, reserved: seq<byte>)
    requires |reserved| == 2 && cmd != []
    ensures var n := BlockPayload(|cmd|);
      && 0 < n <= |cmd| && cmd == cmd[..n] + cmd[n..]
      && Encode(cmd, first, dataType, reserved)
         == HeadBytes(HEAD_SIZE + n, dataType, first, n == |cmd|, reserved) + cmd[..n]
            + (if n == |cmd| then [] else Encode(cmd[n..], false, dataType, reserved))
  {
    var n := BlockPayload(|cmd|);
    if n == |cmd| { assert Encode(cmd[n..], false, dataType, reserved) == []; }
  }

  /** Parsing what was sent for a command gives back the command, as one message. */
  lemma {:induction false} EncodeReadsBack(cmd: seq<byte>, first: bool, dataType: byte, reserved: seq<byte>,
        acc: seq<byte>)
    returns (h: Head)
    requires |reserved| == 2 && cmd != []
    ensures h.dataType == dataType && h.endFlag
    ensures ParseAll(Parse([], acc, Encode(cmd, first, dataType, reserved))) == Parse([Message(h, acc + cmd)], [], [])
    decreases |cmd|
  {
    var n := BlockPayload(|cmd|);
    var p := Parse([], acc, Encode(cmd, first, dataType, reserved));
    EncodeSplits(cmd, first, dataType, reserved);
    if n == |cmd| {
      h := Head(HEAD_SIZE + n, dataType, 0, 0, 0, first, true);
      LastBlockParses(cmd, first, dataType, reserved, p);
    } else {
      InnerBlockParses(cmd, n, first, dataType, reserved, Encode(cmd[n..], false, dataType, reserved), p);
      h := EncodeReadsBack(cmd[n..], false, dataType, reserved, acc + cmd[..n]);
      assert acc + cmd[..n] + cmd[n..] == acc + cmd;
    }
  }

  /** A non-empty command survives the wire. */
  lemma CommandSurvives(cmd: seq<byte>, dataType: byte, reserved: seq<byte>)
    requires |reserved| == 2 && cmd != []
    ensures var r := ParseAll(Parse([], [], Encode(cmd, true, dataType, reserved)));
      |r.done| == 1 && r.done[0].data == cmd && r.done[0].head.dataType == dataType && r.rest == [] && r.acc == []
  {
    var h := EncodeReadsBack(cmd, true, dataType, reserved, []);
    assert [] + cmd == cmd;
  }

  /** The headers of the blocks at the front of `s`. */
  function Heads(s: seq<byte>): seq<Head>
    decreases |s|
  {
    if Complete(s) then [ReadHead(s)] + Heads(s[BlockLength(s)..]) else []
  }

  /** Exactly the first block carries the head flag and exactly the last the end flag. */
  lemma {:induction false} OneHeadOneEnd(cmd: seq<byte>, first: bool, dataType: byte, reserved: seq<byte>)
    requires |reserved| == 2 && cmd != []
    ensures var hs := Heads(Encode(cmd, first, dataType, reserved));
      && hs != []
      && forall i :: 0 <= i < |hs| ==> (hs[i].headFlag <==> first && i == 0) && (hs[i].endFlag <==> i == |hs| - 1)
    decreases |cmd|
  {
    var n := BlockPayload(|cmd|);
    EncodeSplits(cmd, first, dataType, reserved);
    if n < |cmd| {
      FirstHead(cmd, n, dataType, first, false, reserved, Encode(cmd[n..], false, dataType, reserved));
      OneHeadOneEnd(cmd[n..], false, dataType, reserved);
    } else {
      FirstHead(cmd, n, dataType, first, true, reserved, []);
      assert Heads([]) == [];
    }
  }

  lemma FirstHead(cmd: seq<byte>, n: int, dataType: byte, first: bool, last: bool, reserved: seq<byte>, more: seq<byte>)
    requires |reserved| == 2 && 0 <= n <= NET_BUFFER_LEN && n <= |cmd|
    ensures var s := HeadBytes(HEAD_SIZE + n, dataType, first, last, reserved) + cmd[..n] + more;
      Heads(s) == [Head(HEAD_SIZE + n, dataType, 0, 0, 0, first, last)] + Heads(more)
  {
    var b := HeadBytes(HEAD_SIZE + n, dataType, first, last, reserved);
    var s := b + cmd[..n] + more;
    HeadReadsBack(HEAD_SIZE + n, dataType, first, last, reserved);
    assert b + cmd[..n] + more == b + (cmd[..n] + more);
    assert s[0..4] == b[0..4] && s[8..12] == b[8..12] && s[12..16] == b[12..16];
    assert ReadHead(s) == ReadHead(b);
    assert s[HEAD_SIZE + n..] == more;
  }

  // ---------------------------------------------------------------- the bytes of the blocks

  /** At `at` begins the block for the bytes of a command from `from` on: length, protocol 0 of version 9, data type,
      frame type 0, times and positions 0, the flags of the first and the last block, and then up to 8192 bytes. */
  predicate BlockAt(s: seq<byte>, at: int, cmd: seq<byte>, from: nat, dataType: byte)
    requires from < |cmd|
  {
    var n := if |cmd| - from > 8192 then 8192 else |cmd| - from;
    && 0 <= at && at + 28 + n <= |s|
    && HeadAt(s[at..at + 28], 28 + n, dataType, from == 0, from + n == |cmd|)
    && s[at + 28..at + 28 + n] == cmd[from..from + n]
  }

  predicate HeadAt(h: seq<byte>, length: int, dataType: byte, first: bool, last: bool)
  {
    && |h| == 28
    && h[0] as int + 256 * h[1] as int + 65536 * h[2] as int + 16777216 * h[3] as int == length
    && h[4] == 0 && h[5] == 9 && h[6] == dataType && h[7] == 0
    && (forall i :: 8 <= i < 24 ==> h[i] == 0)
    && h[24] == (if first then 1 else 0) && h[25] == (if last then 1 else 0)
  }

  lemma HeadSays(length: int, dataType: byte, first: bool, last: bool, reserved: seq<byte>)
    requires |reserved| == 2 && 0 <= length < 0x8000_0000
    ensures HeadAt(HeadBytes(length, dataType, first, last, reserved), length, dataType, first, last)
  {
    var n1 := length / 0x100;
    var n2 := n1 / 0x100;
    assert length / 0x1_0000 == n2 && length / 0x100_0000 == n2 / 0x100;
  }

  lemma ThreeParts(h: seq<byte>, payload: seq<byte>, more: seq<byte>)
    ensures var s := h + payload + more;
      s[0..|h|] == h && s[|h|..|h| + |payload|] == payload && s[|h| + |payload|..] == more
  {
  }

  lemma FirstIsBlock(cmd: seq<byte>, from: nat, dataType: byte, reserved: seq<byte>, s: seq<byte>)
    returns (t: seq<byte>)
    requires |reserved| == 2 && from < |cmd| && s == Encode(cmd[from..], from == 0, dataType, reserved)
    ensures BlockAt(s, 0, cmd, from, dataType)
    ensures from + 8192 < |cmd| ==>
      |s| >= 8220 && s[8220..] == t && t == Encode(cmd[from + 8192..], false, dataType, reserved)
  {
    var rest, n := cmd[from..], BlockPayload(|cmd| - from);
    EncodeSplits(rest, from == 0, dataType, reserved);
    HeadSays(HEAD_SIZE + n, dataType, from == 0, n == |rest|, reserved);
    t := if n == |rest| then [] else Encode(rest[n..], false, dataType, reserved);
    assert rest[..n] == cmd[from..from + n] && rest[n..] == cmd[from + n..];
    ThreeParts(HeadBytes(HEAD_SIZE + n, dataType, from == 0, n == |rest|, reserved), rest[..n], t);
  }

  /** `m` blocks further on. */
  lemma {:induction false} BlocksFrom(cmd: seq<byte>, from: nat, m: nat, at: int, to: nat, dataType: byte,
      reserved: seq<byte>, s: seq<byte>)
    requires |reserved| == 2 && from < |cmd| && s == Encode(cmd[from..], from == 0, dataType, reserved)
    requires at == m * 8220 && to == from + m * 8192 && to < |cmd|
    ensures BlockAt(s, at, cmd, to, dataType)
    decreases m
  {
    var t := FirstIsBlock(cmd, from, dataType, reserved, s);
    if m == 0 {
      assert at == 0 && to == from;
    } else {
      BlocksFrom(cmd, from + 8192, m - 1, at - 8220, to, dataType, reserved, t);
      BlockShifts(s, t, at, cmd, to, dataType);
    }
  }

  lemma BlockShifts(s: seq<byte>, t: seq<byte>, at: int, cmd: seq<byte>, from: nat, dataType: byte)
    requires from < |cmd| && |s| >= 8220 && s[8220..] == t && BlockAt(t, at - 8220, cmd, from, dataType)
    ensures BlockAt(s, at, cmd, from, dataType)
  {
    var n := if |cmd| - from > 8192 then 8192 else |cmd| - from;
    assert t[at - 8220..at - 8192] == s[at..at + 28];
    assert t[at - 8192..at - 8192 + n] == s[at + 28..at + 28 + n];
  }

  /** Block `k` of a command begins at byte 8220 k of what is sent. */
  lemma BlocksAre(cmd: seq<byte>, k: nat, dataType: byte, reserved: seq<byte>)
    requires |reserved| == 2 && k * 8192 < |cmd|
    ensures BlockAt(Encode(cmd, true, dataType, reserved), k * 8220, cmd, k * 8192, dataType)
  {
    var s, at, to := Encode(cmd, true, dataType, reserved), k * 8220, k * 8192;
    assert cmd[0..] == cmd;
    BlocksFrom(cmd, 0, k, at, to, dataType, reserved, s);
  }
}

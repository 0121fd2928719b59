/** The queue as the program holds it: counters and a unit array that are updated in place.  Every
    access is one step of module `LfQueue`; a call that nobody interrupts is proved against the
    first-in first-out contents. */
module LfQueueObject {
  import opened LfQueue

  const INT32_MAX := 0x7FFF_FFFF
  const UNIT_HEAD_SIZE := 8

  class Queue<T(!new)> {
    const max: int
    var pHead: int
    var pTail: int
    var wTail: int
    var wLen: int
    var rLen: int
    const cells: array<Cell<T>>

    // histories that the program does not keep
    ghost var pushed: seq<T>
    ghost var popped: seq<T>

    /** The shared memory as a value. */
    function View(): Memory<T>
      reads this, cells
    {
      Memory(max, pHead, pTail, wTail, wLen, rLen, cells[..])
    }

    ghost function At(p: Producer<T>, c: Consumer<T>): State<T>
      reads this, cells
    {
      State(View(), p, c, pushed, popped)
    }

    /** No call is in progress. */
    ghost predicate Valid()
      reads this, cells
    {
      Reachable(At(PIdle, CIdle))
    }

    /** What waits in the queue, oldest first. */
    ghost function Contents(): seq<T>
      reads this
    {
      if |popped| <= |pushed| then pushed[|popped|..] else []
    }

    constructor (maxUnits: int, zero: T)
      requires 1 <= maxUnits
      ensures Valid() && fresh(cells)
      ensures max == maxUnits && Contents() == []
      ensures View() == Fresh(maxUnits, zero)
    {
      max := maxUnits;
      pHead, pTail, wTail, wLen, rLen := LIST_END, LIST_END, 0, 0, 0;
      cells := new Cell<T>[maxUnits + 2](_ => Cell(0, false, zero));
      pushed, popped := [], [];
      new;
      cells[0] := Cell(LIST_END, false, zero);
      assert cells[..] == Fresh(maxUnits, zero).cells;
      assert Run(Start(maxUnits, zero), []) == Start(maxUnits, zero);
    }

    /** One access of a push, performed in place. */
    method PushAccess(p: Producer<T>, ghost c: Consumer<T>) returns (p': Producer<T>)
      requires At(p, c).WellFormed()
      modifies this, cells
      ensures At(p', c) == Next(old(At(p, c)), LfQueue.Push)
    {
      p' := p;
      match p {
        case PIdle =>
        case PReadLen(v) => p' := if wLen >= max then PIdle else PCasLen(v, wLen);
        case PCasLen(v, seen) =>
          if wLen == seen { wLen := seen + 1; p' := PReadSlot(v); } else { p' := PReadLen(v); }
        case PReadSlot(v) => p' := PCasSlot(v, wTail, wTail % (max + 1));
        case PCasSlot(v, was, slot) =>
          if wTail == was { wTail := slot + 1; p' := PTestFlag(v, slot); } else { p' := PReadSlot(v); }
        case PTestFlag(v, slot) => p' := if cells[slot + 1].inUse then PReadSlot(v) else PInitNext(v, slot);
        case PInitNext(v, slot) =>
          cells[slot + 1] := cells[slot + 1].(next := LIST_END);
          p' := PInitFlag(v, slot);
        case PInitFlag(v, slot) =>
          cells[slot + 1] := cells[slot + 1].(inUse := true);
          p' := PCopy(v, slot);
        case PCopy(v, slot) =>
          cells[slot + 1] := cells[slot + 1].(data := v);
          p' := PReadTail(v, slot, 0);
        case PReadTail(v, slot, tries) =>
          p' := if tries + 1 >= 3 then PWalk(v, slot, pTail, pTail, tries + 1)
                else PLink(v, slot, pTail, pTail, tries + 1);
        case PWalk(v, slot, oldTail, cur, tries) =>
          var n := cells[cur + 1].next;
          p' := if n != LIST_END then PWalk(v, slot, oldTail, n, tries) else PLink(v, slot, oldTail, cur, tries);
        case PLink(v, slot, oldTail, cur, tries) =>
          if cells[cur + 1].next == LIST_END {
            cells[cur + 1] := cells[cur + 1].(next := slot);
            pushed := pushed + [v];
            p' := PMoveTail(slot, oldTail);
          } else {
            p' := PReadTail(v, slot, tries);
          }
        case PMoveTail(slot, oldTail) =>
          if pTail == oldTail { pTail := slot; }
          p' := PCount;
        case PCount => rLen := rLen + 1; p' := PIdle;
      }
    }

    /** One access of a pop, performed in place. */
    method PopAccess(ghost p: Producer<T>, c: Consumer<T>) returns (c': Consumer<T>)
      requires At(p, c).WellFormed()
      modifies this, cells
      ensures At(p, c') == Next(old(At(p, c)), LfQueue.Pop)
    {
      c' := c;
      match c {
        case CIdle =>
        case CReadLen => c' := if rLen <= 0 then CIdle else CCasLen(rLen);
        case CCasLen(seen) =>
          if rLen == seen { rLen := seen - 1; c' := CReadHead; } else { c' := CReadLen; }
        case CReadHead => c' := CReadNext(pHead);
        case CReadNext(d) => c' := CCasHead(d, cells[d + 1].next);
        case CCasHead(d, n) =>
          if pHead == d { pHead := n; c' := CNextToCopy(d); } else { c' := CReadHead; }
        case CNextToCopy(d) => c' := CCopy(d, cells[d + 1].next);
        case CCopy(d, n) => c' := CNextToClear(d, cells[n + 1].data);
        case CNextToClear(d, out) => c' := CClear(d, cells[d + 1].next, out);
        case CClear(d, n, out) =>
          cells[n + 1] := cells[n + 1].(inUse := false);
          c' := CCount(out);
        case CCount(out) =>
          wLen := wLen - 1;
          popped := popped + [out];
          c' := CIdle;
      }
    }

    /** The rest of a push whose length check passed, nobody interrupting. */
    method FinishPush(start: Producer<T>, ghost v: T)
      requires Reachable(At(start, CIdle)) && start.PCasLen? && start.v == v && start.seen == wLen
      modifies this, cells
      ensures Valid() && pushed == old(pushed) + [v] && popped == old(popped)
    {
      var p := start;
      while !p.PIdle?
        invariant Reachable(At(p, CIdle))
        invariant !p.PReadLen? && (p.PCasLen? ==> p.seen == wLen)
        invariant popped == old(popped)
        invariant if p.Linked() || p.PIdle? then pushed == old(pushed) + [v] else pushed == old(pushed) && Carries(p, v)
        decreases Rank(p)
      {
        ghost var s := At(p, CIdle);
        ReachableNext(s, LfQueue.Push);
        SoloStep(s, v);
        p := PushAccess(p, CIdle);
      }
    }

    /** `nolock_queue_push`: 0 and the value appended, or -1 and nothing changed when full. */
    method Push(v: T) returns (ret: int)
      requires Valid()
      modifies this, cells
      ensures Valid()
      ensures ret == if old(|Contents()|) < max then 0 else -1
      ensures Contents() == if ret == 0 then old(Contents()) + [v] else old(Contents())
    {
      ghost var before := At(PIdle, CIdle);
      QuietLengths(before);
      ReachableNext(before, BeginPush(v));
      ghost var begun := Next(before, BeginPush(v));
      ReachableNext(begun, LfQueue.Push);
      var p := PushAccess(PReadLen(v), CIdle);
      if p.PIdle? { return -1; }
      FinishPush(p, v);
      return 0;
    }

    /** The rest of a pop whose length check passed, nobody interrupting. */
    method FinishPop(start: Consumer<T>) returns (unit: T)
      requires Reachable(At(PIdle, start)) && start.CCasLen? && start.seen == rLen
      modifies this, cells
      ensures Valid() && popped == old(popped) + [unit] && pushed == old(pushed)
    {
      var c := start;
      while !c.CCount?
        invariant Reachable(At(PIdle, c))
        invariant !c.CIdle? && !c.CReadLen? && (c.CCasLen? ==> c.seen == rLen)
        invariant pushed == old(pushed) && popped == old(popped)
        decreases PopRank(c)
      {
        ghost var s := At(PIdle, c);
        ReachableNext(s, LfQueue.Pop);
        SoloPopStep(s);
        c := PopAccess(PIdle, c);
      }
      unit := c.out;
      ReachableNext(At(PIdle, c), LfQueue.Pop);
      c := PopAccess(PIdle, c);
    }

    /** `nolock_queue_pop`: 0 and the oldest value removed, or -1 and nothing changed when empty. */
    method Pop(into: T) returns (ret: int, unit: T)
      requires Valid()
      modifies this, cells
      ensures Valid()
      ensures ret == if old(Contents()) != [] then 0 else -1
      ensures ret == 0 ==> [unit] + Contents() == old(Contents())
      ensures ret != 0 ==> unit == into && Contents() == old(Contents())
    {
      ghost var before := At(PIdle, CIdle);
      QuietLengths(before);
      ReachableNext(before, BeginPop);
      ReachableNext(Next(before, BeginPop), LfQueue.Pop);
      var c := PopAccess(PIdle, CReadLen);
      if c.CIdle? { return -1, into; }
      unit := FinishPop(c);
      QuietLengths(At(PIdle, CIdle));
      return 0, unit;
    }

    /** `nolock_queue_len`. */
    method Len() returns (n: int)
      requires Valid()
      ensures n == |Contents()|
    {
      QuietLengths(At(PIdle, CIdle));
      n := rLen;
    }
  }

  /** With no call in progress both counters are the number of waiting values. */
  lemma QuietLengths<T(!new)>(s: State<T>)
    requires Reachable(s) && s.p.PIdle? && s.c.CIdle?
    ensures |s.popped| <= |s.pushed| && s.popped <= s.pushed
    ensures s.mem.rLen == s.mem.wLen == |s.pushed| - |s.popped|
  {
    ReachableHolds(s);
    var order, d, q :| InvAt(s, order, d, q);
  }

  /** The value an unlinked push is carrying. */
  ghost predicate Carries<T>(p: Producer<T>, v: T)
  {
    !p.PIdle? && !p.Linked() && p.v == v
  }

  function Rank<T>(p: Producer<T>): nat
  {
    match p
    case PIdle => 0
    case PCount => 1
    case PMoveTail(_, _) => 2
    case PLink(_, _, _, _, _) => 3
    case PWalk(_, _, _, _, _) => 4
    case PReadTail(_, _, _) => 5
    case PCopy(_, _) => 6
    case PInitFlag(_, _) => 7
    case PInitNext(_, _) => 8
    case PTestFlag(_, _) => 9
    case PCasSlot(_, _, _) => 10
    case PReadSlot(_) => 11
    case PCasLen(_, _) => 12
    case PReadLen(_) => 13
  }

  function PopRank<T>(c: Consumer<T>): nat
  {
    match c
    case CIdle => 0
    case CReadLen => 10
    case CCasLen(_) => 9
    case CReadHead => 8
    case CReadNext(_) => 7
    case CCasHead(_, _) => 6
    case CNextToCopy(_) => 5
    case CCopy(_, _) => 4
    case CNextToClear(_, _) => 3
    case CClear(_, _, _) => 2
    case CCount(_) => 1
  }

  /** Only the producer moves `w_tail`, so its CAS on it succeeds. */
  lemma SlotCasSucceeds<T(!new)>(s: State<T>)
    requires Reachable(s) && s.p.PCasSlot?
    ensures s.p.was == s.mem.wTail
  {
    ReachableHolds(s);
  }

  /** A push running alone past its length check moves on with every access. */
  lemma SoloStep<T(!new)>(s: State<T>, v: T)
    requires Reachable(s) && !s.p.PIdle? && !s.p.PReadLen? && (s.p.PCasLen? ==> s.p.seen == s.mem.wLen)
    requires s.p.Linked() || Carries(s.p, v)
    ensures s.WellFormed()
    ensures var t := Next(s, LfQueue.Push);
      && Rank(t.p) < Rank(s.p) && !t.p.PReadLen? && !t.p.PCasLen?
      && (t.p.Linked() || t.p.PIdle? || Carries(t.p, v))
      && (t.p.PMoveTail? <==> s.p.PLink?)
  {
    AllocatorIsSafe(s);
    if s.p.PCasSlot? { SlotCasSucceeds(s); }
  }

  /** A pop running alone past its length check moves on with every access. */
  lemma SoloPopStep<T(!new)>(s: State<T>)
    requires Reachable(s) && !s.c.CIdle? && !s.c.CReadLen? && (s.c.CCasLen? ==> s.c.seen == s.mem.rLen)
    ensures s.WellFormed()
    ensures var t := Next(s, LfQueue.Pop);
      PopRank(t.c) < PopRank(s.c) && !t.c.CReadLen? && !t.c.CCasLen? && (t.c.CIdle? <==> s.c.CCount?)
  {
    if s.c.CCasHead? { HeadCasSucceeds(s); } else { WellFormedReachable(s); }
    PopRankFalls(s);
  }

  /** Only the consumer moves `head`, so its CAS on it succeeds. */
  lemma HeadCasSucceeds<T(!new)>(s: State<T>)
    requires Reachable(s) && s.c.CCasHead?
    ensures s.WellFormed() && s.c.dummy == s.mem.head
  {
    ReachableHolds(s);
    var order, d, q :| InvAt(s, order, d, q);
    assert ConsumerHolds(s.mem, s.c, order, d, q);
  }

  lemma WellFormedReachable<T(!new)>(s: State<T>)
    requires Reachable(s)
    ensures s.WellFormed()
  {
    ReachableHolds(s);
  }

  lemma PopRankFalls<T>(s: State<T>)
    requires s.WellFormed() && !s.c.CIdle? && !s.c.CReadLen?
    requires (s.c.CCasLen? ==> s.c.seen == s.mem.rLen) && (s.c.CCasHead? ==> s.c.dummy == s.mem.head)
    ensures var t := Next(s, LfQueue.Pop);
      PopRank(t.c) < PopRank(s.c) && !t.c.CReadLen? && !t.c.CCasLen? && (t.c.CIdle? <==> s.c.CCount?)
  {
  }

  /** `nolock_queue_init` without shared memory: its argument checks, then a fresh queue.  The size
      comparison is made in an unsigned type, so a negative size is too large. */
  method Init<T(!new)>(unitSize: int, maxUnits: int, zero: T) returns (code: int, q: Queue?<T>)
    requires maxUnits >= 0
    ensures code == if unitSize == 0 || maxUnits == 0 then -2
                    else if unitSize < 0 || unitSize > INT32_MAX - UNIT_HEAD_SIZE then -3 else 0
    ensures code == 0 <==> q != null
    ensures q != null ==> fresh(q) && q.Valid() && q.max == maxUnits && q.Contents() == []
  {
    if unitSize == 0 || maxUnits == 0 { return -2, null; }
    if unitSize < 0 || unitSize > INT32_MAX - UNIT_HEAD_SIZE { return -3, null; }
    code := 0;
    q := new Queue<T>(maxUnits, zero);
  }
}

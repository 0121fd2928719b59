/** The array-backed lock-free queue, one atomic memory access at a time.

    The queue is shared by one producer (the libevent callback of a stream node) and one
    consumer (that node's send task).  Each constructor of `Producer` and `Consumer` is a program
    point of `nolock_queue_push` and `nolock_queue_pop`; `PushStep` and `PopStep` perform the
    single access made there.  A run is any interleaving of those accesses. */
module LfQueue {

  const LIST_END := -1

  /** A unit: the two header words and the payload. */
  datatype Cell<T> = Cell(next: int, inUse: bool, data: T)

  /** The shared memory.  `cells[i + 1]` is the unit at offset `i`, from the dummy at -1 up. */
  datatype Memory<T> = Memory(max: int, head: int, tail: int, wTail: int, wLen: int, rLen: int, cells: seq<Cell<T>>)
  {
    ghost predicate WellFormed()
    {
      && 1 <= max
      && |cells| == max + 2
      && Offset(head) && Offset(tail) && 0 <= wTail <= max + 1
      && forall i :: 0 <= i < |cells| ==> Offset(cells[i].next)
    }

    predicate Offset(i: int) { -1 <= i <= max }

    function At(i: int): Cell<T>
      requires WellFormed() && Offset(i)
    {
      cells[i + 1]
    }

    function Put(i: int, c: Cell<T>): (m: Memory<T>)
      requires WellFormed() && Offset(i) && Offset(c.next)
      ensures m.WellFormed()
    {
      this.(cells := cells[i + 1 := c])
    }
  }

  /** Where `nolock_queue_push` stands, with its local variables. */
  datatype Producer<T> =
    | PIdle
    | PReadLen(v: T)
    | PCasLen(v: T, seen: int)
    | PReadSlot(v: T)
    | PCasSlot(v: T, was: int, slot: int)
    | PTestFlag(v: T, slot: int)
    | PInitNext(v: T, slot: int)
    | PInitFlag(v: T, slot: int)
    | PCopy(v: T, slot: int)
    | PReadTail(v: T, slot: int, tries: nat)
    | PWalk(v: T, slot: int, oldTail: int, cur: int, tries: nat)
    | PLink(v: T, slot: int, oldTail: int, cur: int, tries: nat)
    | PMoveTail(slot: int, oldTail: int)
    | PCount
  {
    /** The registers hold offsets of the queue. */
    predicate InRange(max: int)
    {
      match this
      case PCasSlot(_, was, slot) => 0 <= was <= max + 1 && 0 <= slot <= max
      case PTestFlag(_, slot) => 0 <= slot <= max
      case PInitNext(_, slot) => 0 <= slot <= max
      case PInitFlag(_, slot) => 0 <= slot <= max
      case PCopy(_, slot) => 0 <= slot <= max
      case PReadTail(_, slot, _) => 0 <= slot <= max
      case PWalk(_, slot, oldTail, cur, _) => 0 <= slot <= max && -1 <= oldTail <= max && -1 <= cur <= max
      case PLink(_, slot, oldTail, cur, _) => 0 <= slot <= max && -1 <= oldTail <= max && -1 <= cur <= max
      case PMoveTail(slot, oldTail) => 0 <= slot <= max && -1 <= oldTail <= max
      case _ => true
    }

    /** The write counter has been raised for a value that is not linked yet. */
    predicate Claimed() { PReadSlot? || PCasSlot? || SlotOwned() }

    predicate SlotOwned() { PTestFlag? || PInitNext? || PInitFlag? || FlagSet() }

    predicate FlagSet() { PCopy? || PReadTail? || PWalk? || PLink? }

    /** The value is linked but the read counter does not show it yet. */
    predicate Linked() { PMoveTail? || PCount? }
  }

  /** Where `nolock_queue_pop` stands, with its local variables. */
  datatype Consumer<T> =
    | CIdle
    | CReadLen
    | CCasLen(seen: int)
    | CReadHead
    | CReadNext(dummy: int)
    | CCasHead(dummy: int, succ: int)
    | CNextToCopy(dummy: int)
    | CCopy(dummy: int, succ: int)
    | CNextToClear(dummy: int, out: T)
    | CClear(dummy: int, succ: int, out: T)
    | CCount(out: T)
  {
    predicate InRange(max: int)
    {
      match this
      case CReadNext(d) => -1 <= d <= max
      case CCasHead(d, n) => -1 <= d <= max && -1 <= n <= max
      case CNextToCopy(d) => -1 <= d <= max
      case CCopy(d, n) => -1 <= d <= max && -1 <= n <= max
      case CNextToClear(d, _) => -1 <= d <= max
      case CClear(d, n, _) => -1 <= d <= max && -1 <= n <= max
      case _ => true
    }

    /** The read counter has been lowered but the head has not moved. */
    predicate Reserved() { CReadHead? || CReadNext? || CCasHead? }

    /** The head has moved but the write counter has not been lowered. */
    predicate Taken() { Reading() || CCount? }

    /** The value is being read from the unit behind the old dummy. */
    predicate Reading() { CNextToCopy? || CCopy? || CNextToClear? || CClear? }

    predicate InFlight() { Reserved() || Taken() }
  }

  // ---------------------------------------------------------------- atomic steps

  /** One memory access of `nolock_queue_push`.  A refused push goes back to `PIdle` from `PReadLen`. */
  function PushStep<T>(m: Memory<T>, p: Producer<T>): (r: (Memory<T>, Producer<T>))
    requires m.WellFormed() && p.InRange(m.max)
    ensures r.0.WellFormed() && r.1.InRange(r.0.max) && r.0.max == m.max
  {
    match p
    case PIdle => (m, p)
    case PReadLen(v) => if m.wLen >= m.max then (m, PIdle) else (m, PCasLen(v, m.wLen))
    case PCasLen(v, seen) =>
      if m.wLen == seen then (m.(wLen := seen + 1), PReadSlot(v)) else (m, PReadLen(v))
    case PReadSlot(v) => (m, PCasSlot(v, m.wTail, m.wTail % (m.max + 1)))
    case PCasSlot(v, was, slot) =>
      if m.wTail == was then (m.(wTail := slot + 1), PTestFlag(v, slot)) else (m, PReadSlot(v))
    case PTestFlag(v, slot) => if m.At(slot).inUse then (m, PReadSlot(v)) else (m, PInitNext(v, slot))
    case PInitNext(v, slot) => (m.Put(slot, m.At(slot).(next := LIST_END)), PInitFlag(v, slot))
    case PInitFlag(v, slot) => (m.Put(slot, m.At(slot).(inUse := true)), PCopy(v, slot))
    case PCopy(v, slot) => (m.Put(slot, m.At(slot).(data := v)), PReadTail(v, slot, 0))
    case PReadTail(v, slot, tries) =>
      if tries + 1 >= 3 then (m, PWalk(v, slot, m.tail, m.tail, tries + 1))
      else (m, PLink(v, slot, m.tail, m.tail, tries + 1))
    case PWalk(v, slot, oldTail, cur, tries) =>
      if m.At(cur).next != LIST_END then (m, PWalk(v, slot, oldTail, m.At(cur).next, tries))
      else (m, PLink(v, slot, oldTail, cur, tries))
    case PLink(v, slot, oldTail, cur, tries) =>
      if m.At(cur).next == LIST_END then (m.Put(cur, m.At(cur).(next := slot)), PMoveTail(slot, oldTail))
      else (m, PReadTail(v, slot, tries))
    case PMoveTail(slot, oldTail) =>
      (if m.tail == oldTail then m.(tail := slot) else m, PCount)
    case PCount => (m.(rLen := m.rLen + 1), PIdle)
  }

  /** One memory access of `nolock_queue_pop`.  A refused pop goes back to `CIdle` from `CReadLen`. */
  function PopStep<T>(m: Memory<T>, c: Consumer<T>): (r: (Memory<T>, Consumer<T>))
    requires m.WellFormed() && c.InRange(m.max)
    ensures r.0.WellFormed() && r.1.InRange(r.0.max) && r.0.max == m.max
  {
    match c
    case CIdle => (m, c)
    case CReadLen => if m.rLen <= 0 then (m, CIdle) else (m, CCasLen(m.rLen))
    case CCasLen(seen) => if m.rLen == seen then (m.(rLen := seen - 1), CReadHead) else (m, CReadLen)
    case CReadHead => (m, CReadNext(m.head))
    case CReadNext(d) => (m, CCasHead(d, m.At(d).next))
    case CCasHead(d, n) => if m.head == d then (m.(head := n), CNextToCopy(d)) else (m, CReadHead)
    case CNextToCopy(d) => (m, CCopy(d, m.At(d).next))
    case CCopy(d, n) => (m, CNextToClear(d, m.At(n).data))
    case CNextToClear(d, out) => (m, CClear(d, m.At(d).next, out))
    case CClear(_, n, out) => (m.Put(n, m.At(n).(inUse := false)), CCount(out))
    case CCount(_) => (m.(wLen := m.wLen - 1), CIdle)
  }

  // ---------------------------------------------------------------- runs

  /** The memory, both program points, and two histories that the program does not keep: the values
      linked by pushes and the values returned by pops. */
  datatype State<T> = State(mem: Memory<T>, p: Producer<T>, c: Consumer<T>, pushed: seq<T>, popped: seq<T>)
  {
    ghost predicate WellFormed()
    {
      mem.WellFormed() && p.InRange(mem.max) && c.InRange(mem.max)
    }
  }

  /** What the scheduler does next; a call is begun only by an idle thread. */
  datatype Action<T> = BeginPush(v: T) | Push | BeginPop | Pop

  function Next<T>(s: State<T>, a: Action<T>): (s': State<T>)
    requires s.WellFormed()
    ensures s'.WellFormed() && s'.mem.max == s.mem.max
  {
    match a
    case BeginPush(v) => if s.p.PIdle? then s.(p := PReadLen(v)) else s
    case BeginPop => if s.c.CIdle? then s.(c := CReadLen) else s
    case Push =>
      var (m, p) := PushStep(s.mem, s.p);
      var linked := if s.p.PLink? && p.PMoveTail? then s.pushed + [s.p.v] else s.pushed;
      s.(mem := m, p := p, pushed := linked)
    case Pop =>
      var (m, c) := PopStep(s.mem, s.c);
      var taken := if s.c.CCount? then s.popped + [s.c.out] else s.popped;
      s.(mem := m, c := c, popped := taken)
  }

  function Run<T>(s: State<T>, actions: seq<Action<T>>): (s': State<T>)
    requires s.WellFormed()
    ensures s'.WellFormed() && s'.mem.max == s.mem.max
    decreases |actions|
  {
    if actions == [] then s else Run(Next(s, actions[0]), actions[1..])
  }

  /** What `nolock_queue_init` leaves: zeroed memory, both list ends at the dummy. */
  function Fresh<T>(max: int, zero: T): (m: Memory<T>)
    requires 1 <= max
    ensures m.WellFormed()
  {
    Memory(max, LIST_END, LIST_END, 0, 0, 0,
           [Cell(LIST_END, false, zero)] + seq(max + 1, _ => Cell(0, false, zero)))
  }

  function Start<T>(max: int, zero: T): (s: State<T>)
    requires 1 <= max
    ensures s.WellFormed()
  {
    State(Fresh(max, zero), PIdle, CIdle, [], [])
  }

  // ---------------------------------------------------------------- the invariant

  /** The unit after `i` in the order the round-robin allocator hands units out. */
  function Wrap(max: int, i: int): int { if i == max then 0 else i + 1 }

  ghost predicate Follows(order: seq<int>, i: int)
    requires 0 <= i < |order| - 1
  {
    order[i + 1] == Wrap(|order| - 1, order[i])
  }

  /** `order` lists every allocatable unit once, in allocation order. */
  ghost predicate IsRing(order: seq<int>, max: int)
  {
    && 1 <= max
    && |order| == max + 1
    && (forall i :: 0 <= i <= max ==> 0 <= order[i] <= max)
    && (forall i :: 0 <= i < max ==> Follows(order, i))
    && order[0] == Wrap(max, order[max])
    && (forall i, j :: 0 <= i < j <= max ==> order[i] != order[j])
  }

  /** The ring seen from its second unit. */
  function Rotate(order: seq<int>): seq<int>
    requires order != []
  {
    order[1..] + [order[0]]
  }

  ghost predicate Hops<T>(cells: seq<Cell<T>>, from: int, to: int)
  {
    -1 <= from < |cells| - 1 && cells[from + 1].next == to
  }

  ghost predicate Holds<T>(cells: seq<Cell<T>>, i: int, v: T)
  {
    -1 <= i < |cells| - 1 && cells[i + 1].data == v
  }

  ghost predicate Marked<T>(cells: seq<Cell<T>>, i: int)
  {
    -1 <= i < |cells| - 1 && cells[i + 1].inUse
  }

  /** The last linked unit: `n` values wait behind dummy `d`. */
  function Last(order: seq<int>, d: int, n: int): int
    requires 0 <= n <= |order|
  {
    if n > 0 then order[n - 1] else d
  }

  /** The list of units starts at dummy `d` and holds exactly the values `q`, in ring order. */
  ghost predicate Chain<T>(cells: seq<Cell<T>>, order: seq<int>, d: int, q: seq<T>)
  {
    && |q| < |order|
    && (q != [] ==> Hops(cells, d, order[0]))
    && (forall i :: 0 <= i < |q| - 1 ==> Hops(cells, order[i], order[i + 1]))
    && Hops(cells, Last(order, d, |q|), LIST_END)
    && (forall i :: 0 <= i < |q| ==> Holds(cells, order[i], q[i]))
  }

  /** Exactly the units of ring places `lo` to `hi` are marked in use. */
  ghost predicate Marks<T>(cells: seq<Cell<T>>, order: seq<int>, lo: int, hi: int)
  {
    forall i :: 0 <= i < |order| ==> (Marked(cells, order[i]) <==> lo <= i < hi)
  }

  /** The counters show exactly the waiting values and the two calls in progress. */
  ghost predicate Counters<T>(m: Memory<T>, p: Producer<T>, c: Consumer<T>, n: nat)
  {
    && m.wLen == n + (if p.Claimed() then 1 else 0)
    && m.wLen <= m.max
    && m.rLen == n - (if p.Linked() then 1 else 0) - (if c.InFlight() then 1 else 0)
    && 0 <= m.rLen
    && (p.PCasLen? ==> p.seen < m.max)
    && (c.CCasLen? ==> 0 < c.seen)
  }

  /** What the producer's registers, `tail` and `wTail` mean when `n` values wait. */
  ghost predicate ProducerHolds<T>(m: Memory<T>, p: Producer<T>, order: seq<int>, d: int, n: nat)
    requires n < |order|
  {
    var mine := order[n];
    && (p.SlotOwned() ==> p.slot == mine && m.wTail == mine + 1)
    && (!p.SlotOwned() ==> m.wTail == mine || (mine == 0 && m.wTail == m.max + 1))
    && (p.PCasSlot? ==> p.was == m.wTail && p.slot == mine)
    && !p.PWalk?
    && (p.PReadTail? ==> p.tries == 0)
    && (p.PLink? ==> p.tries == 1 && p.oldTail == p.cur == Last(order, d, n))
    && (p.PInitFlag? || p.FlagSet() ==> Hops(m.cells, mine, LIST_END))
    && (p.PReadTail? || p.PLink? ==> Holds(m.cells, mine, p.v))
    && (p.Linked() ==> n > 0)
    && (if p.PMoveTail? then p.slot == Last(order, d, n) && p.oldTail == m.tail else m.tail == Last(order, d, n))
  }

  /** What the consumer's registers and `head` mean when `q` waits. */
  ghost predicate ConsumerHolds<T>(m: Memory<T>, c: Consumer<T>, order: seq<int>, d: int, q: seq<T>)
    requires order != []
  {
    && m.head == (if c.Taken() then order[0] else d)
    && (c.InFlight() ==> q != [])
    && (c.CReadNext? || c.CCasHead? || c.Reading() ==> c.dummy == d)
    && (c.CCasHead? || c.CCopy? || c.CClear? ==> c.succ == order[0])
    && (c.CNextToClear? || c.CClear? || c.CCount? ==> c.out == q[0])
  }

  /** The invariant: `order` is the ring seen from the oldest value not yet returned, `d` the dummy
      left by the last completed pop, `q` the values linked and not yet returned. */
  ghost predicate InvAt<T>(s: State<T>, order: seq<int>, d: int, q: seq<T>)
  {
    && s.WellFormed()
    && IsRing(order, s.mem.max)
    && d == (if s.popped == [] then LIST_END else order[s.mem.max])
    && s.pushed == s.popped + q
    && Counters(s.mem, s.p, s.c, |q|)
    && Chain(s.mem.cells, order, d, q)
    && Marks(s.mem.cells, order, if s.c.CCount? then 1 else 0, |q| + (if s.p.FlagSet() then 1 else 0))
    && ProducerHolds(s.mem, s.p, order, d, |q|)
    && ConsumerHolds(s.mem, s.c, order, d, q)
  }

  // ---------------------------------------------------------------- every step keeps it

  lemma StartHolds<T>(max: int, zero: T)
    requires 1 <= max
    ensures InvAt(Start(max, zero), seq(max + 1, i => i), LIST_END, [])
  {
  }

  lemma RotateIsRing(order: seq<int>, max: int)
    requires IsRing(order, max)
    ensures IsRing(Rotate(order), max)
  {
    var r := Rotate(order);
    forall i | 0 <= i < max
      ensures Follows(r, i)
    {
      if i < max - 1 { assert Follows(order, i + 1); }
    }
    assert Follows(order, 0);
  }

  /** Writing a unit that the list does not use leaves the list as it was. */
  lemma ChainIgnores<T>(cells: seq<Cell<T>>, order: seq<int>, max: int, d: int, q: seq<T>, c: Cell<T>)
    requires IsRing(order, max) && |cells| == max + 2 && |q| <= max
    requires d == LIST_END || (d == order[max] && |q| < max)
    requires Chain(cells, order, d, q)
    ensures Chain(cells[order[|q|] + 1 := c], order, d, q)
  {
    var to := cells[order[|q|] + 1 := c];
    forall i | 0 <= i < |q|
      ensures to[order[i] + 1] == cells[order[i] + 1]
    {
      assert order[i] != order[|q|];
    }
  }

  /** Changing only the mark of a unit leaves the list as it was. */
  lemma ChainIgnoresMark<T>(cells: seq<Cell<T>>, order: seq<int>, d: int, q: seq<T>, i: int, used: bool)
    requires -1 <= i < |cells| - 1
    requires Chain(cells, order, d, q)
    ensures Chain(cells[i + 1 := cells[i + 1].(inUse := used)], order, d, q)
  {
    var to := cells[i + 1 := cells[i + 1].(inUse := used)];
    forall k, t | Hops(cells, k, t)
      ensures Hops(to, k, t)
    {
    }
  }

  /** Writing a unit without changing its mark leaves the marks as they were. */
  lemma MarksIgnore<T>(cells: seq<Cell<T>>, order: seq<int>, lo: int, hi: int, i: int, c: Cell<T>)
    requires -1 <= i < |cells| - 1 && c.inUse == cells[i + 1].inUse
    requires Marks(cells, order, lo, hi)
    ensures Marks(cells[i + 1 := c], order, lo, hi)
  {
    forall k | 0 <= k < |order|
      ensures Marked(cells[i + 1 := c], order[k]) <==> Marked(cells, order[k])
    {
    }
  }

  /** Marking the next unit, or clearing the first one, moves one end of the marked stretch. */
  lemma MarkMoves<T>(cells: seq<Cell<T>>, order: seq<int>, max: int, k: int, used: bool)
    requires IsRing(order, max) && |cells| == max + 2 && 0 <= k <= max
    ensures var to := cells[order[k] + 1 := cells[order[k] + 1].(inUse := used)];
      forall i :: 0 <= i <= max ==> (Marked(to, order[i]) <==> if i == k then used else Marked(cells, order[i]))
  {
    forall i | 0 <= i <= max && i != k
      ensures order[i] != order[k]
    {
    }
  }

  /** Linking a prepared unit after the last one appends its value. */
  lemma ChainGrows<T>(cells: seq<Cell<T>>, order: seq<int>, max: int, d: int, q: seq<T>, v: T)
    requires IsRing(order, max) && |cells| == max + 2 && |q| < max
    requires d == LIST_END || d == order[max]
    requires Chain(cells, order, d, q)
    requires Hops(cells, order[|q|], LIST_END) && Holds(cells, order[|q|], v)
    ensures var last := Last(order, d, |q|) + 1;
      Chain(cells[last := cells[last].(next := order[|q|])], order, d, q + [v])
  {
    var n := |q|;
    var l := Last(order, d, n);
    var to := cells[l + 1 := cells[l + 1].(next := order[n])];
    forall i | 0 <= i < n
      ensures Hops(to, order[i], order[i + 1]) && Holds(to, order[i], (q + [v])[i])
    {
      if i < n - 1 { assert Hops(cells, order[i], order[i + 1]); }
      assert Holds(cells, order[i], q[i]);
    }
  }

  /** Dropping the first value makes its unit the new dummy. */
  lemma ChainShrinks<T>(cells: seq<Cell<T>>, order: seq<int>, d: int, q: seq<T>)
    requires q != [] && Chain(cells, order, d, q)
    ensures Chain(cells, Rotate(order), order[0], q[1..])
  {
    var r := Rotate(order);
    forall i | 0 <= i < |q| - 1
      ensures Holds(cells, r[i], q[1..][i]) && r[i] == order[i + 1]
    {
    }
    forall i | 0 <= i < |q| - 2
      ensures Hops(cells, r[i], r[i + 1])
    {
      assert Hops(cells, order[i + 1], order[i + 2]);
    }
    if |q| > 1 { assert Hops(cells, order[0], order[1]); }
  }

  lemma MarksRotate<T>(cells: seq<Cell<T>>, order: seq<int>, hi: int)
    requires 1 <= hi <= |order| && Marks(cells, order, 1, hi)
    ensures Marks(cells, Rotate(order), 0, hi - 1)
  {
    forall i | 0 <= i < |order|
      ensures Marked(cells, Rotate(order)[i]) <==> 0 <= i < hi - 1
    {
      assert Marked(cells, order[0]) <==> 1 <= 0 < hi;
    }
  }

  lemma SlotOf(max: int, wTail: int)
    requires 1 <= max && 0 <= wTail <= max + 1
    ensures wTail % (max + 1) == if wTail == max + 1 then 0 else wTail
  {
  }

  lemma PushIdleKeeps<T>(s: State<T>, order: seq<int>, d: int, q: seq<T>)
    requires InvAt(s, order, d, q) && s.p.PIdle?
    ensures InvAt(Next(s, Push), order, d, q)
  {
  }

  lemma PushReadLenKeeps<T>(s: State<T>, order: seq<int>, d: int, q: seq<T>)
    requires InvAt(s, order, d, q) && s.p.PReadLen?
    ensures InvAt(Next(s, Push), order, d, q)
  {
  }

  lemma PushCasLenKeeps<T>(s: State<T>, order: seq<int>, d: int, q: seq<T>)
    requires InvAt(s, order, d, q) && s.p.PCasLen?
    ensures InvAt(Next(s, Push), order, d, q)
  {
  }

  lemma PushReadSlotKeeps<T>(s: State<T>, order: seq<int>, d: int, q: seq<T>)
    requires InvAt(s, order, d, q) && s.p.PReadSlot?
    ensures InvAt(Next(s, Push), order, d, q)
  {
    SlotOf(s.mem.max, s.mem.wTail);
  }

  lemma PushCasSlotKeeps<T>(s: State<T>, order: seq<int>, d: int, q: seq<T>)
    requires InvAt(s, order, d, q) && s.p.PCasSlot?
    ensures InvAt(Next(s, Push), order, d, q)
  {
  }

  lemma PushTestFlagKeeps<T>(s: State<T>, order: seq<int>, d: int, q: seq<T>)
    requires InvAt(s, order, d, q) && s.p.PTestFlag?
    ensures InvAt(Next(s, Push), order, d, q)
  {
  }

  lemma InitNextSparesList<T>(s: State<T>, order: seq<int>, d: int, q: seq<T>)
    requires InvAt(s, order, d, q) && s.p.PInitNext?
    ensures var cells := s.mem.Put(s.p.slot, s.mem.At(s.p.slot).(next := LIST_END)).cells;
      && Chain(cells, order, d, q)
      && Marks(cells, order, if s.c.CCount? then 1 else 0, |q|)
  {
    var m := s.mem;
    var c := m.At(s.p.slot).(next := LIST_END);
    ChainIgnores(m.cells, order, m.max, d, q, c);
    MarksIgnore(m.cells, order, if s.c.CCount? then 1 else 0, |q|, s.p.slot, c);
  }

  lemma PushInitNextKeeps<T>(s: State<T>, order: seq<int>, d: int, q: seq<T>)
    requires InvAt(s, order, d, q) && s.p.PInitNext?
    ensures InvAt(Next(s, Push), order, d, q)
  {
    InitNextSparesList(s, order, d, q);
  }

  lemma InitFlagSparesList<T>(s: State<T>, order: seq<int>, d: int, q: seq<T>)
    requires InvAt(s, order, d, q) && s.p.PInitFlag?
    ensures var cells := s.mem.Put(s.p.slot, s.mem.At(s.p.slot).(inUse := true)).cells;
      && Chain(cells, order, d, q)
      && Marks(cells, order, if s.c.CCount? then 1 else 0, |q| + 1)
  {
    ChainIgnoresMark(s.mem.cells, order, d, q, s.p.slot, true);
    MarkMoves(s.mem.cells, order, s.mem.max, |q|, true);
  }

  lemma PushInitFlagKeeps<T>(s: State<T>, order: seq<int>, d: int, q: seq<T>)
    requires InvAt(s, order, d, q) && s.p.PInitFlag?
    ensures InvAt(Next(s, Push), order, d, q)
  {
    InitFlagSparesList(s, order, d, q);
  }

  lemma PushCopyKeeps<T>(s: State<T>, order: seq<int>, d: int, q: seq<T>)
    requires InvAt(s, order, d, q) && s.p.PCopy?
    ensures InvAt(Next(s, Push), order, d, q)
  {
    CopySparesList(s, order, d, q);
  }

  lemma CopySparesList<T>(s: State<T>, order: seq<int>, d: int, q: seq<T>)
    requires InvAt(s, order, d, q) && s.p.PCopy?
    ensures var cells := s.mem.Put(s.p.slot, s.mem.At(s.p.slot).(data := s.p.v)).cells;
      && Chain(cells, order, d, q)
      && Marks(cells, order, if s.c.CCount? then 1 else 0, |q| + 1)
  {
    var m := s.mem;
    var c := m.At(s.p.slot).(data := s.p.v);
    ChainIgnores(m.cells, order, m.max, d, q, c);
    MarksIgnore(m.cells, order, if s.c.CCount? then 1 else 0, |q| + 1, s.p.slot, c);
  }

  lemma PushReadTailKeeps<T>(s: State<T>, order: seq<int>, d: int, q: seq<T>)
    requires InvAt(s, order, d, q) && s.p.PReadTail?
    ensures InvAt(Next(s, Push), order, d, q)
  {
  }

  lemma LinkExtendsList<T>(s: State<T>, order: seq<int>, d: int, q: seq<T>)
    requires InvAt(s, order, d, q) && s.p.PLink?
    ensures s.mem.At(s.p.cur).next == LIST_END && order[|q| + 1] == Wrap(s.mem.max, order[|q|])
    ensures var cells := s.mem.Put(s.p.cur, s.mem.At(s.p.cur).(next := s.p.slot)).cells;
      && Chain(cells, order, d, q + [s.p.v])
      && Marks(cells, order, if s.c.CCount? then 1 else 0, |q| + 1)
  {
    var m := s.mem;
    assert Follows(order, |q|);
    ChainGrows(m.cells, order, m.max, d, q, s.p.v);
    MarksIgnore(m.cells, order, if s.c.CCount? then 1 else 0, |q| + 1, s.p.cur, m.At(s.p.cur).(next := s.p.slot));
  }

  lemma PushLinkKeeps<T>(s: State<T>, order: seq<int>, d: int, q: seq<T>)
    requires InvAt(s, order, d, q) && s.p.PLink?
    ensures InvAt(Next(s, Push), order, d, q + [s.p.v])
  {
    LinkExtendsList(s, order, d, q);
    var s' := Next(s, Push);
    assert s'.p == PMoveTail(s.p.slot, s.p.oldTail) && s'.pushed == s.popped + (q + [s.p.v]);
  }

  lemma PushMoveTailKeeps<T>(s: State<T>, order: seq<int>, d: int, q: seq<T>)
    requires InvAt(s, order, d, q) && s.p.PMoveTail?
    ensures InvAt(Next(s, Push), order, d, q)
  {
  }

  lemma PushCountKeeps<T>(s: State<T>, order: seq<int>, d: int, q: seq<T>)
    requires InvAt(s, order, d, q) && s.p.PCount?
    ensures InvAt(Next(s, Push), order, d, q)
  {
  }

  lemma PopIdleKeeps<T>(s: State<T>, order: seq<int>, d: int, q: seq<T>)
    requires InvAt(s, order, d, q) && s.c.CIdle?
    ensures InvAt(Next(s, Pop), order, d, q)
  {
  }

  lemma PopReadLenKeeps<T>(s: State<T>, order: seq<int>, d: int, q: seq<T>)
    requires InvAt(s, order, d, q) && s.c.CReadLen?
    ensures InvAt(Next(s, Pop), order, d, q)
  {
  }

  lemma PopCasLenKeeps<T>(s: State<T>, order: seq<int>, d: int, q: seq<T>)
    requires InvAt(s, order, d, q) && s.c.CCasLen?
    ensures InvAt(Next(s, Pop), order, d, q)
  {
  }

  lemma PopReadHeadKeeps<T>(s: State<T>, order: seq<int>, d: int, q: seq<T>)
    requires InvAt(s, order, d, q) && s.c.CReadHead?
    ensures InvAt(Next(s, Pop), order, d, q)
  {
  }

  lemma PopReadNextKeeps<T>(s: State<T>, order: seq<int>, d: int, q: seq<T>)
    requires InvAt(s, order, d, q) && s.c.CReadNext?
    ensures InvAt(Next(s, Pop), order, d, q)
  {
  }

  lemma PopCasHeadKeeps<T>(s: State<T>, order: seq<int>, d: int, q: seq<T>)
    requires InvAt(s, order, d, q) && s.c.CCasHead?
    ensures InvAt(Next(s, Pop), order, d, q)
  {
  }

  lemma PopNextToCopyKeeps<T>(s: State<T>, order: seq<int>, d: int, q: seq<T>)
    requires InvAt(s, order, d, q) && s.c.CNextToCopy?
    ensures InvAt(Next(s, Pop), order, d, q)
  {
  }

  lemma PopNextToClearKeeps<T>(s: State<T>, order: seq<int>, d: int, q: seq<T>)
    requires InvAt(s, order, d, q) && s.c.CNextToClear?
    ensures InvAt(Next(s, Pop), order, d, q)
  {
  }

  lemma PopCopyKeeps<T>(s: State<T>, order: seq<int>, d: int, q: seq<T>)
    requires InvAt(s, order, d, q) && s.c.CCopy?
    ensures InvAt(Next(s, Pop), order, d, q)
  {
  }

  lemma PopClearKeeps<T>(s: State<T>, order: seq<int>, d: int, q: seq<T>)
    requires InvAt(s, order, d, q) && s.c.CClear?
    ensures InvAt(Next(s, Pop), order, d, q)
  {
    ClearSparesList(s, order, d, q);
  }

  lemma ClearSparesList<T>(s: State<T>, order: seq<int>, d: int, q: seq<T>)
    requires InvAt(s, order, d, q) && s.c.CClear?
    ensures s.c.succ == order[0]
    ensures var cells := s.mem.Put(order[0], s.mem.At(order[0]).(inUse := false)).cells;
      && Chain(cells, order, d, q)
      && Marks(cells, order, 1, |q| + (if s.p.FlagSet() then 1 else 0))
  {
    ChainIgnoresMark(s.mem.cells, order, d, q, order[0], false);
    MarkMoves(s.mem.cells, order, s.mem.max, 0, false);
  }

  lemma PopCountKeeps<T>(s: State<T>, order: seq<int>, d: int, q: seq<T>)
    requires InvAt(s, order, d, q) && s.c.CCount?
    ensures InvAt(Next(s, Pop), Rotate(order), order[0], q[1..])
  {
    RotateIsRing(order, s.mem.max);
    CountShrinksList(s, order, d, q);
    CountKeepsPopped(s, order, d, q);
  }

  lemma CountKeepsPopped<T>(s: State<T>, order: seq<int>, d: int, q: seq<T>)
    requires InvAt(s, order, d, q) && s.c.CCount?
    ensures var t := Next(s, Pop);
      t.pushed == t.popped + q[1..] && t.popped != [] && Rotate(order)[s.mem.max] == order[0] && s.mem.head == order[0]
  {
  }

  lemma CountShrinksList<T>(s: State<T>, order: seq<int>, d: int, q: seq<T>)
    requires InvAt(s, order, d, q) && s.c.CCount?
    ensures Chain(s.mem.cells, Rotate(order), order[0], q[1..])
    ensures Marks(s.mem.cells, Rotate(order), 0, |q| - 1 + (if s.p.FlagSet() then 1 else 0))
  {
    ChainShrinks(s.mem.cells, order, d, q);
    MarksRotate(s.mem.cells, order, |q| + (if s.p.FlagSet() then 1 else 0));
  }

  lemma ProducerKeeps<T>(s: State<T>, order: seq<int>, d: int, q: seq<T>) returns (q': seq<T>)
    requires InvAt(s, order, d, q)
    ensures InvAt(Next(s, Push), order, d, q')
    ensures q' == if s.p.PLink? then q + [s.p.v] else q
  {
    q' := q;
    match s.p {
      case PIdle => PushIdleKeeps(s, order, d, q);
      case PReadLen(_) => PushReadLenKeeps(s, order, d, q);
      case PCasLen(_, _) => PushCasLenKeeps(s, order, d, q);
      case PReadSlot(_) => PushReadSlotKeeps(s, order, d, q);
      case PCasSlot(_, _, _) => PushCasSlotKeeps(s, order, d, q);
      case PTestFlag(_, _) => PushTestFlagKeeps(s, order, d, q);
      case PInitNext(_, _) => PushInitNextKeeps(s, order, d, q);
      case PInitFlag(_, _) => PushInitFlagKeeps(s, order, d, q);
      case PCopy(_, _) => PushCopyKeeps(s, order, d, q);
      case PReadTail(_, _, _) => PushReadTailKeeps(s, order, d, q);
      case PWalk(_, _, _, _, _) => assert false;
      case PLink(v, _, _, _, _) => q' := q + [v]; PushLinkKeeps(s, order, d, q);
      case PMoveTail(_, _) => PushMoveTailKeeps(s, order, d, q);
      case PCount => PushCountKeeps(s, order, d, q);
    }
  }

  lemma ConsumerKeeps<T>(s: State<T>, order: seq<int>, d: int, q: seq<T>) returns (order': seq<int>, d': int,
        q': seq<T>)
    requires InvAt(s, order, d, q)
    ensures InvAt(Next(s, Pop), order', d', q')
    ensures if s.c.CCount? then q != [] && s.c.out == q[0] && q' == q[1..] && d' == order[0] && order' == Rotate(order)
            else q' == q && d' == d && order' == order
  {
    order', d', q' := order, d, q;
    match s.c {
      case CIdle => PopIdleKeeps(s, order, d, q);
      case CReadLen => PopReadLenKeeps(s, order, d, q);
      case CCasLen(_) => PopCasLenKeeps(s, order, d, q);
      case CReadHead => PopReadHeadKeeps(s, order, d, q);
      case CReadNext(_) => PopReadNextKeeps(s, order, d, q);
      case CCasHead(_, _) => PopCasHeadKeeps(s, order, d, q);
      case CNextToCopy(_) => PopNextToCopyKeeps(s, order, d, q);
      case CCopy(_, _) => PopCopyKeeps(s, order, d, q);
      case CNextToClear(_, _) => PopNextToClearKeeps(s, order, d, q);
      case CClear(_, _, _) => PopClearKeeps(s, order, d, q);
      case CCount(_) =>
        order', d', q' := Rotate(order), order[0], q[1..];
        PopCountKeeps(s, order, d, q);
    }
  }

  ghost predicate Inv<T(!new)>(s: State<T>)
  {
    exists order, d, q :: InvAt(s, order, d, q)
  }

  lemma BeginPushKeeps<T>(s: State<T>, v: T, order: seq<int>, d: int, q: seq<T>)
    requires InvAt(s, order, d, q)
    ensures InvAt(Next(s, BeginPush(v)), order, d, q)
  {
  }

  lemma BeginPopKeeps<T>(s: State<T>, order: seq<int>, d: int, q: seq<T>)
    requires InvAt(s, order, d, q)
    ensures InvAt(Next(s, BeginPop), order, d, q)
  {
  }

  lemma NextKeeps<T(!new)>(s: State<T>, a: Action<T>)
    requires Inv(s)
    ensures s.WellFormed() && Inv(Next(s, a))
  {
    var order, d, q :| InvAt(s, order, d, q);
    match a {
      case BeginPush(v) => BeginPushKeeps(s, v, order, d, q);
      case BeginPop => BeginPopKeeps(s, order, d, q);
      case Push => var q' := ProducerKeeps(s, order, d, q);
      case Pop => var order', d', q' := ConsumerKeeps(s, order, d, q);
    }
  }

  lemma {:induction false} RunKeeps<T(!new)>(s: State<T>, actions: seq<Action<T>>)
    requires Inv(s)
    ensures s.WellFormed() && Inv(Run(s, actions))
    decreases |actions|
  {
    if actions != [] {
      NextKeeps(s, actions[0]);
      RunKeeps(Next(s, actions[0]), actions[1..]);
    }
  }

  // ---------------------------------------------------------------- what every run guarantees

  /** Some run from a fresh queue leads here. */
  ghost predicate Reachable<T(!new)>(s: State<T>)
  {
    1 <= s.mem.max && exists zero, actions :: s == Run(Start(s.mem.max, zero), actions)
  }

  lemma {:induction false} RunSnoc<T>(s: State<T>, actions: seq<Action<T>>, a: Action<T>)
    requires s.WellFormed()
    ensures Run(s, actions + [a]) == Next(Run(s, actions), a)
    decreases |actions|
  {
    if actions == [] {
      assert Run(Next(s, a), []) == Next(s, a);
    } else {
      assert (actions + [a])[1..] == actions[1..] + [a];
      RunSnoc(Next(s, actions[0]), actions[1..], a);
    }
  }

  lemma ReachableNext<T(!new)>(s: State<T>, a: Action<T>)
    requires Reachable(s)
    ensures s.WellFormed() && Reachable(Next(s, a))
  {
    var zero, actions :| s == Run(Start(s.mem.max, zero), actions);
    RunSnoc(Start(s.mem.max, zero), actions, a);
  }

  lemma ReachableHolds<T(!new)>(s: State<T>)
    requires Reachable(s)
    ensures Inv(s)
  {
    var zero, actions :| s == Run(Start(s.mem.max, zero), actions);
    StartHolds(s.mem.max, zero);
    RunKeeps(Start(s.mem.max, zero), actions);
  }

  /** First in, first out, nothing lost or repeated, and at most `max` values outstanding, for any
      interleaving of one producer and one consumer. */
  lemma FifoOverEveryRun<T(!new)>(max: int, zero: T, actions: seq<Action<T>>)
    requires 1 <= max
    ensures var s := Run(Start(max, zero), actions);
      s.popped <= s.pushed && |s.pushed| - |s.popped| <= max
  {
    StartHolds(max, zero);
    RunKeeps(Start(max, zero), actions);
    var s := Run(Start(max, zero), actions);
    var order, d, q :| InvAt(s, order, d, q);
  }

  /** The unit `k` links after `from`. */
  ghost function Hop<T>(m: Memory<T>, from: int, k: nat): (i: int)
    requires m.WellFormed() && m.Offset(from)
    ensures m.Offset(i)
  {
    if k == 0 then from else m.At(Hop(m, from, k - 1)).next
  }

  lemma {:induction false} HopsAlong<T>(s: State<T>, order: seq<int>, d: int, q: seq<T>, k: nat)
    requires InvAt(s, order, d, q) && k <= |q|
    ensures Hop(s.mem, d, k) == Last(order, d, k)
  {
    if k > 0 {
      HopsAlong(s, order, d, q, k - 1);
      if k > 1 { assert Hops(s.mem.cells, order[k - 2], order[k - 1]); }
    }
  }

  /** The unit a push owns is no unit on the list, dummy included, and none that a pop is reading. */
  lemma OwnedSlotIsOffList<T>(s: State<T>, order: seq<int>, d: int, q: seq<T>, k: nat)
    requires InvAt(s, order, d, q) && s.p.SlotOwned()
    ensures k <= |q| ==> Hop(s.mem, d, k) != s.p.slot
    ensures s.c.CCount? && k < |q| ==> Hop(s.mem, order[0], k) != s.p.slot
  {
    if k <= |q| { HopsAlong(s, order, d, q, k); }
    if s.c.CCount? && k < |q| {
      HopsFrom(s.mem, d, order[0], k);
      HopsAlong(s, order, d, q, k + 1);
    }
  }

  /** The round-robin allocator never meets a unit that is still needed: the unit it hands out is not
      marked, is no unit on the list (dummy included), and is not the one a pop is reading.  So the
      retry on `use_flag` and the walk to the tail never happen, and the linking CAS succeeds. */
  lemma AllocatorIsSafe<T(!new)>(s: State<T>)
    requires Reachable(s)
    ensures s.WellFormed() && !s.p.PWalk?
    ensures s.p.PTestFlag? ==> !s.mem.At(s.p.slot).inUse
    ensures s.p.PLink? ==> s.mem.At(s.p.cur).next == LIST_END
    ensures s.p.SlotOwned() ==>
            var from := if s.c.Reading() then s.c.dummy else s.mem.head;
            var on := |s.pushed| - |s.popped| - (if s.c.CCount? then 1 else 0);
            forall k :: 0 <= k <= on ==> Hop(s.mem, from, k) != s.p.slot
  {
    ReachableHolds(s);
    var order, d, q :| InvAt(s, order, d, q);
    if s.p.SlotOwned() {
      if s.p.PTestFlag? { assert !Marked(s.mem.cells, order[|q|]); }
      forall k: nat
        ensures k <= |q| ==> Hop(s.mem, d, k) != s.p.slot
        ensures s.c.CCount? && k < |q| ==> Hop(s.mem, order[0], k) != s.p.slot
      {
        OwnedSlotIsOffList(s, order, d, q, k);
      }
    }
  }

  lemma {:induction false} HopsFrom<T>(m: Memory<T>, d: int, to: int, k: nat)
    requires m.WellFormed() && m.Offset(d) && m.At(d).next == to
    ensures Hop(m, to, k) == Hop(m, d, k + 1)
  {
    if k > 0 { HopsFrom(m, d, to, k - 1); }
  }

  /** Between pushes the two counters differ by exactly the pop in progress, if there is one. */
  lemma CountersBetweenPushes<T(!new)>(s: State<T>)
    requires Reachable(s) && s.p.PIdle?
    ensures s.mem.wLen == s.mem.rLen + (if s.c.InFlight() then 1 else 0)
  {
    ReachableHolds(s);
    var order, d, q :| InvAt(s, order, d, q);
  }

  /** While the producer is idle the consumer can only lower the length. */
  lemma ConsumerLowersLength<T>(s: State<T>, a: Action<T>)
    requires s.WellFormed() && s.p.PIdle? && (a.BeginPop? || a.Pop?)
    ensures var t := Next(s, a); t.p.PIdle? && t.mem.rLen <= s.mem.rLen
  {
  }

  /** A push that follows a check of the length below `max` can be refused only while a pop is in
      progress and every other unit is readable. */
  lemma {:induction false} RefusedOnlyDuringPop<T(!new)>(s: State<T>, actions: seq<Action<T>>)
    requires Reachable(s) && s.p.PIdle? && s.mem.rLen < s.mem.max
    requires forall a <- actions :: a.BeginPop? || a.Pop?
    ensures s.WellFormed()
    ensures var t := Run(s, actions);
      t.p.PIdle? && (t.mem.wLen >= t.mem.max ==> t.mem.rLen == t.mem.max - 1 && t.c.InFlight())
    decreases |actions|
  {
    if actions == [] {
      CountersBetweenPushes(s);
      ReachableHolds(s);
    } else {
      ReachableNext(s, actions[0]);
      ConsumerLowersLength(s, actions[0]);
      RefusedOnlyDuringPop(Next(s, actions[0]), actions[1..]);
    }
  }

  /** The consumer has seen a positive length, or is past the point where it could be refused. */
  ghost predicate Assured<T>(s: State<T>)
  {
    s.c.InFlight() || (0 < s.mem.rLen && (s.c.CReadLen? || s.c.CCasLen?))
  }

  /** An assured pop stays assured until it returns a value. */
  lemma AssuredStep<T>(s: State<T>, a: Action<T>)
    requires s.WellFormed() && Assured(s) && (s.c.CCasLen? ==> 0 < s.c.seen)
    ensures var t := Next(s, a);
      if s.c.CCount? && a.Pop? then |s.popped| < |t.popped|
      else Assured(t) && t.popped == s.popped && (t.c.CCasLen? ==> 0 < t.c.seen)
  {
  }

  /** A pop begun when the length was positive is never sent back empty-handed, whatever the producer
      does meanwhile. */
  lemma {:induction false} PopAfterCheckSucceeds<T>(s: State<T>, actions: seq<Action<T>>)
    requires s.WellFormed() && Assured(s) && (s.c.CCasLen? ==> 0 < s.c.seen)
    ensures var t := Run(s, actions); Assured(t) || |s.popped| < |t.popped|
    decreases |actions|
  {
    if actions != [] {
      AssuredStep(s, actions[0]);
      if s.c.CCount? && actions[0].Pop? {
        PoppedGrows(Next(s, actions[0]), actions[1..]);
      } else {
        PopAfterCheckSucceeds(Next(s, actions[0]), actions[1..]);
      }
    }
  }

  lemma {:induction false} PoppedGrows<T>(s: State<T>, actions: seq<Action<T>>)
    requires s.WellFormed()
    ensures s.popped <= Run(s, actions).popped && s.pushed <= Run(s, actions).pushed
    decreases |actions|
  {
    if actions != [] { PoppedGrows(Next(s, actions[0]), actions[1..]); }
  }
}

/** `list_get_at` without the bucket lock while `list_append` runs under it.  Each read and each write of
    the list is a step; nodes are named by their position in the chain, the head sentinel being -1. */
module ListRace {

  /** How far an append has come: which of its writes are done. */
  datatype Stage = Quiet | NextSet | PrevSet | Threaded | Linked | Counted

  /** The list's memory: `n` elements before the append in progress, which puts a node at position `n`. */
  datatype Mem = Mem(n: nat, stage: Stage)

  /** `numels`. */
  function Size(m: Mem): nat { if m.stage == Counted then m.n + 1 else m.n }

  /** Nodes that a walk from the head can meet. */
  function Chain(m: Mem): nat { if m.stage == Quiet then m.n else m.n + 1 }

  function Middle(n: int): int { (n - 1) / 2 }

  function NextStage(s: Stage): Stage
  {
    match s
    case Quiet => NextSet
    case NextSet => PrevSet
    case PrevSet => Threaded
    case Threaded => Linked
    case Linked => Counted
    case Counted => Quiet
  }

  /** The next write of the append; the last one moves the middle pointer where that is due. */
  function AppendStep(m: Mem): Mem { Mem(if m.stage == Counted then m.n + 1 else m.n, NextStage(m.stage)) }

  /** What a pointer may hold; `Stray` is a field not yet written. */
  datatype Place = Pos(k: int) | Tail | Stray | Null

  function NextOf(m: Mem, p: Place): Place
  {
    match p
    case Pos(k) =>
      if k < m.n - 1 then Pos(k + 1)
      else if k == m.n - 1 then (if m.stage == Quiet then Tail else Pos(m.n))
      else if m.stage == Quiet || m.stage == NextSet || m.stage == PrevSet then Stray else Tail
    case _ => Null
  }

  function PrevOf(m: Mem, p: Place): Place
  {
    match p
    case Pos(k) =>
      if k < 0 then Null
      else if k == m.n && (m.stage == Quiet || m.stage == NextSet) then Stray
      else Pos(k - 1)
    case Tail => Pos(if m.stage == Linked || m.stage == Counted then m.n else m.n - 1)
    case _ => Null
  }

  /** Where a lookup of index `i` stands; `seen` is the `numels` that chose the walk, `count` the index the
      walk believes to be at. */
  datatype Lookup<+P> =
    | Check(i: int)
    | Choose(i: int)
    | MidIndex(i: int, seen: int, back: bool)
    | MidNode(i: int, seen: int, count: int, back: bool)
    | TailIndex(i: int, seen: int)
    | Stride(i: int, seen: int, at: P, count: int, back: bool)
    | Found(i: int, seen: int, at: P)

  type Look = Lookup<Place>

  /** One access of `list_findpos`. */
  function LookStep(m: Mem, l: Look): Look
  {
    match l
    case Check(i) => if i < -1 || i > Size(m) then Found(i, 0, Null) else Choose(i)
    case Choose(i) =>
      var n := Size(m);
      if n != 0 && 4 * (i + 1) <= n then Stride(i, n, Pos(-1), -1, false)
      else if n != 0 && 2 * (i + 1) < n then MidIndex(i, n, true)
      else if n != 0 && 4 * (i + 1) <= 3 * n then MidIndex(i, n, false)
      else TailIndex(i, n)
    case MidIndex(i, seen, back) => MidNode(i, seen, Middle(Size(m)), back)
    case MidNode(i, seen, count, back) => Stride(i, seen, if m.n == 0 then Null else Pos(Middle(m.n)), count, back)
    case TailIndex(i, seen) => Stride(i, seen, Tail, Size(m), true)
    case Stride(i, seen, at, count, back) =>
      if back && count > i then Stride(i, seen, PrevOf(m, at), count - 1, back)
      else if !back && count < i then Stride(i, seen, NextOf(m, at), count + 1, back)
      else Found(i, seen, at)
    case Found(_, _, _) => l
  }

  /** Whatever is appended meanwhile, the lookup ends at a node of the chain no further left than one
      before the asked one; it ends at the head sentinel only if it asked for the first element and saw
      a length of three. */
  predicate Sound(m: Mem, l: Look)
  {
    match l
    case Check(i) => 0 <= i < Size(m)
    case Choose(i) => 0 <= i < Size(m)
    case MidIndex(i, seen, back) => 0 <= i < Size(m) && MidAsked(i, seen, back) && seen <= Size(m)
    case MidNode(i, seen, count, back) =>
      0 <= i < Size(m) && MidAsked(i, seen, back) && Middle(seen) <= count <= Middle(Size(m)) && seen <= Size(m)
    case TailIndex(i, seen) => 0 <= i < Size(m) && seen <= Size(m)
    case Stride(i, seen, at, count, back) =>
      0 <= i < Size(m) && seen <= Size(m)
          && (if at == Tail then back && i < count <= Size(m) else at.Pos? && WalkSound(m, i, seen, at.k, count, back))
    case Found(i, seen, at) =>
      0 <= i < Size(m) && seen <= Size(m) && at.Pos? && i - 1 <= at.k < Chain(m) && (at.k == -1 ==> i == 0 && seen == 3)
  }

  /** The walk from the middle was chosen. */
  predicate MidAsked(i: int, seen: int, back: bool)
  {
    seen < 4 * (i + 1) <= 3 * seen && (back <==> 2 * (i + 1) < seen)
  }

  predicate WalkSound(m: Mem, i: int, seen: int, k: int, count: int, back: bool)
  {
    if back then i <= count && count - 1 <= k && LinkedBack(m, k) && (k == count - 1 ==> MidAsked(i, seen, back))
    else if 4 * (i + 1) <= seen then -1 <= k == count <= i
    else MidAsked(i, seen, back) && count - 1 <= k && 0 <= k && k + (if count < i then i - count else 0) < m.n
  }

  /** Walking back from `k` meets only finished links. */
  predicate LinkedBack(m: Mem, k: int) { k < m.n || (k == m.n && (m.stage == Linked || m.stage == Counted)) }

  lemma WalkStepSound(m: Mem, l: Look)
    requires Sound(m, l) && l.Stride?
    ensures Sound(m, LookStep(m, l))
  {
  }

  lemma LookStepSound(m: Mem, l: Look)
    requires Sound(m, l)
    ensures Sound(m, LookStep(m, l))
  {
    if l.Stride? { WalkStepSound(m, l); }
  }

  lemma AppendStepSound(m: Mem, l: Look)
    requires Sound(m, l)
    ensures Sound(AppendStep(m), l)
  {
  }

  // ---------------------------------------------------------------- lookups that find what they ask for

  /** The lookup walks from the head, over links that no append writes. */
  predicate Steady(m: Mem, l: Look)
  {
    && 0 <= l.i < m.n
    && match l
       case Check(i) => 4 * (i + 1) <= Size(m)
       case Choose(i) => 4 * (i + 1) <= Size(m)
       case Stride(i, seen, at, count, back) => !back && -1 <= count <= i && at == Pos(count)
       case Found(i, _, at) => at == Pos(i)
       case _ => false
  }

  /** The node the walk believes to be at. */
  function Believed(m: Mem, count: int): Place { if count == m.n then Tail else Pos(count) }

  /** No append is in progress and the lookup is right so far. */
  predicate Exact(m: Mem, l: Look)
  {
    && m.stage == Quiet && 0 <= l.i < m.n
    && match l
       case Check(_) => true
       case Choose(_) => true
       case MidIndex(i, seen, back) => seen == m.n && MidAsked(i, seen, back)
       case MidNode(i, seen, count, back) => seen == m.n && MidAsked(i, seen, back) && count == Middle(m.n)
       case TailIndex(_, _) => true
       case Stride(i, _, at, count, back) => at == Believed(m, count)
           && (if back then i <= count <= m.n else -1 <= count <= i)
       case Found(i, _, at) => at == Pos(i)
  }

  /** Accesses a lookup on `n` elements has still to make, at most. */
  function Accesses(n: int, l: Look): int
  {
    match l
    case Check(_) => n + 6
    case Choose(_) => n + 5
    case MidIndex(_, _, _) => n + 4
    case TailIndex(_, _) => n + 4
    case MidNode(_, _, _, _) => n + 3
    case Stride(i, _, _, count, _) => 1 + if count > i then count - i else i - count
    case Found(_, _, _) => 0
  }

  lemma ExactStep(m: Mem, l: Look)
    requires Exact(m, l) && !l.Found?
    ensures Exact(m, LookStep(m, l)) && LookStep(m, l).i == l.i && Accesses(m.n, LookStep(m, l)) < Accesses(m.n, l)
  {
  }

  lemma AppendStepSteady(m: Mem, l: Look)
    requires Steady(m, l)
    ensures Steady(AppendStep(m), l)
  {
  }

  // ---------------------------------------------------------------- races

  datatype Race = Race(m: Mem, l: Look)

  /** `true` lets the append take a step, `false` the lookup. */
  function Turn(r: Race, append: bool): Race
  {
    if append then r.(m := AppendStep(r.m)) else r.(l := LookStep(r.m, r.l))
  }

  function Go(r: Race, schedule: seq<bool>): Race
    decreases |schedule|
  {
    if schedule == [] then r else Go(Turn(r, schedule[0]), schedule[1..])
  }

  /** In every interleaving the lookup of `i`, begun on `n` elements, finds element `i` if it ends. */
  ghost predicate AlwaysRight(n: nat, i: int)
  {
    forall schedule :: !WrongAfter(n, i, schedule)
  }

  predicate WrongAfter(n: nat, i: int, schedule: seq<bool>)
  {
    var l := Go(Race(Mem(n, Quiet), Check(i)), schedule).l;
    l.Found? && l.at != Pos(i)
  }

  lemma {:induction false} SteadyThroughout(r: Race, schedule: seq<bool>)
    requires Steady(r.m, r.l)
    ensures Steady(Go(r, schedule).m, Go(r, schedule).l) && Go(r, schedule).l.i == r.l.i
    decreases |schedule|
  {
    if schedule != [] {
      AppendStepSteady(r.m, r.l);
      SteadyStep(r.m, r.l);
      SteadyThroughout(Turn(r, schedule[0]), schedule[1..]);
    }
  }

  lemma SteadyStep(m: Mem, l: Look)
    requires Steady(m, l)
    ensures Steady(m, LookStep(m, l)) && LookStep(m, l).i == l.i
  {
  }

  lemma {:induction false} GoOn(r: Race, a: seq<bool>, b: seq<bool>)
    ensures Go(r, a + b) == Go(Go(r, a), b)
    decreases |a|
  {
    if a == [] {
      assert a + b == b;
    } else {
      assert (a + b)[1..] == a[1..] + b;
      GoOn(Turn(r, a[0]), a[1..], b);
    }
  }

  /** Writes of appends in a schedule. */
  function Writes(schedule: seq<bool>): nat
  {
    if schedule == [] then 0 else (if schedule[0] then 1 else 0) + Writes(schedule[1..])
  }

  lemma {:induction false} WritesOfSum(a: seq<bool>, b: seq<bool>)
    ensures Writes(a + b) == Writes(a) + Writes(b)
  {
    if a == [] {
      assert a + b == b;
    } else {
      assert (a + b)[1..] == a[1..] + b;
      WritesOfSum(a[1..], b);
    }
  }

  lemma {:induction false} WalksBack(r: Race) returns (schedule: seq<bool>)
    requires r.l.Stride? && r.l.back && r.l.i <= r.l.count && r.l.at.Pos? && LinkedBack(r.m, r.l.at.k)
    requires -1 <= r.l.at.k - (r.l.count - r.l.i)
    ensures var e := Go(r, schedule).l; e.Found? && e.at == Pos(r.l.at.k - (r.l.count - r.l.i)) && Writes(schedule) == 0
    decreases r.l.count - r.l.i
  {
    var next := Turn(r, false);
    if r.l.count == r.l.i {
      schedule := [false];
      assert Go(r, schedule) == Go(next, []) == next;
    } else {
      var rest := WalksBack(next);
      schedule := [false] + rest;
    }
  }

  lemma {:induction false} WalksOn(r: Race) returns (schedule: seq<bool>)
    requires r.l.Stride? && !r.l.back && r.l.at.Pos? && r.l.count <= r.l.i && r.l.at.k + (r.l.i - r.l.count) < r.m.n
    ensures var e := Go(r, schedule).l; e.Found? && e.at == Pos(r.l.at.k + (r.l.i - r.l.count)) && Writes(schedule) == 0
    decreases r.l.i - r.l.count
  {
    var next := Turn(r, false);
    if r.l.count == r.l.i {
      schedule := [false];
      assert Go(r, schedule) == Go(next, []) == next;
    } else {
      var rest := WalksOn(next);
      schedule := [false] + rest;
    }
  }

  /** The schedule of `k` whole appends. */
  function Appending(k: nat): (s: seq<bool>)
  {
    if k == 0 then [] else [true, true, true, true, true, true] + Appending(k - 1)
  }

  lemma {:induction false} Appends(r: Race, k: nat)
    requires r.m.stage == Quiet
    ensures Go(r, Appending(k)) == r.(m := Mem(r.m.n + k, Quiet))
    decreases k
  {
    if k > 0 {
      OneAppend(r);
      GoOn(r, [true, true, true, true, true, true], Appending(k - 1));
      Appends(r.(m := Mem(r.m.n + 1, Quiet)), k - 1);
    }
  }

  lemma {:induction false} WritesOfAppending(k: nat)
    ensures Writes(Appending(k)) == 6 * k
  {
    if k > 0 {
      WritesOfAppending(k - 1);
      WritesOfSum([true, true, true, true, true, true], Appending(k - 1));
    }
  }

  lemma Tail1(r: Race, append: bool, rest: seq<bool>)
    ensures Go(r, [append] + rest) == Go(Turn(r, append), rest)
  {
  }

  lemma ToLinked(r: Race)
    requires r.m.stage == Quiet
    ensures Go(r, [true, true, true, true]) == r.(m := Mem(r.m.n, Linked))
  {
    GoOn(r, [true, true], [true, true]);
  }

  lemma OneAppend(r: Race)
    requires r.m.stage == Quiet
    ensures Go(r, [true, true, true, true, true, true]) == r.(m := Mem(r.m.n + 1, Quiet))
  {
    ToLinked(r);
    GoOn(r, [true, true, true, true], [true, true]);
  }

  /** The first accesses of a lookup that nothing overtakes. */
  lemma Begins(n: nat, i: int)
    requires 0 <= i < n && n < 4 * (i + 1)
    ensures Go(Race(Mem(n, Quiet), Check(i)), [false, false, false])
         == Race(Mem(n, Quiet),
                 if 4 * (i + 1) <= 3 * n then MidNode(i, n, Middle(n), 2 * (i + 1) < n)
                 else Stride(i, n, Tail, n, true))
  {
    var r := Race(Mem(n, Quiet), Check(i));
    GoOn(r, [false, false], [false]);
  }

  /** A lookup from the tail that is overtaken by the link of a new last node finds the next element. */
  lemma TailOvertaken(n: nat, i: int) returns (schedule: seq<bool>)
    requires 0 <= i < n && 3 * n < 4 * (i + 1)
    ensures var l := Go(Race(Mem(n, Quiet), Check(i)), schedule).l; l.Found? && l.at == Pos(i + 1)
    ensures Writes(schedule) == 4
  {
    var r := Race(Mem(n, Quiet), Check(i));
    Begins(n, i);
    var begun := Race(Mem(n, Quiet), Stride(i, n, Tail, n, true));
    ToLinked(begun);
    var linked := begun.(m := Mem(n, Linked));
    var stepped := Turn(linked, false);
    var rest := WalksBack(stepped);
    Tail1(linked, false, rest);
    GoOn(begun, [true, true, true, true], [false] + rest);
    GoOn(r, [false, false, false], [true, true, true, true] + ([false] + rest));
    WritesOfSum([true, true, true, true], [false] + rest);
    WritesOfSum([false, false, false], [true, true, true, true] + ([false] + rest));
    schedule := [false, false, false] + ([true, true, true, true] + ([false] + rest));
  }

  /** A lookup from the middle that is overtaken by appends that move the middle finds the next element. */
  lemma MiddleOvertaken(n: nat, i: int) returns (schedule: seq<bool>)
    requires 0 <= i < n && n < 4 * (i + 1) <= 3 * n
    ensures var l := Go(Race(Mem(n, Quiet), Check(i)), schedule).l; l.Found? && l.at == Pos(i + 1)
    ensures n % 2 == 0 ==> Writes(schedule) == 6
  {
    var r := Race(Mem(n, Quiet), Check(i));
    Begins(n, i);
    var begun := Race(Mem(n, Quiet), MidNode(i, n, Middle(n), 2 * (i + 1) < n));
    var k := if n % 2 == 0 then 1 else 2;
    Appends(begun, k);
    var longer := begun.(m := Mem(n + k, Quiet));
    var stepped := Turn(longer, false);
    var rest;
    if 2 * (i + 1) < n { rest := WalksBack(stepped); } else { rest := WalksOn(stepped); }
    Tail1(longer, false, rest);
    GoOn(begun, Appending(k), [false] + rest);
    GoOn(r, [false, false, false], Appending(k) + ([false] + rest));
    WritesOfAppending(k);
    WritesOfSum(Appending(k), [false] + rest);
    WritesOfSum([false, false, false], Appending(k) + ([false] + rest));
    schedule := [false, false, false] + (Appending(k) + ([false] + rest));
  }

  /** An unlocked lookup finds the listed element in every interleaving with appends if and only if it walks
      from the head, that is, if the element is in the first quarter. */
  lemma AlwaysRightExactly(n: nat, i: int)
    requires 0 <= i < n
    ensures AlwaysRight(n, i) <==> 4 * (i + 1) <= n
  {
    if 4 * (i + 1) <= n {
      forall schedule ensures !WrongAfter(n, i, schedule) {
        SteadyThroughout(Race(Mem(n, Quiet), Check(i)), schedule);
      }
    } else {
      var schedule;
      if 4 * (i + 1) <= 3 * n { schedule := MiddleOvertaken(n, i); } else { schedule := TailOvertaken(n, i); }
      assert WrongAfter(n, i, schedule);
    }
  }

  // ---------------------------------------------------------------- one append

  /** Writes done of the append that began on `n` elements. */
  function Done(m: Mem, n: nat): nat
  {
    if m.n != n then 6 else
    match m.stage
    case Quiet => 0
    case NextSet => 1
    case PrevSet => 2
    case Threaded => 3
    case Linked => 4
    case Counted => 5
  }

  /** In every interleaving with one append the lookup of `i` finds element `i` if it ends. */
  ghost predicate OnceRight(n: nat, i: int)
  {
    forall schedule :: WrongAfter(n, i, schedule) ==> Writes(schedule) > 6
  }

  /** With an odd number of elements one append moves neither the middle nor any link that a lookup in the
      middle half reads. */
  predicate OddSteady(n: nat, m: Mem, l: Look)
  {
    && n % 2 == 1 && 0 <= l.i < n && 4 * (l.i + 1) <= 3 * n && (m.n == n || m == Mem(n + 1, Quiet))
    && match l
       case Check(_) => true
       case Choose(_) => true
       case MidIndex(i, _, back) => if back then i <= Middle(n) else Middle(n) <= i
       case MidNode(i, _, count, back) => count == Middle(n) && if back then i <= count else count <= i
       case TailIndex(_, _) => false
       case Stride(i, _, at, count, back) =>
         at == Pos(count) && -1 <= count < n && if back then i <= count else count <= i
       case Found(i, _, at) => at == Pos(i)
  }

  lemma OddStep(n: nat, m: Mem, l: Look)
    requires OddSteady(n, m, l)
    ensures OddSteady(n, m, LookStep(m, l)) && LookStep(m, l).i == l.i
  {
  }

  lemma {:induction false} OddThroughout(n: nat, r: Race, schedule: seq<bool>)
    requires OddSteady(n, r.m, r.l) && Done(r.m, n) + Writes(schedule) <= 6
    ensures var e := Go(r, schedule); OddSteady(n, e.m, e.l) && e.l.i == r.l.i
    decreases |schedule|
  {
    if schedule != [] {
      OddStep(n, r.m, r.l);
      OddThroughout(n, Turn(r, schedule[0]), schedule[1..]);
    }
  }

  /** An unlocked lookup that at most one append overtakes finds the listed element in every interleaving if and
      only if the element is in the first quarter, or the list is odd and the element not in the last quarter. */
  lemma OnceRightExactly(n: nat, i: int)
    requires 0 <= i < n
    ensures OnceRight(n, i) <==> 4 * (i + 1) <= (if n % 2 == 0 then n else 3 * n)
  {
    if 4 * (i + 1) <= n {
      AlwaysRightExactly(n, i);
    } else if n % 2 == 1 && 4 * (i + 1) <= 3 * n {
      forall schedule | Writes(schedule) <= 6 ensures !WrongAfter(n, i, schedule) {
        OddThroughout(n, Race(Mem(n, Quiet), Check(i)), schedule);
      }
    } else {
      var schedule;
      if 4 * (i + 1) <= 3 * n { schedule := MiddleOvertaken(n, i); } else { schedule := TailOvertaken(n, i); }
      assert WrongAfter(n, i, schedule) && Writes(schedule) <= 6;
    }
  }

  // ---------------------------------------------------------------- ending at the head sentinel

  /** In some interleaving the lookup of `i`, begun on `n` elements, ends at the head sentinel. */
  ghost predicate SentinelReached(n: nat, i: int)
  {
    exists schedule :: AtHead(n, i, schedule)
  }

  predicate AtHead(n: nat, i: int, schedule: seq<bool>)
  {
    var l := Go(Race(Mem(n, Quiet), Check(i)), schedule).l;
    l.Found? && l.at == Pos(-1)
  }

  /** The length seen is not below the one at the beginning. */
  predicate SeenSince(n: nat, r: Race)
  {
    n <= Size(r.m) && (r.l.Check? || r.l.Choose? || n <= r.l.seen)
  }

  lemma {:induction false} SoundThroughout(n: nat, r: Race, schedule: seq<bool>)
    requires Sound(r.m, r.l) && SeenSince(n, r)
    ensures var e := Go(r, schedule); Sound(e.m, e.l) && SeenSince(n, e) && e.l.i == r.l.i
    decreases |schedule|
  {
    if schedule != [] {
      LookStepSound(r.m, r.l);
      AppendStepSound(r.m, r.l);
      SoundThroughout(n, Turn(r, schedule[0]), schedule[1..]);
    }
  }

  /** From two elements: the third is counted before the lookup begins, and the middle moved after it. */
  lemma HeadFromTwo() returns (schedule: seq<bool>)
    ensures AtHead(2, 0, schedule)
  {
    var r := Race(Mem(2, Quiet), Check(0));
    var counted := Race(Mem(2, Counted), Check(0));
    ToLinked(r);
    GoOn(r, [true, true, true, true], [true]);
    assert Go(counted, [false, false, false]) == Race(Mem(2, Counted), MidNode(0, 3, 1, true));
    assert Go(Race(Mem(2, Counted), MidNode(0, 3, 1, true)), [false, false, false]).l == Found(0, 3, Pos(-1));
    GoOn(counted, [false, false, false], [false, false, false]);
    GoOn(r, [true, true, true, true] + [true], [false, false, false] + [false, false, false]);
    schedule := [true, true, true, true] + [true] + ([false, false, false] + [false, false, false]);
  }

  /** From three: the lookup sees them, and the fourth and fifth come before it reads the middle. */
  lemma HeadFromThree() returns (schedule: seq<bool>)
    ensures AtHead(3, 0, schedule)
  {
    var r := Race(Mem(3, Quiet), Check(0));
    var begun := Race(Mem(3, Quiet), MidIndex(0, 3, true));
    assert Go(r, [false, false]) == begun;
    var longer := begun.(m := Mem(4, Quiet));
    OneAppend(begun);
    ToLinked(longer);
    GoOn(longer, [true, true, true, true], [true]);
    var counted := begun.(m := Mem(4, Counted));
    var stepped := Race(Mem(4, Counted), Stride(0, 3, Pos(1), 2, true));
    assert Go(counted, [false, false]) == stepped;
    var rest := WalksBack(stepped);
    GoOn(counted, [false, false], rest);
    GoOn(longer, [true, true, true, true] + [true], [false, false] + rest);
    GoOn(begun, [true, true, true, true, true, true], [true, true, true, true] + [true] + ([false, false] + rest));
    var more := [true, true, true, true, true, true] + ([true, true, true, true] + [true] + ([false, false] + rest));
    GoOn(r, [false, false], more);
    schedule := [false, false] + more;
  }

  /** From one element: another is appended first. */
  lemma HeadFromOne() returns (schedule: seq<bool>)
    ensures AtHead(1, 0, schedule)
  {
    var rest := HeadFromTwo();
    OneAppend(Race(Mem(1, Quiet), Check(0)));
    GoOn(Race(Mem(1, Quiet), Check(0)), [true, true, true, true, true, true], rest);
    schedule := [true, true, true, true, true, true] + rest;
  }

  /** A lookup overtaken by appends can end at the head sentinel, whose data is NULL, if and only if it asks for
      the first element and began on at most three. */
  lemma SentinelExactly(n: nat, i: int)
    requires 0 <= i < n
    ensures SentinelReached(n, i) <==> i == 0 && n <= 3
  {
    if schedule :| AtHead(n, i, schedule) {
      SoundThroughout(n, Race(Mem(n, Quiet), Check(i)), schedule);
    }
    if i == 0 && n <= 3 {
      var schedule;
      if n == 1 { schedule := HeadFromOne(); }
      else if n == 2 { schedule := HeadFromTwo(); }
      else { schedule := HeadFromThree(); }
      assert AtHead(n, i, schedule);
    }
  }
}

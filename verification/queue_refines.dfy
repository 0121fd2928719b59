/** The lock-free queue seen as the frame queue of a stream node: every memory access either changes
    nothing that can be observed or is one of the atomic operations with which the life of a node is
    told, and the two ends are refused exactly when those operations are. */
module QueueRefines {
  import opened LfQueue
  import StreamLife

  /** Values linked and not yet returned. */
  function Waiting(s: State<nat>): seq<nat>
  {
    if |s.popped| <= |s.pushed| then s.pushed[|s.popped|..] else []
  }

  /** Of these, how many the read counter has been raised for. */
  function Shown(s: State<nat>): int { |Waiting(s)| - (if s.p.Linked() then 1 else 0) }

  function Reserved(s: State<nat>): int { if s.c.InFlight() then 1 else 0 }

  /** What the counters say there is, one frame in hand while a pop is in flight. */
  ghost predicate Readable(s: State<nat>)
  {
    && s.popped <= s.pushed && Reserved(s) <= Shown(s) && s.mem.rLen == Shown(s) - Reserved(s)
    && s.mem.wLen == |Waiting(s)| + (if s.p.Claimed() then 1 else 0) <= s.mem.max
    && (s.p.PCasLen? ==> s.p.seen < s.mem.max) && (s.c.CCasLen? ==> 0 < s.c.seen)
    && (s.c.CCount? ==> Waiting(s) != [] && s.c.out == Waiting(s)[0])
  }

  lemma ReachableReads(s: State<nat>)
    requires Reachable(s)
    ensures s.WellFormed() && Readable(s) && !s.p.PWalk?
  {
    ReachableHolds(s);
    var order, d, q :| InvAt(s, order, d, q);
    assert Waiting(s) == q;
  }

  /** The queue as the rest of the program sees it: a push counts when the read counter shows it, a pop
      has its frame from the moment it lowers that counter. */
  function View(s: State<nat>): StreamLife.Frames
    requires Reserved(s) <= Shown(s)
  {
    var q, k, n := Waiting(s), Reserved(s), Shown(s);
    StreamLife.Frames(q[k..n], s.c.InFlight(), q[..k], s.popped + q[..n], s.popped)
  }

  /** Nothing happened, or one frame was pushed, taken, or handed over. */
  predicate Observed(v: StreamLife.Frames, v': StreamLife.Frames, a: Action<nat>)
  {
    || v' == v
    || (a.Push? && StreamLife.PushFits(v) && v'.pushed != [] && v' == StreamLife.PushOne(v, v'.pushed[|v'.pushed| - 1]))
    || (a.Pop? && v.queue != [] && !v.popping && v' == StreamLife.PopOne(v))
    || (a.Pop? && v.popping && v' == StreamLife.ReleaseHeld(v.(popping := false)))
  }

  /** The read counter is raised: a frame is pushed. */
  lemma CountRefines(s: State<nat>)
    requires s.WellFormed() && Readable(s) && s.p.PCount? && s.mem.max == 512
    requires var t := Next(s, Action.Push); t.WellFormed() && Readable(t)
    ensures Observed(View(s), View(Next(s, Action.Push)), Action.Push)
  {
    var q, n := Waiting(s), Shown(s);
    assert q[..n + 1] == q[..n] + [q[n]];
    assert View(Next(s, Action.Push)) == StreamLife.PushOne(View(s), q[n]);
  }

  /** A unit is linked, which nobody sees yet. */
  lemma LinkRefines(s: State<nat>)
    requires s.WellFormed() && Readable(s) && s.p.PLink? && s.mem.max == 512
    requires var t := Next(s, Action.Push); t.WellFormed() && Readable(t)
    ensures Observed(View(s), View(Next(s, Action.Push)), Action.Push)
  {
    var t := Next(s, Action.Push);
    if t.p.PMoveTail? { assert Waiting(t) == Waiting(s) + [s.p.v]; }
    assert View(t) == View(s);
  }

  lemma PushRefines(s: State<nat>)
    requires s.WellFormed() && Readable(s) && !s.p.PWalk? && s.mem.max == 512
    requires var t := Next(s, Action.Push); t.WellFormed() && Readable(t)
    ensures Observed(View(s), View(Next(s, Action.Push)), Action.Push)
  {
    if s.p.PCount? {
      CountRefines(s);
    } else if s.p.PLink? {
      LinkRefines(s);
    } else {
      QuietPush(s);
    }
  }

  /** The other accesses of a push change nothing that is seen. */
  lemma QuietPush(s: State<nat>)
    requires s.WellFormed() && Readable(s) && !s.p.PWalk? && !s.p.PCount? && !s.p.PLink?
    requires var t := Next(s, Action.Push); t.WellFormed() && Readable(t)
    ensures View(Next(s, Action.Push)) == View(s)
  {
    assert Waiting(Next(s, Action.Push)) == Waiting(s);
  }

  /** A value is handed over. */
  lemma HandRefines(s: State<nat>)
    requires s.WellFormed() && Readable(s) && s.c.CCount? && s.mem.max == 512
    requires var t := Next(s, Action.Pop); t.WellFormed() && Readable(t)
    ensures Observed(View(s), View(Next(s, Action.Pop)), Action.Pop)
  {
    var t, q, n := Next(s, Action.Pop), Waiting(s), Shown(s);
    assert Waiting(t) == q[1..];
    HandOver(s.popped, q, n);
    assert View(t) == StreamLife.ReleaseHeld(View(s).(popping := false));
  }

  lemma HandOver(p: seq<nat>, q: seq<nat>, n: nat)
    requires 1 <= n <= |q|
    ensures p + q[..n] == (p + [q[0]]) + q[1..][..n - 1] && q[1..n] == q[1..][..n - 1] && q[..1] == [q[0]]
  {
  }

  /** The other accesses of a pop take a frame in hand or change nothing that is seen. */
  lemma QuietPop(s: State<nat>)
    requires s.WellFormed() && Readable(s) && !s.c.CCount?
    requires var t := Next(s, Action.Pop); t.WellFormed() && Readable(t)
    ensures Observed(View(s), View(Next(s, Action.Pop)), Action.Pop)
  {
    var t := Next(s, Action.Pop);
    assert Waiting(t) == Waiting(s);
    if s.c.CCasLen? && t.c.CReadHead? {
      assert View(t) == StreamLife.PopOne(View(s));
    } else {
      assert View(t) == View(s);
    }
  }

  lemma PopRefines(s: State<nat>)
    requires s.WellFormed() && Readable(s) && s.mem.max == 512
    requires var t := Next(s, Action.Pop); t.WellFormed() && Readable(t)
    ensures Observed(View(s), View(Next(s, Action.Pop)), Action.Pop)
  {
    if s.c.CCount? { HandRefines(s); } else { QuietPop(s); }
  }

  lemma BeginRefines(s: State<nat>, a: Action<nat>)
    requires s.WellFormed() && Readable(s) && (a.BeginPush? || a.BeginPop?)
    ensures Readable(Next(s, a)) && View(Next(s, a)) == View(s)
  {
  }

  lemma SplitAt(p: seq<nat>, q: seq<nat>, k: nat, n: nat)
    requires k <= n <= |q|
    ensures p + q[..k] + q[k..n] == p + q[..n]
  {
    assert q[..k] + q[k..n] == q[..n];
  }

  lemma ViewIsGood(s: State<nat>)
    requires s.WellFormed() && Readable(s) && s.mem.max == 512
    ensures StreamLife.FramesGood(View(s))
  {
    SplitAt(s.popped, Waiting(s), Reserved(s), Shown(s));
  }

  /** Every memory access of producer and consumer, in every run, refines the atomic frame queue. */
  lemma EveryStepRefines(s: State<nat>, a: Action<nat>)
    requires Reachable(s) && s.mem.max == 512
    ensures s.WellFormed() && Readable(s) && Readable(Next(s, a)) && StreamLife.FramesGood(View(s))
    ensures Observed(View(s), View(Next(s, a)), a)
  {
    ReachableReads(s);
    ReachableNext(s, a);
    ReachableReads(Next(s, a));
    ViewIsGood(s);
    if a.Push? { PushRefines(s); } else if a.Pop? { PopRefines(s); } else { BeginRefines(s, a); }
  }

  /** A push is sent back exactly when the atomic one does not fit, and a pop exactly when there is
      nothing to take. */
  lemma RefusalsAgree(s: State<nat>)
    requires Reachable(s) && s.mem.max == 512
    ensures s.WellFormed() && Readable(s)
    ensures s.p.PReadLen? ==> (Next(s, Action.Push).p.PIdle? <==> !StreamLife.PushFits(View(s)))
    ensures s.c.CReadLen? ==> (Next(s, Action.Pop).c.CIdle? <==> View(s).queue == [])
  {
    ReachableReads(s);
  }
}

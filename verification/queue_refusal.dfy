/** When a push that follows a length check is refused: the caller's check and the queue's own do not
    read the same counter. */
module QueueRefusal {
  import opened LfQueue
  import opened LfQueueObject

  /** The producer has just read the length `l` in a run of a queue of `max` units. */
  ghost predicate Checked(s: State<nat>, max: int, l: int)
  {
    Reachable(s) && s.mem.max == max && s.p.PIdle? && s.mem.rLen == l
  }

  /** A push begun now is sent back. */
  predicate Refuses(s: State<nat>)
    requires s.WellFormed()
  {
    s.p.PIdle? && Next(Next(s, BeginPush(0)), Push).p.PIdle?
  }

  /** Only the consumer has acted. */
  predicate ConsumerOnly(actions: seq<Action<nat>>)
  {
    forall i :: 0 <= i < |actions| ==> actions[i].BeginPop? || actions[i].Pop?
  }

  /** After the length `l` was read, and whatever the consumer did then, a push is refused. */
  ghost predicate RefusedAfter(s: State<nat>, actions: seq<Action<nat>>, max: int, l: int)
  {
    Checked(s, max, l) && ConsumerOnly(actions) && s.WellFormed() && Refuses(Run(s, actions))
  }

  lemma RefusedHasOneInFlight(s: State<nat>, actions: seq<Action<nat>>, max: int, l: int)
    requires RefusedAfter(s, actions, max, l) && l < max
    ensures l == max - 1
  {
    assert forall a <- actions :: a.BeginPop? || a.Pop?;
    RefusedOnlyDuringPop(s, actions);
    LengthOnlyFalls(s, actions);
  }

  lemma {:induction false} LengthOnlyFalls(s: State<nat>, actions: seq<Action<nat>>)
    requires s.WellFormed() && s.p.PIdle? && ConsumerOnly(actions)
    ensures Run(s, actions).mem.rLen <= s.mem.rLen
    decreases |actions|
  {
    if actions != [] {
      ConsumerLowersLength(s, actions[0]);
      LengthOnlyFalls(Next(s, actions[0]), actions[1..]);
    }
  }

  // ---------------------------------------------------------------- a run in which it happens

  /** One undisturbed push. */
  lemma OnePush(s: State<nat>, v: nat) returns (t: State<nat>)
    requires Reachable(s) && s.p.PIdle? && s.c.CIdle? && s.mem.rLen < s.mem.max
    ensures Reachable(t) && t.p.PIdle? && t.c.CIdle? && t.mem.max == s.mem.max
    ensures t.pushed == s.pushed + [v] && t.popped == s.popped
  {
    QuietLengths(s);
    ReachableNext(s, BeginPush(v));
    t := Next(s, BeginPush(v));
    ReachableNext(t, Push);
    t := Next(t, Push);
    while !t.p.PIdle?
      invariant Reachable(t) && t.c.CIdle? && t.mem.max == s.mem.max && t.popped == s.popped
      invariant !t.p.PReadLen? && (t.p.PCasLen? ==> t.p.seen == t.mem.wLen)
      invariant t.pushed == if t.p.Linked() || t.p.PIdle? then s.pushed + [v] else s.pushed
      invariant t.p.Linked() || t.p.PIdle? || Carries(t.p, v)
      decreases Rank(t.p)
    {
      ReachableNext(t, Push);
      SoloStep(t, v);
      t := Next(t, Push);
    }
  }

  lemma {:induction false} Filled(max: int, k: nat) returns (s: State<nat>)
    requires 1 <= max && k <= max
    ensures Reachable(s) && s.mem.max == max && s.p.PIdle? && s.c.CIdle? && s.mem.rLen == k
  {
    if k == 0 {
      var zero: nat, none: seq<Action<nat>> := 0, [];
      s := Start(max, zero);
      assert s == Run(Start(s.mem.max, zero), none);
    } else {
      var before := Filled(max, k - 1);
      QuietLengths(before);
      s := OnePush(before, 0);
      QuietLengths(s);
    }
  }

  /** The first steps of an undisturbed pop, up to the lowering of the read counter. */
  function Taking(s: State<nat>): State<nat>
    requires s.WellFormed()
  {
    Next(Next(Next(s, BeginPop), Pop), Pop)
  }

  lemma TakingIsReachable(s: State<nat>)
    requires Reachable(s)
    ensures s.WellFormed() && Reachable(Taking(s))
  {
    ReachableNext(s, BeginPop);
    ReachableNext(Next(s, BeginPop), Pop);
    ReachableNext(Next(Next(s, BeginPop), Pop), Pop);
  }

  lemma TakingLowersOneCounter(s: State<nat>)
    requires s.WellFormed() && s.p.PIdle? && s.c.CIdle? && 0 < s.mem.rLen
    ensures var t := Taking(s);
      t.p.PIdle? && t.mem.rLen == s.mem.rLen - 1 && t.mem.wLen == s.mem.wLen && t.mem.max == s.mem.max
  {
  }

  /** A full queue with one pop in flight. */
  lemma FullButOne(max: int) returns (s: State<nat>)
    requires 1 <= max
    ensures Checked(s, max, max - 1) && s.WellFormed() && Refuses(s)
  {
    var full := Filled(max, max);
    QuietLengths(full);
    TakingIsReachable(full);
    TakingLowersOneCounter(full);
    s := Taking(full);
  }

  /** A push after a length below the maximum was read can be refused if and only if that length was the
      maximum less one.  So a caller that asks for one unit more to be free is never refused. */
  lemma RefusalExactly(max: int, l: int)
    requires 1 <= max && 0 <= l < max
    ensures (exists s, actions :: RefusedAfter(s, actions, max, l)) <==> l == max - 1
  {
    if l == max - 1 {
      var s := FullButOne(max);
      assert Run(s, []) == s;
      assert RefusedAfter(s, [], max, l);
    }
    if s, actions :| RefusedAfter(s, actions, max, l) {
      RefusedHasOneInFlight(s, actions, max, l);
    }
  }
}

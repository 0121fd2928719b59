/** What each callback of the event loop does to the table when no task steps in between: which clients are listed
    and flagged, which frames are queued, and what becomes of the node. */
module StreamEffects {
  import opened ListRace
  import opened StreamLife
  import opened StreamSystem

  /** `k` steps of the event loop. */
  function Loops(s: State, k: nat, b: bool, x: nat): State
    decreases k
  {
    if k == 0 then s else Loops(Next(s, LoopGo(b, x)), k - 1, b, x)
  }

  /** Left alone, the event loop comes from `s` to `t`. */
  ghost predicate LoopsTo(s: State, t: State, b: bool, x: nat) { exists k: nat :: Loops(s, k, b, x) == t }

  lemma {:induction false} LoopsSnoc(s: State, k: nat, b: bool, x: nat)
    ensures Loops(s, k + 1, b, x) == Next(Loops(s, k, b, x), LoopGo(b, x))
    decreases k
  {
    if k > 0 { LoopsSnoc(Next(s, LoopGo(b, x)), k - 1, b, x); }
  }

  lemma LoopsFurther(s: State, t: State, b: bool, x: nat)
    requires LoopsTo(s, t, b, x)
    ensures LoopsTo(s, Next(t, LoopGo(b, x)), b, x)
  {
    var k: nat :| Loops(s, k, b, x) == t;
    LoopsSnoc(s, k, b, x);
    assert Loops(s, k + 1, b, x) == Next(t, LoopGo(b, x));
  }

  /** Of the locks only that of this bucket may have another owner than before. */
  ghost predicate OnlyLock(s0: State, s: State, bucket: nat, owner: Owner)
  {
    && OwnerOf(s.locks, bucket) == owner
    && forall other: nat :: other != bucket ==> OwnerOf(s.locks, other) == OwnerOf(s0.locks, other)
  }

  /** `s` is `s0` but for node `n`, its lock and where the event loop is. */
  ghost predicate Like(s0: State, s: State, n: nat, node: Node, owner: Owner, loop: Loop)
  {
    && n < |s0.nodes| && s.nodes == s0.nodes[n := node] && node.key == s0.nodes[n].key
    && s.loop == loop && !s.fault && OnlyLock(s0, s, node.key.bucket, owner)
  }

  function Owned(owner: Owner, op: LockOp, who: Owner): Owner
  {
    if op == Take then who else if op == Release then Nobody else owner
  }

  /** Left alone, the event loop comes to `at` on node `n`, which then is `node`, all others being as in `s0`. */
  ghost predicate Comes(s0: State, begun: State, n: nat, node: Node, owner: Owner, at: At, b: bool, x: nat)
  {
    exists s :: LoopsTo(begun, s, b, x) && Like(s0, s, n, node, owner, AtNode(n, at))
  }

  /** A step of the event loop on node `n`. */
  lemma Goes(s0: State, begun: State, n: nat, node: Node, owner: Owner, at: At, b: bool, x: nat)
    requires Comes(s0, begun, n, node, owner, at, b, x) && at != Away
    requires var t := LoopOn(node, at, owner == Nobody, b, x); t.ok && t.node.key == node.key
    ensures var t := LoopOn(node, at, owner == Nobody, b, x);
      Comes(s0, begun, n, t.node, Owned(owner, t.lock, EventLoop), t.at, b, x)
  {
    var s :| LoopsTo(begun, s, b, x) && Like(s0, s, n, node, owner, AtNode(n, at));
    var t := LoopOn(node, at, owner == Nobody, b, x);
    LoopsFurther(begun, s, b, x);
    LoopLike(s0, s, n, node, owner, at, b, x);
  }

  /** The same for the steps of PLAY and STOP, which have the lock. */
  lemma Serves(s0: State, begun: State, n: nat, node: Node, at: At, b: bool)
    requires Comes(s0, begun, n, node, EventLoop, at, b, 0) && Serving(at)
    requires var t := ServeOn(node, at, b); t.ok && t.node.key == node.key
    ensures var t := ServeOn(node, at, b);
      Comes(s0, begun, n, t.node, if t.lock == Release then Nobody else EventLoop, t.at, b, 0)
  {
    Goes(s0, begun, n, node, EventLoop, at, b, 0);
  }

  lemma LoopLike(s0: State, s: State, n: nat, node: Node, owner: Owner, at: At, b: bool, x: nat)
    requires Like(s0, s, n, node, owner, On(n, at))
    requires var t := LoopOn(node, at, owner == Nobody, b, x); t.ok && t.node.key == node.key
    ensures var t := LoopOn(node, at, owner == Nobody, b, x);
      Like(s0, Next(s, LoopGo(b, x)), n, t.node, Owned(owner, t.lock, EventLoop), AtNode(n, t.at))
  {
  }

  /** Between callbacks, the lock of this bucket free. */
  predicate Calm(s: State, bucket: nat) { !s.fault && s.loop == Idle && OwnerOf(s.locks, bucket) == Nobody }

  /** The callback has ended: only the nodes differ from what they were. */
  ghost predicate Over(s: State, t: State)
  {
    t.loop == Idle && !t.fault && forall bucket: nat :: OwnerOf(t.locks, bucket) == OwnerOf(s.locks, bucket)
  }

  /** The end of a callback on node `n`. */
  lemma Ends(s0: State, begun: State, n: nat, node: Node, b: bool, x: nat) returns (t: State)
    requires Comes(s0, begun, n, node, Nobody, Away, b, x) && OwnerOf(s0.locks, node.key.bucket) == Nobody
    ensures LoopsTo(begun, t, b, x) && Over(s0, t) && n < |s0.nodes| && t.nodes == s0.nodes[n := node]
  {
    t :| LoopsTo(begun, t, b, x) && Like(s0, t, n, node, Nobody, AtNode(n, Away));
  }

  /** What every reachable state says of a node that is listed. */
  lemma ListedIsLive(s: State, n: nat)
    requires Inv(s) && n < |s.nodes| && s.loop == Idle
    ensures s.nodes[n].listed ==> !s.nodes[n].freed
    ensures AllLive(s.nodes[n].clients) && s.nodes[n].clients.stage == Quiet
  {
    assert NodeGood(s.nodes[n], n, s.loop, s.locks);
    GoodIsLive(s.nodes[n].clients, Hand(s.nodes[n].task));
  }

  // ---------------------------------------------------------------- STOP

  /** The search for the node of a request. */
  lemma Seeks(s: State, key: Key, play: bool, known: bool, c: nat, b: bool, x: nat) returns (q: State)
    requires Inv(s) && Calm(s, key.bucket)
    ensures LoopsTo(s.(loop := Seek(key, play, known, c, LockBucket)), q, b, x)
    ensures !q.fault && OnlyLock(s, q, key.bucket, EventLoop)
    ensures var k := Find(s.nodes, key, 0);
      && (k < |s.nodes| ==>
            q.nodes == s.nodes && q.loop == On(k, Request(Seek(key, play, known, c, FindNode), s.nodes[k])))
      && (k == |s.nodes| && !play ==> q.nodes == s.nodes && q.loop == Seek(key, play, known, c, UnlockBucket))
      && (k == |s.nodes| && play ==> q.nodes == s.nodes + [NewNode(key)] && q.loop == On(k, AddClient(false)))
  {
    var q0 := s.(loop := Seek(key, play, known, c, LockBucket));
    var q1 := Next(q0, LoopGo(b, x));
    q := Next(q1, LoopGo(b, x));
    assert Loops(q0, 0, b, x) == q0;
    LoopsFurther(q0, q0, b, x);
    LoopsFurther(q0, q1, b, x);
    assert q1.nodes == s.nodes && q1.loop == Seek(key, play, known, c, FindNode);
    SearchIsSafe(s, key.bucket);
    var k := Find(s.nodes, key, 0);
    if k < |s.nodes| { ListedIsLive(s, k); }
  }

  /** The node found is the only one listed with the key. */
  lemma OnlyOne(s: State, key: Key)
    requires Inv(s)
    ensures var n := Find(s.nodes, key, 0);
      forall m :: 0 <= m < |s.nodes| ==> (s.nodes[m].listed && s.nodes[m].key == key <==> m == n)
  {
  }

  /** STOP flags the client it names in the listed node of the key, if that lists it, and changes nothing else. */
  lemma StopEffect(s: State, key: Key, c: nat) returns (t: State)
    requires Inv(s) && Calm(s, key.bucket)
    ensures LoopsTo(Next(s, Begin(Stop(key, c))), t, false, 0) && Over(s, t) && |t.nodes| == |s.nodes|
    ensures forall m :: 0 <= m < |s.nodes| ==>
      t.nodes[m] == if s.nodes[m].listed && s.nodes[m].key == key && c in s.nodes[m].clients.list then
                      s.nodes[m].(clients := s.nodes[m].clients.(flagged := s.nodes[m].clients.flagged + {c}))
                    else s.nodes[m]
  {
    var begun, n := Next(s, Begin(Stop(key, c))), Find(s.nodes, key, 0);
    var q := Seeks(s, key, false, false, c, false, 0);
    OnlyOne(s, key);
    if n == |s.nodes| {
      LoopsFurther(begun, q, false, 0);
      t := Next(q, LoopGo(false, 0));
    } else {
      t := StopsOn(s, begun, n, c, q);
    }
  }

  lemma StopsOn(s: State, begun: State, n: nat, c: nat, q: State) returns (t: State)
    requires Inv(s) && n < |s.nodes| && s.nodes[n].listed && Calm(s, s.nodes[n].key.bucket)
    requires LoopsTo(begun, q, false, 0) && !q.fault && OnlyLock(s, q, s.nodes[n].key.bucket, EventLoop)
    requires q.nodes == s.nodes && q.loop == On(n, if c in s.nodes[n].clients.list then Flag(c) else Unlock)
    ensures LoopsTo(begun, t, false, 0) && Over(s, t)
    ensures var cs := s.nodes[n].clients;
      t.nodes == s.nodes[n := s.nodes[n].(clients :=
        if c in cs.list then cs.(flagged := cs.flagged + {c}) else cs)]
  {
    var node := s.nodes[n];
    ListedIsLive(s, n);
    assert s.nodes[n := node] == s.nodes;
    if c in node.clients.list {
      assert Comes(s, begun, n, node, EventLoop, Flag(c), false, 0);
      Goes(s, begun, n, node, EventLoop, Flag(c), false, 0);
      node := node.(clients := node.clients.(flagged := node.clients.flagged + {c}));
    } else {
      assert Comes(s, begun, n, node, EventLoop, Unlock, false, 0);
    }
    Goes(s, begun, n, node, EventLoop, Unlock, false, 0);
    t := Ends(s, begun, n, node, false, 0);
  }

  // ---------------------------------------------------------------- PLAY

  /** A new client, numbered on, behind all others, and the connection made if there is none yet and it can be. */
  function Played(node: Node, add: bool, b: bool): Node
  {
    var cs := node.clients;
    node.(clients := if add then Clients(cs.list + [cs.born], Quiet, cs.flagged, cs.born + 1, cs.gone) else cs,
          conn := if node.conn == Unconnected && b then Connecting else node.conn)
  }

  /** PLAY from the point where the node is found or made. */
  lemma PlaysOn(s0: State, begun: State, n: nat, node: Node, known: bool, b: bool) returns (t: State)
    requires Comes(s0, begun, n, node, EventLoop, AddClient(known), b, 0)
    requires OwnerOf(s0.locks, node.key.bucket) == Nobody
    requires !node.freed && AllLive(node.clients) && node.clients.stage == Quiet
    ensures LoopsTo(begun, t, b, 0) && Over(s0, t) && n < |s0.nodes|
    ensures t.nodes == s0.nodes[n := Played(node, !known, b)]
  {
    Serves(s0, begun, n, node, AddClient(known), b);
    if known {
      ConnectsOn(s0, begun, n, node, b);
    } else {
      AppendsAll(s0, begun, n, node, b);
      ConnectsOn(s0, begun, n, node.(clients := AddOne(node.clients)), b);
      PlayedAdds(node, b);
    }
    t := Ends(s0, begun, n, Played(node, !known, b), b, 0);
  }

  lemma PlayedAdds(node: Node, b: bool)
    requires node.clients.stage == Quiet
    ensures Played(node.(clients := AddOne(node.clients)), false, b) == Played(node, true, b)
  {
  }

  lemma ConnectsOn(s0: State, begun: State, n: nat, node: Node, b: bool)
    requires Comes(s0, begun, n, node, EventLoop, Connect, b, 0) && !node.freed && node.clients.stage == Quiet
    ensures Comes(s0, begun, n, Played(node, false, b), Nobody, Away, b, 0)
  {
    Serves(s0, begun, n, node, Connect, b);
    Serves(s0, begun, n, Played(node, false, b), Unlock, b);
  }

  lemma AppendsAll(s0: State, begun: State, n: nat, node: Node, b: bool)
    requires Comes(s0, begun, n, node, EventLoop, Append, b, 0) && !node.freed && node.clients.stage == Quiet
    ensures Comes(s0, begun, n, node.(clients := AddOne(node.clients)), EventLoop, Connect, b, 0)
  {
    var cs := AddOne(node.clients);
    Serves(s0, begun, n, node, Append, b);
    Serves(s0, begun, n, node.(clients := cs.(stage := NextSet)), Append, b);
    Serves(s0, begun, n, node.(clients := cs.(stage := PrevSet)), Append, b);
    Serves(s0, begun, n, node.(clients := cs.(stage := Threaded)), Append, b);
    Serves(s0, begun, n, node.(clients := cs.(stage := ListRace.Linked)), Append, b);
    Serves(s0, begun, n, node.(clients := cs.(stage := Counted)), Append, b);
    assert cs.(stage := Quiet) == cs;
  }

  /** PLAY of a stream that is there appends the client unless its Call-ID is known, and changes no other node. */
  lemma PlayEffect(s: State, n: nat, known: bool, b: bool) returns (t: State)
    requires Inv(s) && n < |s.nodes| && s.nodes[n].listed && Calm(s, s.nodes[n].key.bucket)
    ensures LoopsTo(Next(s, Begin(Play(s.nodes[n].key, known))), t, b, 0) && Over(s, t)
    ensures t.nodes == s.nodes[n := Played(s.nodes[n], !known, b)]
  {
    var key := s.nodes[n].key;
    var begun := Next(s, Begin(Play(key, known)));
    var q := Seeks(s, key, true, known, 0, b, 0);
    OnlyOne(s, key);
    ListedIsLive(s, n);
    assert s.nodes[n := s.nodes[n]] == s.nodes;
    assert Comes(s, begun, n, s.nodes[n], EventLoop, AddClient(known), b, 0);
    t := PlaysOn(s, begun, n, s.nodes[n], known, b);
  }

  /** PLAY of another stream makes a node for it with this one client. */
  lemma FirstPlayEffect(s: State, key: Key, known: bool, b: bool) returns (t: State)
    requires Inv(s) && Calm(s, key.bucket)
    requires forall m :: 0 <= m < |s.nodes| && s.nodes[m].listed ==> s.nodes[m].key != key
    ensures LoopsTo(Next(s, Begin(Play(key, known))), t, b, 0) && Over(s, t)
    ensures t.nodes == s.nodes + [Node(key, true, false, if b then Connecting else Unconnected, 0, 0,
                                       Clients([0], Quiet, {}, 1, {}), Frames([], false, [], [], []), Unborn)]
  {
    var begun := Next(s, Begin(Play(key, known)));
    var q := Seeks(s, key, true, known, 0, b, 0);
    var n, node := |s.nodes|, NewNode(key);
    var s0 := s.(nodes := s.nodes + [node]);
    assert s0.nodes[n := node] == s0.nodes;
    assert Comes(s0, begun, n, node, EventLoop, AddClient(false), b, 0);
    t := PlaysOn(s0, begun, n, node, false, b);
    assert s0.nodes[n := Played(node, true, b)] == s.nodes + [Played(node, true, b)];
    assert node.clients.list + [0] == [0];
  }

  // ---------------------------------------------------------------- frames

  /** The node is torn down: out of the table, all its clients and frames freed, and then itself. */
  function Freed(node: Node): Node
  {
    var cs, f := node.clients, node.frames;
    node.(conn := Closed, listed := false, freed := true,
          clients := cs.(gone := cs.gone + (set c | c in cs.list), list := []),
          frames := f.(released := f.released + f.queue, queue := []))
  }

  /** The connection is given up; the node is left to the send task if there is one. */
  function GivenUp(node: Node): Node
  {
    if node.s == 0 then Freed(node) else node.(conn := Closed, g := 2)
  }

  /** A frame: with nobody to send to, or the send task finished, the connection is given up; the first key frame
      starts the send task; from then on media frames are queued, up to 512. */
  function Framed(node: Node, isKey: bool, media: bool, x: nat): Node
  {
    var f := node.frames;
    if |node.clients.list| == 0 || node.s == 2 then GivenUp(node)
    else if node.s == 0 && !isKey then node
    else
      var on := if node.s == 0 then node.(s := 1, task := Ready) else node;
      if !media then on
      else if |f.queue| >= 512 then on.(conn := Closed, g := 2)
      else if |f.queue| + (if f.popping then 1 else 0) < 512 then
        on.(frames := f.(queue := f.queue + [x], pushed := f.pushed + [x]))
      else on
  }

  /** What is known of a node between callbacks. */
  predicate Settled(node: Node)
  {
    && !node.freed && AllLive(node.clients) && node.clients.stage == Quiet && node.s <= 2
    && (node.s == 0 ==> node.frames.queue == [])
  }

  lemma IsSettled(s: State, n: nat)
    requires Inv(s) && n < |s.nodes| && s.loop == Idle && s.nodes[n].conn != Closed
    ensures Settled(s.nodes[n])
  {
    assert NodeGood(s.nodes[n], n, s.loop, s.locks);
    GoodIsLive(s.nodes[n].clients, Hand(s.nodes[n].task));
    if s.nodes[n].s == 0 { assert s.nodes[n].frames.queue == []; }
  }

  lemma Frames1(s0: State, begun: State, n: nat, node: Node, at: At, x: nat)
    requires Comes(s0, begun, n, node, Nobody, at, false, x) && Framing(at) && !node.freed
    requires FrameOn(node, at, x).node.key == node.key && FrameOn(node, at, x).lock == Same
    ensures var t := FrameOn(node, at, x); Comes(s0, begun, n, t.node, Nobody, t.at, false, x)
  {
    Goes(s0, begun, n, node, Nobody, at, false, x);
  }

  lemma Drops1(s0: State, begun: State, n: nat, node: Node, owner: Owner, at: At, x: nat)
    requires Comes(s0, begun, n, node, owner, at, false, x) && (Dropping(at) || at.ReadStarted?)
    requires var t := DropOn(node, at, owner == Nobody); t.ok && t.node.key == node.key
    ensures var t := DropOn(node, at, owner == Nobody);
      Comes(s0, begun, n, t.node, Owned(owner, t.lock, EventLoop), t.at, false, x)
  {
    LoopIsDrop(node, at, owner == Nobody, x);
    Goes(s0, begun, n, node, owner, at, false, x);
  }

  lemma LoopIsDrop(node: Node, at: At, free: bool, x: nat)
    requires Dropping(at) || at.ReadStarted?
    ensures LoopOn(node, at, free, false, x) == DropOn(node, at, free)
  {
  }

  lemma Leaves1(s0: State, begun: State, n: nat, node: Node, owner: Owner, at: At, x: nat)
    requires Comes(s0, begun, n, node, owner, at, false, x) && Handing(at)
    requires var t := LeaveOn(node, at, owner == Nobody); t.ok && t.node.key == node.key
    ensures var t := LeaveOn(node, at, owner == Nobody);
      Comes(s0, begun, n, t.node, Owned(owner, t.lock, EventLoop), t.at, false, x)
  {
    Goes(s0, begun, n, node, owner, at, false, x);
  }

  /** The teardown, once the lock is to be taken. */
  lemma Drops(s0: State, begun: State, n: nat, node: Node, cb: bool, x: nat)
    requires Comes(s0, begun, n, node, Nobody, DropLock(cb), false, x)
    requires !node.freed && AllLive(node.clients) && node.conn == Closed
    ensures Comes(s0, begun, n, Freed(node), Nobody, Away, false, x)
  {
    var emptied := Emptied(s0, begun, n, node, cb, x);
    if cb { DropsFree(s0, begun, n, node, emptied, x); } else { DropsLocked(s0, begun, n, node, emptied, x); }
  }

  lemma Emptied(s0: State, begun: State, n: nat, node: Node, cb: bool, x: nat) returns (emptied: Node)
    requires Comes(s0, begun, n, node, Nobody, DropLock(cb), false, x)
    requires !node.freed && AllLive(node.clients) && node.conn == Closed
    ensures emptied == node.(listed := false, clients := FreeAll(node.clients))
    ensures Comes(s0, begun, n, emptied, EventLoop, if cb then DropUnlock else DropFree(false), false, x)
  {
    Unlists(s0, begun, n, node, cb, x);
    Drops1(s0, begun, n, node.(listed := false), EventLoop, DropList(cb), x);
    emptied := node.(listed := false, clients := FreeAll(node.clients));
  }

  lemma Unlists(s0: State, begun: State, n: nat, node: Node, cb: bool, x: nat)
    requires Comes(s0, begun, n, node, Nobody, DropLock(cb), false, x) && !node.freed
    ensures Comes(s0, begun, n, node.(listed := false), EventLoop, DropList(cb), false, x)
  {
    Drops1(s0, begun, n, node, Nobody, DropLock(cb), x);
    Drops1(s0, begun, n, node, EventLoop, DropUnlist(cb), x);
  }

  lemma DropsFree(s0: State, begun: State, n: nat, node: Node, emptied: Node, x: nat)
    requires Comes(s0, begun, n, emptied, EventLoop, DropUnlock, false, x) && !node.freed && node.conn == Closed
    requires emptied == node.(listed := false, clients := FreeAll(node.clients))
    ensures Comes(s0, begun, n, Freed(node), Nobody, Away, false, x)
  {
    Drops1(s0, begun, n, emptied, EventLoop, DropUnlock, x);
    Drops1(s0, begun, n, emptied, Nobody, DropFree(true), x);
  }

  lemma DropsLocked(s0: State, begun: State, n: nat, node: Node, emptied: Node, x: nat)
    requires Comes(s0, begun, n, emptied, EventLoop, DropFree(false), false, x) && !node.freed && node.conn == Closed
    requires emptied == node.(listed := false, clients := FreeAll(node.clients))
    ensures Comes(s0, begun, n, Freed(node), Nobody, Away, false, x)
  {
    Drops1(s0, begun, n, emptied, EventLoop, DropFree(false), x);
    Unlocks(s0, begun, n, Freed(node), x);
  }

  lemma Unlocks(s0: State, begun: State, n: nat, node: Node, x: nat)
    requires Comes(s0, begun, n, node, EventLoop, Unlock, false, x)
    ensures Comes(s0, begun, n, node, Nobody, Away, false, x)
  {
    Goes(s0, begun, n, node, EventLoop, Unlock, false, x);
  }

  /** Handing the node over. */
  lemma Leaves(s0: State, begun: State, n: nat, node: Node, cb: bool, x: nat)
    requires Comes(s0, begun, n, node, Nobody, LeaveLock(cb), false, x) && !node.freed && AllLive(node.clients)
    ensures Comes(s0, begun, n, node.(g := 2), Nobody, Away, false, x)
  {
    Leaves1(s0, begun, n, node, Nobody, LeaveLock(cb), x);
    Leaves1(s0, begun, n, node, EventLoop, LeaveDisable(cb), x);
    if cb { LeavesFree(s0, begun, n, node, x); } else { LeavesLocked(s0, begun, n, node, x); }
  }

  lemma LeavesFree(s0: State, begun: State, n: nat, node: Node, x: nat)
    requires Comes(s0, begun, n, node, EventLoop, LeaveUnlock, false, x) && !node.freed
    ensures Comes(s0, begun, n, node.(g := 2), Nobody, Away, false, x)
  {
    Leaves1(s0, begun, n, node, EventLoop, LeaveUnlock, x);
    Leaves1(s0, begun, n, node, Nobody, LeaveSet(true), x);
  }

  lemma LeavesLocked(s0: State, begun: State, n: nat, node: Node, x: nat)
    requires Comes(s0, begun, n, node, EventLoop, LeaveSet(false), false, x) && !node.freed
    ensures Comes(s0, begun, n, node.(g := 2), Nobody, Away, false, x)
  {
    Leaves1(s0, begun, n, node, EventLoop, LeaveSet(false), x);
    Unlocks(s0, begun, n, node.(g := 2), x);
  }

  /** After the connection has been closed. */
  lemma GivesUp(s0: State, begun: State, n: nat, node: Node, cb: bool, x: nat)
    requires Comes(s0, begun, n, node.(conn := Closed), Nobody, ReadStarted(cb), false, x) && Settled(node)
    ensures Comes(s0, begun, n, GivenUp(node), Nobody, Away, false, x)
  {
    var closed := node.(conn := Closed);
    Drops1(s0, begun, n, closed, Nobody, ReadStarted(cb), x);
    if node.s == 0 { Drops(s0, begun, n, closed, cb, x); } else { Leaves(s0, begun, n, closed, cb, x); }
  }

  /** From the decision to keep a frame on. */
  lemma Keeps(s0: State, begun: State, n: nat, node: Node, media: bool, x: nat)
    requires Comes(s0, begun, n, node, Nobody, Keep(media), false, x) && Settled(node) && node.s == 1
    requires |node.clients.list| > 0
    ensures Comes(s0, begun, n, Framed(node, false, media, x), Nobody, Away, false, x)
  {
    Frames1(s0, begun, n, node, Keep(media), x);
    if media {
      Frames1(s0, begun, n, node, CheckLength, x);
      if |node.frames.queue| >= 512 {
        GivesUp(s0, begun, n, node, true, x);
      } else {
        Frames1(s0, begun, n, node, Push, x);
      }
    }
  }

  lemma FramesOn(s0: State, begun: State, n: nat, node: Node, isKey: bool, media: bool, x: nat)
    requires Comes(s0, begun, n, node, Nobody, EndBlock(isKey, media), false, x) && Settled(node)
    ensures Comes(s0, begun, n, Framed(node, isKey, media, x), Nobody, Away, false, x)
  {
    Frames1(s0, begun, n, node, EndBlock(isKey, media), x);
    if |node.clients.list| == 0 {
      GivesUp(s0, begun, n, node, true, x);
    } else {
      Frames1(s0, begun, n, node, TestFinished(isKey, media), x);
      if node.s == 2 {
        GivesUp(s0, begun, n, node, true, x);
      } else {
        FramesKept(s0, begun, n, node, isKey, media, x);
      }
    }
  }

  lemma FramesKept(s0: State, begun: State, n: nat, node: Node, isKey: bool, media: bool, x: nat)
    requires Comes(s0, begun, n, node, Nobody, TestStart(isKey, media), false, x) && Settled(node) && node.s < 2
    requires |node.clients.list| > 0
    ensures Comes(s0, begun, n, Framed(node, isKey, media, x), Nobody, Away, false, x)
  {
    Frames1(s0, begun, n, node, TestStart(isKey, media), x);
    if node.s == 1 {
      Keeps(s0, begun, n, node, media, x);
    } else if isKey {
      Frames1(s0, begun, n, node, QueueTask(media), x);
      Frames1(s0, begun, n, node.(task := Ready), SetStarted(media), x);
      Keeps(s0, begun, n, node.(task := Ready, s := 1), media, x);
    } else {
      Frames1(s0, begun, n, node, Keep(media), x);
    }
  }

  lemma Starts(s0: State, begun: State, n: nat, node: Node, at: At, x: nat)
    requires Like(s0, begun, n, node, Nobody, AtNode(n, at))
    ensures Comes(s0, begun, n, node, Nobody, at, false, x)
  {
    assert Loops(begun, 0, false, x) == begun;
    assert LoopsTo(begun, begun, false, x);
  }

  /** A completed frame does to its node what `Framed` says, and to nothing else. */
  lemma FrameEffect(s: State, n: nat, isKey: bool, media: bool, x: nat) returns (t: State)
    requires Inv(s) && n < |s.nodes| && s.nodes[n].conn == Streaming && Calm(s, s.nodes[n].key.bucket)
    ensures LoopsTo(Next(s, Begin(FrameDone(n, isKey, media))), t, false, x) && Over(s, t)
    ensures t.nodes == s.nodes[n := Framed(s.nodes[n], isKey, media, x)]
  {
    var begun, node := Next(s, Begin(FrameDone(n, isKey, media))), s.nodes[n];
    IsSettled(s, n);
    assert s.nodes[n := node] == s.nodes;
    Starts(s, begun, n, node, EndBlock(isKey, media), x);
    FramesOn(s, begun, n, node, isKey, media, x);
    t := Ends(s, begun, n, Framed(node, isKey, media, x), false, x);
  }

  /** An error of the stream gives the connection up; one before there is a stream tears the node down. */
  lemma ErrorEffect(s: State, e: Event, n: nat) returns (t: State)
    requires Inv(s) && n < |s.nodes| && Calm(s, s.nodes[n].key.bucket)
    requires
      || (e == StreamError(n) && s.nodes[n].conn in {Replying, Streaming})
      || (e == ConnectFailed(n) && s.nodes[n].conn == Connecting)
      || (e == ReplyBad(n) && s.nodes[n].conn == Replying)
    ensures LoopsTo(Next(s, Begin(e)), t, false, 0) && Over(s, t)
    ensures t.nodes == s.nodes[n := if e == StreamError(n) then GivenUp(s.nodes[n]) else Freed(s.nodes[n])]
  {
    var begun, node := Next(s, Begin(e)), s.nodes[n];
    IsSettled(s, n);
    if e == StreamError(n) {
      Starts(s, begun, n, node.(conn := Closed), ReadStarted(false), 0);
      GivesUp(s, begun, n, node, false, 0);
      t := Ends(s, begun, n, GivenUp(node), false, 0);
    } else {
      Starts(s, begun, n, node.(conn := Closed), DropLock(false), 0);
      Drops(s, begun, n, node.(conn := Closed), false, 0);
      t := Ends(s, begun, n, Freed(node), false, 0);
    }
  }

  /** Connecting, and the reply that grants the stream, change the connection alone. */
  lemma ConnectionEffect(s: State, n: nat)
    requires n < |s.nodes| && !s.fault && s.loop == Idle && !s.nodes[n].freed
    ensures s.nodes[n].conn == Connecting ==>
      Next(s, Begin(Connected(n))) == s.(nodes := s.nodes[n := s.nodes[n].(conn := Replying)])
    ensures s.nodes[n].conn == Replying ==>
      Next(s, Begin(ReplyOk(n))) == s.(nodes := s.nodes[n := s.nodes[n].(conn := Streaming)])
  {
  }
}

/** Two runs of the whole program that its checks do not exclude, and exactly when they can happen: a send task
    that uses the head sentinel of the client list, and a frame that passes the length check and is refused. */
module StreamRace {
  import opened ListRace
  import opened StreamLife
  import opened StreamSystem

  /** No list of clients is longer than `k`. */
  predicate Small(s: State, k: int)
  {
    forall n :: 0 <= n < |s.nodes| ==> Listed(s.nodes[n].clients) <= k
  }

  /** No list is ever longer than `k` in this run. */
  predicate Within(s: State, actions: seq<Action>, k: int)
    decreases |actions|
  {
    Small(s, k) && (actions == [] || Within(Next(s, actions[0]), actions[1..], k))
  }

  /** No run in which no list gets longer than `k` has a fault. */
  ghost predicate AllSafe(k: int)
  {
    forall actions :: Within(START, actions, k) ==> !Run(START, actions).fault
  }

  ghost predicate Reached(s: State, k: int)
  {
    exists actions :: Within(START, actions, k) && Run(START, actions) == s
  }

  lemma {:induction false} RunOn(s: State, actions: seq<Action>, a: Action, k: int)
    requires Within(s, actions, k) && Small(Next(Run(s, actions), a), k)
    ensures Within(s, actions + [a], k) && Run(s, actions + [a]) == Next(Run(s, actions), a)
    decreases |actions|
  {
    if actions == [] {
      assert [a][1..] == [];
      assert Within(Next(s, a), [], k) && Run(Next(s, a), []) == Next(s, a);
      assert actions + [a] == [a];
    } else {
      assert (actions + [a])[1..] == actions[1..] + [a];
      RunOn(Next(s, actions[0]), actions[1..], a, k);
    }
  }

  lemma OneMore(s: State, a: Action, k: int)
    requires Reached(s, k) && Small(Next(s, a), k)
    ensures Reached(Next(s, a), k)
  {
    var actions :| Within(START, actions, k) && Run(START, actions) == s;
    RunOn(START, actions, a, k);
    assert Within(START, actions + [a], k) && Run(START, actions + [a]) == Next(s, a);
  }

  lemma {:induction false} EndsSmall(s: State, actions: seq<Action>, k: int)
    requires Within(s, actions, k)
    ensures Small(Run(s, actions), k)
    decreases |actions|
  {
    if actions != [] { EndsSmall(Next(s, actions[0]), actions[1..], k); }
  }

  // ---------------------------------------------------------------- runs with one node

  /** There is one node; `owner` has its bucket and the event loop is at `at` on it. */
  predicate Solo(s: State, node: Node, owner: Owner, at: At)
  {
    && s.nodes == [node] && OwnerOf(s.locks, node.key.bucket) == owner && s.loop == AtNode(0, at) && !s.fault
    && Listed(node.clients) <= 3
  }

  ghost predicate CanBe(node: Node, owner: Owner, at: At) { exists s :: Reached(s, 3) && Solo(s, node, owner, at) }

  function Owned(owner: Owner, op: LockOp, who: Owner): Owner
  {
    if op == Take then who else if op == Release then Nobody else owner
  }

  lemma LoopGoes(node: Node, owner: Owner, at: At, b: bool, x: nat)
    requires CanBe(node, owner, at) && at != Away
    requires var t := LoopOn(node, at, owner == Nobody, b, x);
      t.ok && Listed(t.node.clients) <= 3 && t.node.key == node.key
    ensures var t := LoopOn(node, at, owner == Nobody, b, x); CanBe(t.node, Owned(owner, t.lock, EventLoop), t.at)
  {
    var s :| Reached(s, 3) && Solo(s, node, owner, at);
    var t := LoopOn(node, at, owner == Nobody, b, x);
    OneMore(s, LoopGo(b, x), 3);
    assert Solo(Next(s, LoopGo(b, x)), t.node, Owned(owner, t.lock, EventLoop), t.at);
  }

  lemma TaskGoes(node: Node, owner: Owner, at: At, b: bool)
    requires CanBe(node, owner, at)
    requires var t := TaskOn(node, owner == Nobody, b); t.ok && Listed(t.node.clients) <= 3 && t.node.key == node.key
    ensures var t := TaskOn(node, owner == Nobody, b); CanBe(t.node, Owned(owner, t.lock, TaskOf(0)), at)
  {
    var s :| Reached(s, 3) && Solo(s, node, owner, at);
    var t := TaskOn(node, owner == Nobody, b);
    OneMore(s, TaskGo(0, b), 3);
    assert Solo(Next(s, TaskGo(0, b)), t.node, Owned(owner, t.lock, TaskOf(0)), at);
  }

  lemma Begins(node: Node, owner: Owner, e: Event)
    requires CanBe(node, owner, Away) && !e.Play? && !e.Stop? && e.n == 0
    requires var t := BeginOn(node, e); t.ok && Listed(t.node.clients) <= 3 && t.node.key == node.key && t.lock == Same
    ensures var t := BeginOn(node, e); CanBe(t.node, owner, t.at)
  {
    var s :| Reached(s, 3) && Solo(s, node, owner, Away);
    var t := BeginOn(node, e);
    OneMore(s, Action.Begin(e), 3);
    assert Solo(Next(s, Action.Begin(e)), t.node, owner, t.at);
  }

  lemma FrameGoes(node: Node, at: At)
    requires CanBe(node, Nobody, at) && Framing(at) && !node.freed && Listed(node.clients) <= 3
    requires var t := FrameOn(node, at, 0); t.node.key == node.key && t.node.clients == node.clients && t.lock == Same
    ensures var t := FrameOn(node, at, 0); CanBe(t.node, Nobody, t.at)
  {
    LoopGoes(node, Nobody, at, false, 0);
  }

  lemma ServeGoes(node: Node, at: At)
    requires CanBe(node, EventLoop, at) && Serving(at)
    requires var t := ServeOn(node, at, true); t.ok && Listed(t.node.clients) <= 3 && t.node.key == node.key
    ensures var t := ServeOn(node, at, true); CanBe(t.node, if t.lock == Release then Nobody else EventLoop, t.at)
  {
    LoopGoes(node, EventLoop, at, true, 0);
  }

  /** An access of a lookup. */
  lemma LookGoes(node: Node, owner: Owner, at: At)
    requires CanBe(node, owner, at) && node.task.Walk? && node.task.v.Looking? && !node.task.v.l.Found? && !node.freed
    requires Listed(node.clients) <= 3
    ensures CanBe(node.(task := node.task.(v := Looking(LookStep(MemOf(node.clients), node.task.v.l)))), owner, at)
  {
    TaskGoes(node, owner, at, false);
  }

  lemma WatchGoes(node: Node)
    requires CanBe(node, Nobody, Away) && Watching(node.task) && !node.freed && Listed(node.clients) <= 3
    ensures CanBe(WatchOn(node).node, Nobody, Away)
  {
    TaskGoes(node, Nobody, Away, false);
  }

  lemma SendGoes(node: Node)
    requires CanBe(node, Nobody, Away) && Sending(node.task) && !node.freed && Listed(node.clients) <= 3
    requires node.task.PopFrame? ==> node.frames.queue != []
    ensures CanBe(SendOn(node, true).node, Nobody, Away)
  {
    TaskGoes(node, Nobody, Away, true);
  }

  lemma PickGoes(node: Node)
    requires CanBe(node, Nobody, Away) && node.task.Walk? && node.task.v.Pick? && node.task.left > 0 && !node.freed
    requires Listed(node.clients) <= 3
    ensures CanBe(node.(task := node.task.(v := Looking(Check(node.task.i)))), Nobody, Away)
  {
    TaskGoes(node, Nobody, Away, true);
  }

  /** PLAY of a new client for the node, up to the point where it is added. */
  lemma Plays(node: Node)
    requires CanBe(node, Nobody, Away) && node.listed && !node.freed && AllLive(node.clients)
    ensures CanBe(node, EventLoop, AddClient(false))
  {
    var s :| Reached(s, 3) && Solo(s, node, Nobody, Away);
    var s1 := Next(s, Action.Begin(Play(node.key, false)));
    OneMore(s, Action.Begin(Play(node.key, false)), 3);
    var s2 := Next(s1, LoopGo(false, 0));
    OneMore(s1, LoopGo(false, 0), 3);
    var s3 := Next(s2, LoopGo(false, 0));
    assert s2.nodes == [node] && OwnerOf(s2.locks, node.key.bucket) == EventLoop;
    assert Find(s2.nodes, node.key, 0) == 0;
    OneMore(s2, LoopGo(false, 0), 3);
    assert Solo(s3, node, EventLoop, AddClient(false));
  }

  lemma FirstPlay(key: Key)
    ensures CanBe(NewNode(key), EventLoop, AddClient(false))
  {
    assert Within(START, [], 3) && Run(START, []) == START;
    var s1 := Next(START, Action.Begin(Play(key, false)));
    OneMore(START, Action.Begin(Play(key, false)), 3);
    var s2 := Next(s1, LoopGo(false, 0));
    OneMore(s1, LoopGo(false, 0), 3);
    OneMore(s2, LoopGo(false, 0), 3);
    assert Solo(Next(s2, LoopGo(false, 0)), NewNode(key), EventLoop, AddClient(false));
  }

  /** A node in use, none of whose clients has been freed. */
  predicate InUse(node: Node) { node.listed && !node.freed && node.clients.gone == {} }

  /** The append of a new client as far as its counting. */
  lemma AppendsToCounted(node: Node)
    requires CanBe(node, EventLoop, AddClient(false)) && InUse(node) && node.clients.stage == Quiet
    requires |node.clients.list| <= 2
    ensures CanBe(node.(clients := AddOne(node.clients).(stage := Counted)), EventLoop, Append)
  {
    var cs := AddOne(node.clients);
    ServeGoes(node, AddClient(false));
    ServeGoes(node, Append);
    ServeGoes(node.(clients := cs.(stage := NextSet)), Append);
    ServeGoes(node.(clients := cs.(stage := PrevSet)), Append);
    ServeGoes(node.(clients := cs.(stage := Threaded)), Append);
    ServeGoes(node.(clients := cs.(stage := Linked)), Append);
  }

  /** A whole PLAY once the node is found. */
  lemma Added(node: Node)
    requires CanBe(node, EventLoop, AddClient(false)) && InUse(node) && node.clients.stage == Quiet
    requires |node.clients.list| <= 2
    ensures var node' := node.(clients := AddOne(node.clients));
      CanBe(if node.conn == Unconnected then node'.(conn := Connecting) else node', Nobody, Away)
  {
    var node' := node.(clients := AddOne(node.clients));
    AppendsToCounted(node);
    ServeGoes(node.(clients := AddOne(node.clients).(stage := Counted)), Append);
    assert node'.clients == AddOne(node.clients).(stage := Quiet);
    ServeGoes(node', Connect);
    ServeGoes(if node.conn == Unconnected then node'.(conn := Connecting) else node', Unlock);
  }

  // ---------------------------------------------------------------- frames

  predicate Receiving(node: Node)
  {
    InUse(node) && node.conn == Streaming && node.clients.stage == Quiet && 0 < |node.clients.list| <= 3
  }

  /** Whether to start the send task is decided. */
  lemma FrameTested(node: Node, isKey: bool)
    requires CanBe(node, Nobody, Away) && Receiving(node) && node.s <= 1
    ensures CanBe(node, Nobody, if node.s == 0 && isKey then QueueTask(true) else Keep(true))
  {
    Begins(node, Nobody, FrameDone(0, isKey, true));
    FrameGoes(node, EndBlock(isKey, true));
    FrameGoes(node, TestFinished(isKey, true));
    FrameGoes(node, TestStart(isKey, true));
  }

  /** A frame is kept once the send task is started. */
  lemma FrameKept(node: Node)
    requires CanBe(node, Nobody, Keep(true)) && !node.freed && node.s == 1 && |node.frames.queue| < 512
    requires Listed(node.clients) <= 3
    ensures CanBe(node, Nobody, Push)
  {
    FrameGoes(node, Keep(true));
    FrameGoes(node, CheckLength);
  }

  /** A frame up to the point where its length check has been passed. */
  lemma FrameChecked(node: Node)
    requires CanBe(node, Nobody, Away) && Receiving(node) && node.s == 1 && |node.frames.queue| < 512
    ensures CanBe(node, Nobody, Push)
  {
    FrameTested(node, false);
    FrameKept(node);
  }

  lemma FrameFirst(node: Node)
    requires CanBe(node, Nobody, Keep(true)) && Receiving(node) && node.s == 1 && |node.frames.queue| < 512
    requires !node.frames.popping
    ensures CanBe(node.(frames := PushOne(node.frames, 0)), Nobody, Away)
  {
    FrameKept(node);
    FrameGoes(node, Push);
  }

  /** The first frame, a key frame, starts the send task. */
  lemma FirstFrame(node: Node)
    requires CanBe(node, Nobody, Away) && Receiving(node) && node.s == 0 && node.frames == Frames([], false, [], [], [])
    ensures CanBe(node.(s := 1, task := Ready, frames := PushOne(node.frames, 0)), Nobody, Away)
  {
    var made := node.(task := Ready);
    var started := made.(s := 1);
    FrameTested(node, true);
    FrameGoes(node, QueueTask(true));
    FrameGoes(made, SetStarted(true));
    FrameFirst(started);
  }

  /** Frames arrive until `k` are queued. */
  lemma {:induction false} FramesArrive(node: Node, k: nat) returns (node': Node)
    requires CanBe(node, Nobody, Away) && Receiving(node) && node.s == 1 && |node.frames.queue| <= k <= 512
    requires !node.frames.popping
    ensures CanBe(node', Nobody, Away) && |node'.frames.queue| == k
    ensures node' == node.(frames := node'.frames) && !node'.frames.popping
    decreases k - |node.frames.queue|
  {
    if |node.frames.queue| == k {
      node' := node;
    } else {
      FrameChecked(node);
      FrameGoes(node, Push);
      node' := FramesArrive(node.(frames := PushOne(node.frames, 0)), k);
    }
  }

  /** Two PLAY requests have been served and the media server sends. */
  lemma Connects(node: Node)
    requires CanBe(node, Nobody, Away) && !node.freed && node.conn == Connecting && Listed(node.clients) <= 3
    ensures CanBe(node.(conn := Streaming), Nobody, Away)
  {
    Begins(node, Nobody, Connected(0));
    Begins(node.(conn := Replying), Nobody, ReplyOk(0));
  }

  function TwoClients(): Node
  {
    Node(Key(0, 0), true, false, Connecting, 0, 0, Clients([0, 1], Quiet, {}, 2, {}), Frames([], false, [], [], []),
        Unborn)
  }

  lemma TwoPlays()
    ensures CanBe(TwoClients(), Nobody, Away)
  {
    var node := NewNode(Key(0, 0));
    FirstPlay(node.key);
    Added(node);
    var one := TwoClients().(clients := Clients([0], Quiet, {}, 1, {}));
    assert one.clients == AddOne(node.clients);
    Plays(one);
    Added(one);
    assert TwoClients().clients == AddOne(one.clients);
  }

  /** A stream with two clients and `k` queued frames, its send task just made. */
  lemma Started(k: nat) returns (node: Node)
    requires 1 <= k <= 512
    ensures CanBe(node, Nobody, Away) && Receiving(node) && node.s == 1 && node.g == 0 && node.task == Ready
    ensures node.clients == Clients([0, 1], Quiet, {}, 2, {}) && |node.frames.queue| == k && !node.frames.popping
  {
    TwoPlays();
    Connects(TwoClients());
    var streaming := TwoClients().(conn := Streaming);
    FirstFrame(streaming);
    node := FramesArrive(streaming.(s := 1, task := Ready, frames := PushOne(streaming.frames, 0)), k);
  }

  /** The send task pops a frame. */
  lemma Popped(node: Node)
    requires CanBe(node, Nobody, Away) && Receiving(node) && node.task == Ready && node.g == 0
        && |node.frames.queue| > 15
    ensures CanBe(node.(frames := PopOne(node.frames), task := PopDone), Nobody, Away)
  {
    WatchGoes(node);
    WatchGoes(node.(task := CheckReceiver));
    WatchGoes(node.(task := CheckClients));
    WatchGoes(node.(task := ReadLength));
    SendGoes(node.(task := PopFrame));
  }

  // ---------------------------------------------------------------- a frame refused

  /** A frame passes the length check and is refused all the same; its buffer is then lost. */
  lemma RefusedRun() returns (actions: seq<Action>)
    ensures var s := Run(START, actions);
      s.loop.On? && s.loop.at.Push? && s.loop.n < |s.nodes| && !PushFits(s.nodes[s.loop.n].frames)
  {
    var node := Started(512);
    Popped(node);
    var taken := node.(frames := PopOne(node.frames), task := PopDone);
    FrameChecked(taken);
    var s :| Reached(s, 3) && Solo(s, taken, Nobody, Push);
    actions :| Within(START, actions, 3) && Run(START, actions) == s;
  }

  // ---------------------------------------------------------------- a fault

  /** The send task has popped a frame and is about to look up the first client for its first packet. */
  lemma Sends(node: Node) returns (node': Node)
    requires CanBe(node, Nobody, Away) && Receiving(node) && node.task == PopDone && |node.clients.list| == 2
    ensures CanBe(node', Nobody, Away)
        && node' == node.(frames := node'.frames, task := Walk(0, 2, 2, Looking(Check(0))))
  {
    SendGoes(node);
    var held := node.(frames := node.frames.(popping := false), task := PassStart);
    SendGoes(held);
    PickGoes(held.(task := Walk(0, 2, 2, Pick)));
    node' := held.(task := Walk(0, 2, 2, Looking(Check(0))));
  }

  /** Meanwhile a third client has just been counted. */
  lemma Overtaken() returns (node: Node)
    ensures CanBe(node, EventLoop, Append) && !node.freed && node.clients.stage == Counted && |node.clients.list| == 3
    ensures node.task == Walk(0, 2, 2, Looking(Check(0)))
  {
    var two := Started(16);
    Popped(two);
    var looking := Sends(two.(frames := PopOne(two.frames), task := PopDone));
    Plays(looking);
    AppendsToCounted(looking);
    node := looking.(clients := AddOne(looking.clients).(stage := Counted));
  }

  /** The lookup sees a length of three and turns to the middle. */
  lemma SeesThree(node: Node)
    requires CanBe(node, EventLoop, Append) && !node.freed && node.clients.stage == Counted && |node.clients.list| == 3
    requires node.task == Walk(0, 2, 2, Looking(Check(0)))
    ensures CanBe(node.(task := Walk(0, 2, 2, Looking(MidNode(0, 3, 1, true)))), EventLoop, Append)
  {
    LookGoes(node, EventLoop, Append);
    LookGoes(node.(task := Walk(0, 2, 2, Looking(Choose(0)))), EventLoop, Append);
    LookGoes(node.(task := Walk(0, 2, 2, Looking(MidIndex(0, 3, true)))), EventLoop, Append);
  }

  /** The middle has not been moved yet, and one step back from it is the head sentinel. */
  lemma Misled(node: Node)
    requires CanBe(node, EventLoop, Append) && !node.freed && node.clients.stage == Counted && |node.clients.list| == 3
    requires node.task == Walk(0, 2, 2, Looking(MidNode(0, 3, 1, true)))
    ensures CanBe(node.(task := Walk(0, 2, 2, Looking(Found(0, 3, Pos(-1))))), EventLoop, Append)
  {
    LookGoes(node, EventLoop, Append);
    LookGoes(node.(task := Walk(0, 2, 2, Looking(Stride(0, 3, Pos(0), 1, true)))), EventLoop, Append);
    LookGoes(node.(task := Walk(0, 2, 2, Looking(Stride(0, 3, Pos(-1), 0, true)))), EventLoop, Append);
  }

  lemma Faults(s: State, node: Node) returns (actions: seq<Action>)
    requires Reached(s, 3) && Solo(s, node, EventLoop, Append)
    requires node.task == Walk(0, 2, 2, Looking(Found(0, 3, Pos(-1))))
    ensures Within(START, actions, 3) && Run(START, actions).fault
  {
    assert !TaskOn(node, false, true).ok;
    OneMore(s, TaskGo(0, true), 3);
    actions :| Within(START, actions, 3) && Run(START, actions) == Next(s, TaskGo(0, true));
  }

  /** A run of three PLAY requests in which the send task uses the head sentinel's NULL as a client. */
  lemma FaultRun() returns (actions: seq<Action>)
    ensures Within(START, actions, 3) && Run(START, actions).fault
  {
    var node := Overtaken();
    SeesThree(node);
    Misled(node.(task := Walk(0, 2, 2, Looking(MidNode(0, 3, 1, true)))));
    var last := node.(task := Walk(0, 2, 2, Looking(Found(0, 3, Pos(-1)))));
    var s :| Reached(s, 3) && Solo(s, last, EventLoop, Append);
    actions := Faults(s, last);
  }

  /** Runs in which no stream ever has more than `k` clients are free of faults if and only if `k` is at most two. */
  lemma SafeExactly(k: int)
    ensures AllSafe(k) <==> k <= 2
  {
    if k <= 2 {
      forall actions | Within(START, actions, k) ensures !Run(START, actions).fault {
        EndsSmall(START, actions, k);
        if Run(START, actions).fault { OnlyFault(actions); }
      }
    } else {
      var actions := FaultRun();
      WithinMore(START, actions, 3, k);
    }
  }

  lemma {:induction false} WithinMore(s: State, actions: seq<Action>, j: int, k: int)
    requires Within(s, actions, j) && j <= k
    ensures Within(s, actions, k)
    decreases |actions|
  {
    if actions != [] { WithinMore(Next(s, actions[0]), actions[1..], j, k); }
  }
}

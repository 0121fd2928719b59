/** All stream nodes, their table and its bucket locks: the event loop and every node's send task take
    turns in any order.  The program's promise is that a node is freed once, by whichever of the two is
    last, and that whoever finds a node in the table under the bucket lock may use it. */
module StreamSystem {
  import opened StreamLife

  datatype Owner = Nobody | EventLoop | TaskOf(n: nat)

  datatype SeekStep = LockBucket | FindNode | UnlockBucket

  /** The event loop is between callbacks, or looking for the node of a PLAY or STOP request, or busy
      with node `n`.  `known` and `c` stand for what the request's Call-ID names. */
  datatype Loop =
    | Idle
    | Seek(key: Key, play: bool, known: bool, c: nat, step: SeekStep)
    | On(n: nat, at: At)

  datatype State = State(nodes: seq<Node>, locks: map<nat, Owner>, loop: Loop, fault: bool)

  const START := State([], map[], Idle, false)

  datatype Event =
    | Play(key: Key, known: bool)
    | Stop(key: Key, c: nat)
    | Connected(n: nat)
    | ConnectFailed(n: nat)
    | ReplyOk(n: nat)
    | ReplyBad(n: nat)
    | FrameDone(n: nat, isKey: bool, media: bool)
    | StreamError(n: nat)

  /** One atomic step: a callback begins, the event loop goes on, or a task does. */
  datatype Action = Begin(e: Event) | LoopGo(b: bool, x: nat) | TaskGo(n: nat, b: bool)

  function OwnerOf(locks: map<nat, Owner>, bucket: nat): Owner { if bucket in locks then locks[bucket] else Nobody }

  /** The first node of the table with this key, or the number of nodes. */
  function Find(nodes: seq<Node>, key: Key, from: nat): (k: nat)
    requires from <= |nodes|
    ensures from <= k <= |nodes|
    ensures k < |nodes| ==> nodes[k].listed && nodes[k].key == key
    ensures forall i :: from <= i < k ==> !(nodes[i].listed && nodes[i].key == key)
    decreases |nodes| - from
  {
    if from == |nodes| || (nodes[from].listed && nodes[from].key == key) then from else Find(nodes, key, from + 1)
  }

  /** What a search of a bucket reads is allocated. */
  predicate BucketLive(nodes: seq<Node>, bucket: nat)
  {
    forall i :: 0 <= i < |nodes| && nodes[i].listed && nodes[i].key.bucket == bucket ==> !nodes[i].freed
  }

  /** The first step of a connection callback, on its node. */
  function BeginOn(node: Node, e: Event): LoopTurn
  {
    var ok := !node.freed;
    if e.Connected? && node.conn == Connecting then LoopTurn(node.(conn := Replying), Away, Same, ok)
    else if e.ConnectFailed? && node.conn == Connecting then LoopTurn(node.(conn := Closed), DropLock(false), Same, ok)
    else if e.ReplyOk? && node.conn == Replying then LoopTurn(node.(conn := Streaming), Away, Same, ok)
    else if e.ReplyBad? && node.conn == Replying then LoopTurn(node.(conn := Closed), DropLock(false), Same, ok)
    else if e.FrameDone? && node.conn == Streaming then LoopTurn(node, EndBlock(e.isKey, e.media), Same, ok)
    else if e.StreamError? && (node.conn == Replying || node.conn == Streaming) then
      LoopTurn(node.(conn := Closed), ReadStarted(false), Same, ok)
    else LoopTurn(node, Away, Same, true)
  }

  function Lock(locks: map<nat, Owner>, bucket: nat, op: LockOp, who: Owner): map<nat, Owner>
  {
    if op == Take then locks[bucket := who] else if op == Release then locks[bucket := Nobody] else locks
  }

  function AtNode(n: nat, at: At): Loop { if at == Away then Idle else On(n, at) }

  function LoopTo(s: State, n: nat, t: LoopTurn): State
    requires n < |s.nodes|
  {
    State(s.nodes[n := t.node], Lock(s.locks, s.nodes[n].key.bucket, t.lock, EventLoop), AtNode(n, t.at),
          s.fault || !t.ok)
  }

  function TaskTo(s: State, n: nat, t: TaskTurn): State
    requires n < |s.nodes|
  {
    State(s.nodes[n := t.node], Lock(s.locks, s.nodes[n].key.bucket, t.lock, TaskOf(n)), s.loop, s.fault || !t.ok)
  }

  /** What the request does with the node it has found. */
  function Request(l: Loop, node: Node): At
    requires l.Seek?
  {
    if l.play then AddClient(l.known) else if l.c in node.clients.list then Flag(l.c) else Unlock
  }

  /** PLAY and STOP up to the point where the node is found or made. */
  function SeekOn(s: State, l: Loop): State
    requires l.Seek?
  {
    match l.step
    case LockBucket =>
      if OwnerOf(s.locks, l.key.bucket) == Nobody then
        s.(locks := s.locks[l.key.bucket := EventLoop], loop := l.(step := FindNode)) else s
    case FindNode =>
      var k := Find(s.nodes, l.key, 0);
      var fault := s.fault || !BucketLive(s.nodes, l.key.bucket);
      if k < |s.nodes| then
        s.(loop := On(k, Request(l, s.nodes[k])),
           fault := fault || !AllLive(s.nodes[k].clients))
      else if l.play then
        s.(nodes := s.nodes + [NewNode(l.key)], loop := On(|s.nodes|, AddClient(false)), fault := fault)
      else s.(loop := l.(step := UnlockBucket), fault := fault)
    case UnlockBucket => s.(locks := s.locks[l.key.bucket := Nobody], loop := Idle)
  }

  /** A fault ends the program. */
  function Next(s: State, a: Action): State
  {
    if s.fault then s else
    match a
    case Begin(e) =>
      if s.loop != Idle then s
      else if e.Play? then s.(loop := Seek(e.key, true, e.known, 0, LockBucket))
      else if e.Stop? then s.(loop := Seek(e.key, false, false, e.c, LockBucket))
      else if e.n < |s.nodes| then LoopTo(s, e.n, BeginOn(s.nodes[e.n], e))
      else s
    case LoopGo(b, x) =>
      if s.loop.Seek? then SeekOn(s, s.loop)
      else if s.loop.On? && s.loop.n < |s.nodes| then
        LoopTo(s, s.loop.n, LoopOn(s.nodes[s.loop.n], s.loop.at, FreeFor(s, s.loop.n), b, x))
      else s
    case TaskGo(n, b) => if n < |s.nodes| then TaskTo(s, n, TaskOn(s.nodes[n], FreeFor(s, n), b)) else s
  }

  predicate FreeFor(s: State, n: nat)
    requires n < |s.nodes|
  {
    OwnerOf(s.locks, s.nodes[n].key.bucket) == Nobody
  }

  function Run(s: State, actions: seq<Action>): State
    decreases |actions|
  {
    if actions == [] then s else Run(Next(s, actions[0]), actions[1..])
  }

  // ---------------------------------------------------------------- the invariant

  function Role(loop: Loop, n: nat): At { if loop.On? && loop.n == n then loop.at else Away }

  /** What holds of node `n` in the whole system. */
  predicate NodeGood(node: Node, n: nat, loop: Loop, locks: map<nat, Owner>)
  {
    Good(node, Role(loop, n), OwnerOf(locks, node.key.bucket) == TaskOf(n),
        OwnerOf(locks, node.key.bucket) == EventLoop)
  }

  predicate KeysDiffer(nodes: seq<Node>)
  {
    forall i, j :: 0 <= i < j < |nodes| && nodes[i].listed && nodes[j].listed ==> nodes[i].key != nodes[j].key
  }

  predicate LoopGoodFor(loop: Loop, count: nat, locks: map<nat, Owner>)
  {
    && (loop.On? ==> loop.n < count && loop.at != Away)
    && (loop.Seek? && loop.step != LockBucket ==> OwnerOf(locks, loop.key.bucket) == EventLoop)
  }

  predicate AllGood(s: State) { forall n :: 0 <= n < |s.nodes| ==> NodeGood(s.nodes[n], n, s.loop, s.locks) }

  /** The one fault there is: the send task uses the data of the head sentinel, at which its lookup of the
      first client ended after it had seen a length of three. */
  predicate UsesSentinel(node: Node) { AtSentinel(node) && 3 <= Listed(node.clients) }

  predicate Inv(s: State)
  {
    && AllGood(s) && KeysDiffer(s.nodes) && LoopGoodFor(s.loop, |s.nodes|, s.locks)
    && (s.fault ==> exists n :: 0 <= n < |s.nodes| && UsesSentinel(s.nodes[n]))
  }

  // ---------------------------------------------------------------- steps

  lemma BeginFlags(node: Node, e: Event, mine: bool, loops: bool)
    requires FlowGood(node, Away, mine, loops)
    ensures var t := BeginOn(node, e); t.ok && FlagsGood(t.node, t.at) && LocksGood(t.node, t.at, mine, loops)
  {
  }

  lemma BeginOthers(node: Node, e: Event, mine: bool, loops: bool)
    requires FlowGood(node, Away, mine, loops)
    ensures var t := BeginOn(node, e); LoopGood(t.node, t.at) && TaskGood(t.node)
  {
  }

  lemma BeginFlow(node: Node, e: Event, mine: bool, loops: bool)
    requires FlowGood(node, Away, mine, loops)
    ensures var t := BeginOn(node, e); t.ok && FlowGood(t.node, t.at, mine, loops)
  {
    BeginFlags(node, e, mine, loops);
    BeginOthers(node, e, mine, loops);
  }

  lemma BeginKeeps(node: Node, e: Event, mine: bool, loops: bool)
    requires Good(node, Away, mine, loops)
    ensures var t := BeginOn(node, e);
      t.ok && Good(t.node, t.at, mine, loops) && t.lock == Same && t.node.key == node.key
          && t.node.listed == node.listed
  {
    BeginFlow(node, e, mine, loops);
  }

  /** A node that is not stepped only sees its lock change hands. */
  lemma OthersKeep(node: Node, at: At, mine: bool, loops: bool, loops': bool)
    requires Good(node, at, mine, loops) && (loops == loops' || at == Away) && !(mine && loops')
    ensures Good(node, at, mine, loops')
  {
  }

  /** Locks are taken when free and released by their owner; a node keeps its key and is never listed again. */
  lemma LoopDiscipline(node: Node, at: At, free: bool, b: bool, x: nat)
    ensures var t := LoopOn(node, at, free, b, x);
      && (t.lock == Take ==> free) && (t.lock == Release ==> LoopLocks(at))
      && t.node.key == node.key && (t.node.listed ==> node.listed)
  {
  }

  lemma TaskDiscipline(node: Node, free: bool, b: bool)
    ensures var t := TaskOn(node, free, b);
      && (t.lock == Take ==> free) && (t.lock == Release ==> TaskLocks(node.task))
      && t.node.key == node.key && (t.node.listed ==> node.listed)
  {
    if Watching(node.task) || node.task.SayFinished? {
      assert WatchOn(node).lock == Same && WatchOn(node).node.listed == node.listed;
    } else if Sending(node.task) {
      assert SendOn(node, b).lock == Same && SendOn(node, b).node.listed == node.listed;
    } else if Exiting(node.task) {
      ExitDiscipline(node, free);
    } else if node.task.Walk? {
      WalkDiscipline(node, free, b);
    }
  }

  lemma ExitDiscipline(node: Node, free: bool)
    requires Exiting(node.task)
    ensures var t := ExitOn(node, free);
      && (t.lock == Take ==> free) && (t.lock == Release ==> node.task.LastUnlock?)
      && t.node.key == node.key && (t.node.listed ==> node.listed)
  {
  }

  lemma WalkDiscipline(node: Node, free: bool, b: bool)
    requires node.task.Walk?
    ensures var t := WalkOn(node, free, b);
      && (t.lock == Take ==> free) && (t.lock == Release ==> TaskLocks(node.task))
      && t.node.key == node.key && t.node.listed == node.listed
  {
  }

  // ---------------------------------------------------------------- the whole system

  /** Stepping one node and its lock leaves every other node good. */
  lemma LoopStepGood(s: State, n: nat, t: LoopTurn)
    requires Inv(s) && n < |s.nodes| && (s.loop == Idle || (s.loop.On? && s.loop.n == n))
    requires var o := OwnerOf(s.locks, s.nodes[n].key.bucket);
      && (t.lock == Take ==> o == Nobody) && (t.lock == Release ==> o == EventLoop)
      && t.ok && t.node.key == s.nodes[n].key && (t.node.listed ==> s.nodes[n].listed) && !s.fault
      && Good(t.node, t.at, o == TaskOf(n), After(o == EventLoop, t.lock))
    ensures Inv(LoopTo(s, n, t))
  {
    var s' := LoopTo(s, n, t);
    forall m | 0 <= m < |s'.nodes| ensures NodeGood(s'.nodes[m], m, s'.loop, s'.locks) {
      assert NodeGood(s.nodes[m], m, s.loop, s.locks);
      if m != n {
        var o, o' := OwnerOf(s.locks, s.nodes[m].key.bucket), OwnerOf(s'.locks, s.nodes[m].key.bucket);
        OthersKeep(s.nodes[m], Away, o == TaskOf(m), o == EventLoop, o' == EventLoop);
      }
    }
  }

  lemma TaskStepGood(s: State, n: nat, t: TaskTurn)
    requires Inv(s) && n < |s.nodes|
    requires var o := OwnerOf(s.locks, s.nodes[n].key.bucket);
      && (t.lock == Take ==> o == Nobody) && (t.lock == Release ==> o == TaskOf(n))
      && t.node.key == s.nodes[n].key && (t.node.listed ==> s.nodes[n].listed) && !s.fault
      && (!t.ok ==> UsesSentinel(t.node))
      && Good(t.node, Role(s.loop, n), After(o == TaskOf(n), t.lock), o == EventLoop)
    ensures Inv(TaskTo(s, n, t))
  {
    var s' := TaskTo(s, n, t);
    forall m | 0 <= m < |s'.nodes| ensures NodeGood(s'.nodes[m], m, s'.loop, s'.locks) {
      assert NodeGood(s.nodes[m], m, s.loop, s.locks);
    }
    if !t.ok { assert UsesSentinel(s'.nodes[n]); }
  }

  /** A change of the event loop's control point and lock, nodes untouched. */
  lemma RelockGood(s: State, loop: Loop, locks: map<nat, Owner>)
    requires Inv(s) && !s.loop.On? && !loop.On?
    requires forall n: nat, bucket: nat ::
      (OwnerOf(locks, bucket) == TaskOf(n)) == (OwnerOf(s.locks, bucket) == TaskOf(n))
    ensures AllGood(s.(loop := loop, locks := locks))
  {
    var s' := s.(loop := loop, locks := locks);
    forall m | 0 <= m < |s'.nodes| ensures NodeGood(s'.nodes[m], m, s'.loop, s'.locks) {
      assert NodeGood(s.nodes[m], m, s.loop, s.locks);
      var o, o' := OwnerOf(s.locks, s.nodes[m].key.bucket), OwnerOf(s'.locks, s.nodes[m].key.bucket);
      OthersKeep(s.nodes[m], Away, o == TaskOf(m), o == EventLoop, o' == EventLoop);
    }
  }

  /** The event loop, owning the bucket, turns to a listed node. */
  lemma EnterGood(s: State, k: nat, at: At)
    requires Inv(s) && s.loop.Seek? && s.loop.step == FindNode && k < |s.nodes| && s.nodes[k].listed
    requires s.nodes[k].key == s.loop.key
    requires at.AddClient? || (at.Flag? && at.c in s.nodes[k].clients.list) || at.Unlock?
    ensures AllGood(s.(loop := On(k, at))) && AllLive(s.nodes[k].clients)
  {
    forall m | 0 <= m < |s.nodes| ensures NodeGood(s.nodes[m], m, On(k, at), s.locks) {
      assert NodeGood(s.nodes[m], m, s.loop, s.locks);
      if m == k { ServeBegins(s.nodes[k], at, false, true); }
    }
    assert NodeGood(s.nodes[k], k, s.loop, s.locks);
    GoodIsLive(s.nodes[k].clients, Hand(s.nodes[k].task));
  }

  lemma ServeBegins(node: Node, at: At, mine: bool, loops: bool)
    requires Good(node, Away, mine, loops) && loops && node.listed
    requires at.AddClient? || (at.Flag? && at.c in node.clients.list) || at.Unlock?
    ensures Good(node, at, mine, loops)
  {
  }

  lemma MakeGood(s: State)
    requires Inv(s) && !s.fault && s.loop.Seek? && s.loop.step == FindNode && Find(s.nodes, s.loop.key, 0) == |s.nodes|
    ensures Inv(s.(nodes := s.nodes + [NewNode(s.loop.key)], loop := On(|s.nodes|, AddClient(false))))
  {
    var s' := s.(nodes := s.nodes + [NewNode(s.loop.key)], loop := On(|s.nodes|, AddClient(false)));
    NewNodeGood(s.loop.key);
    NewKeyDiffers(s.nodes, s.loop.key);
    forall m | 0 <= m < |s'.nodes| ensures NodeGood(s'.nodes[m], m, s'.loop, s'.locks) {
      if m < |s.nodes| { assert NodeGood(s.nodes[m], m, s.loop, s.locks); }
    }
  }

  lemma NewKeyDiffers(nodes: seq<Node>, key: Key)
    requires KeysDiffer(nodes) && Find(nodes, key, 0) == |nodes|
    ensures KeysDiffer(nodes + [NewNode(key)])
  {
  }

  lemma NewNodeGood(key: Key)
    ensures Good(NewNode(key), AddClient(false), false, true)
  {
  }

  /** Listed nodes are allocated, so a search of any bucket is safe. */
  lemma SearchIsSafe(s: State, bucket: nat)
    requires AllGood(s)
    ensures BucketLive(s.nodes, bucket)
  {
    forall i | 0 <= i < |s.nodes| && s.nodes[i].listed ensures !s.nodes[i].freed {
      assert NodeGood(s.nodes[i], i, s.loop, s.locks);
    }
  }

  lemma SeekKeeps(s: State)
    requires Inv(s) && !s.fault && s.loop.Seek?
    ensures Inv(SeekOn(s, s.loop))
  {
    var l := s.loop;
    match l.step {
      case LockBucket =>
        if OwnerOf(s.locks, l.key.bucket) == Nobody {
          RelockGood(s, l.(step := FindNode), s.locks[l.key.bucket := EventLoop]);
        }
      case FindNode =>
        var k := Find(s.nodes, l.key, 0);
        SearchIsSafe(s, l.key.bucket);
        if k < |s.nodes| {
          EnterGood(s, k, Request(l, s.nodes[k]));
        } else if l.play {
          MakeGood(s);
        } else {
          RelockGood(s, l.(step := UnlockBucket), s.locks);
        }
      case UnlockBucket => RelockGood(s, Idle, s.locks[l.key.bucket := Nobody]);
    }
  }

  lemma BeginGood(s: State, e: Event)
    requires Inv(s) && !s.fault && s.loop == Idle
    ensures Inv(Next(s, Begin(e)))
  {
    if e.Play? {
      RelockGood(s, Seek(e.key, true, e.known, 0, LockBucket), s.locks);
    } else if e.Stop? {
      RelockGood(s, Seek(e.key, false, false, e.c, LockBucket), s.locks);
    } else if e.n < |s.nodes| {
      assert NodeGood(s.nodes[e.n], e.n, s.loop, s.locks);
      var o := OwnerOf(s.locks, s.nodes[e.n].key.bucket);
      BeginKeeps(s.nodes[e.n], e, o == TaskOf(e.n), o == EventLoop);
      LoopStepGood(s, e.n, BeginOn(s.nodes[e.n], e));
    }
  }

  lemma LoopGoGood(s: State, b: bool, x: nat)
    requires Inv(s) && !s.fault
    ensures Inv(Next(s, LoopGo(b, x)))
  {
    if s.loop.Seek? {
      SeekKeeps(s);
    } else if s.loop.On? {
      var n := s.loop.n;
      assert NodeGood(s.nodes[n], n, s.loop, s.locks);
      var o := OwnerOf(s.locks, s.nodes[n].key.bucket);
      LoopKeeps(s.nodes[n], s.loop.at, o == Nobody, o == TaskOf(n), o == EventLoop, b, x);
      LoopDiscipline(s.nodes[n], s.loop.at, o == Nobody, b, x);
      LoopStepGood(s, n, LoopOn(s.nodes[n], s.loop.at, o == Nobody, b, x));
    }
  }

  lemma TaskGoGood(s: State, n: nat, b: bool)
    requires Inv(s) && !s.fault && n < |s.nodes|
    ensures Inv(Next(s, TaskGo(n, b)))
  {
    assert NodeGood(s.nodes[n], n, s.loop, s.locks);
    var o := OwnerOf(s.locks, s.nodes[n].key.bucket);
    TaskKeeps(s.nodes[n], Role(s.loop, n), o == Nobody, o == TaskOf(n), o == EventLoop, b);
    TaskDiscipline(s.nodes[n], o == Nobody, b);
    TaskStepGood(s, n, TaskOn(s.nodes[n], o == Nobody, b));
  }

  lemma NextKeeps(s: State, a: Action)
    requires Inv(s)
    ensures Inv(Next(s, a))
  {
    if s.fault { return; }
    match a {
      case Begin(e) => if s.loop == Idle { BeginGood(s, e); }
      case LoopGo(b, x) => LoopGoGood(s, b, x);
      case TaskGo(n, b) => if n < |s.nodes| { TaskGoGood(s, n, b); }
    }
  }

  lemma {:induction false} RunKeeps(s: State, actions: seq<Action>)
    requires Inv(s)
    ensures Inv(Run(s, actions))
    decreases |actions|
  {
    if actions != [] {
      NextKeeps(s, actions[0]);
      RunKeeps(Next(s, actions[0]), actions[1..]);
    }
  }

  // ---------------------------------------------------------------- over every run

  /** No run uses a node or a client after it was freed, frees one twice, or pops from an empty queue; and
      the only element it can miss is the first of a list of three that is being extended. */
  lemma OnlyFault(actions: seq<Action>)
    requires Run(START, actions).fault
    ensures exists n :: 0 <= n < |Run(START, actions).nodes| && UsesSentinel(Run(START, actions).nodes[n])
  {
    RunKeeps(START, actions);
  }

  /** A freed node is out of the table, its receiver has exited, and its task has finished or was never
      started; every frame ever queued and every client ever listed has then been freed, each once. */
  lemma FreedWhenBothAreDone(actions: seq<Action>, n: nat)
    requires n < |Run(START, actions).nodes| && Run(START, actions).nodes[n].freed
    ensures var node := Run(START, actions).nodes[n];
      && !node.listed && node.conn == Closed
      && (node.task.Unborn? || (node.g == 2 && (node.task.LastUnlock? || node.task.Done?)))
      && node.frames.released == node.frames.pushed
      && (forall c: nat :: c in node.clients.gone <==> c < node.clients.born)
  {
    RunKeeps(START, actions);
    var s := Run(START, actions);
    assert NodeGood(s.nodes[n], n, s.loop, s.locks);
    assert s.nodes[n].frames.held == [] && s.nodes[n].frames.queue == [];
    assert s.nodes[n].clients.list == [] && Hand(s.nodes[n].task) == {};
    assert ClientsGood(s.nodes[n].clients, {});
  }

  /** Whatever a search of the table finds is allocated, and no two listed nodes have the same key. */
  lemma FoundIsLive(actions: seq<Action>, key: Key)
    ensures var s := Run(START, actions);
      var k := Find(s.nodes, key, 0);
      && (k < |s.nodes| ==> !s.nodes[k].freed)
      && forall i :: 0 <= i < |s.nodes| && s.nodes[i].listed && s.nodes[i].key == key ==> i == k
  {
    RunKeeps(START, actions);
    SearchIsSafe(Run(START, actions), key.bucket);
  }

  /** The receiver's write that marks the send task as started never overwrites the send task's own mark that it
      has finished. */
  lemma StartNeverOverwritesFinish(actions: seq<Action>)
    requires Run(START, actions).loop.On? && Run(START, actions).loop.at.SetStarted?
    ensures var s := Run(START, actions);
      s.loop.n < |s.nodes| && s.nodes[s.loop.n].s == 0 && !s.nodes[s.loop.n].task.SayFinished?
  {
    RunKeeps(START, actions);
    var s := Run(START, actions);
    assert NodeGood(s.nodes[s.loop.n], s.loop.n, s.loop, s.locks);
  }

  /** At all times the frames of a node that were pushed are those freed, then the one being sent, then
      those still queued. */
  lemma FramesAreConserved(actions: seq<Action>, n: nat)
    requires n < |Run(START, actions).nodes|
    ensures var f := Run(START, actions).nodes[n].frames;
      f.pushed == f.released + f.held + f.queue && |f.queue| <= 512
  {
    RunKeeps(START, actions);
    var s := Run(START, actions);
    assert NodeGood(s.nodes[n], n, s.loop, s.locks);
  }

  /** After the length check a push is refused if and only if 511 frames can be read and a pop is in flight. */
  lemma RefusedExactlyDuringPop(actions: seq<Action>)
    requires var s := Run(START, actions); s.loop.On? && s.loop.at.Push?
    ensures var s := Run(START, actions);
      && s.loop.n < |s.nodes|
      && var f := s.nodes[s.loop.n].frames; !PushFits(f) <==> |f.queue| == 511 && f.popping
  {
    RunKeeps(START, actions);
    var s := Run(START, actions);
    assert NodeGood(s.nodes[s.loop.n], s.loop.n, s.loop, s.locks);
  }

  /** Nothing is left behind: once the connection is closed, no callback runs and the send task has finished
      or was never started, the node has been freed. */
  lemma NothingLeaks(actions: seq<Action>, n: nat)
    requires Run(START, actions).loop == Idle && n < |Run(START, actions).nodes|
    requires var node := Run(START, actions).nodes[n]; node.conn == Closed && (node.task.Unborn? || node.task.Done?)
    ensures Run(START, actions).nodes[n].freed
  {
    RunKeeps(START, actions);
    var s := Run(START, actions);
    assert NodeGood(s.nodes[n], n, s.loop, s.locks);
  }

  /** At most one of the event loop and the send tasks is between locking and unlocking a bucket. */
  lemma OneOwner(actions: seq<Action>, m: nat, n: nat)
    requires var s := Run(START, actions);
      m < |s.nodes| && n < |s.nodes| && s.nodes[m].key.bucket == s.nodes[n].key.bucket
    ensures var s := Run(START, actions);
      && (TaskLocks(s.nodes[m].task) && TaskLocks(s.nodes[n].task) ==> m == n)
      && !(TaskLocks(s.nodes[m].task) && s.loop.On? && s.loop.n == n && LoopLocks(s.loop.at))
  {
    RunKeeps(START, actions);
    var s := Run(START, actions);
    assert NodeGood(s.nodes[m], m, s.loop, s.locks);
    assert NodeGood(s.nodes[n], n, s.loop, s.locks);
  }
}

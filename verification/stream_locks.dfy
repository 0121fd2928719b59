/** Bucket locks are always given back: in every run the owner of a lock is at a point that holds it, never
    waits for another, and releases it after a bounded number of its own steps. */
module StreamLocks {
  import opened ListRace
  import opened StreamLife
  import opened StreamSystem

  /** Steps a task still takes before it unlocks, counting the unlocking; zero where it has no lock. */
  function TaskHold(task: Task): nat
  {
    match task
    case Walk(_, _, _, v) => if v.Unlink? then 2 else if v.LetGo? then 1 else 0
    case Unlist => 5
    case Drain => 4
    case DropClients => 3
    case FreeNode => 2
    case LastUnlock => 1
    case _ => 0
  }

  /** Writes an append has still to do. */
  function Writes(stage: Stage): nat
  {
    match stage
    case Quiet => 6
    case NextSet => 5
    case PrevSet => 4
    case Threaded => 3
    case Linked => 2
    case Counted => 1
  }

  function LoopHold(at: At, stage: Stage): nat
  {
    match at
    case AddClient(_) => 9
    case Append => 2 + Writes(stage)
    case Connect => 2
    case Flag(_) => 2
    case Unlock => 1
    case DropUnlist(cb) => if cb then 3 else 4
    case DropList(cb) => if cb then 2 else 3
    case DropUnlock => 1
    case DropFree(cb) => if cb then 0 else 2
    case LeaveDisable(cb) => if cb then 2 else 3
    case LeaveUnlock => 1
    case LeaveSet(cb) => if cb then 0 else 2
    case _ => 0
  }

  function Hold(s: State): nat
  {
    match s.loop
    case Idle => 0
    case Seek(_, _, _, _, step) => if step == FindNode then 10 else if step == UnlockBucket then 1 else 0
    case On(n, at) => if n < |s.nodes| then LoopHold(at, s.nodes[n].clients.stage) else 0
  }

  /** The bucket the event loop is busy with. */
  predicate At(s: State, bucket: nat)
  {
    match s.loop
    case Idle => false
    case Seek(key, _, _, _, _) => key.bucket == bucket
    case On(n, _) => n < |s.nodes| && s.nodes[n].key.bucket == bucket
  }

  /** The owner of a lock is at a point that holds it. */
  predicate OwnedRightly(s: State, bucket: nat)
  {
    match OwnerOf(s.locks, bucket)
    case Nobody => true
    case EventLoop => At(s, bucket) && Hold(s) > 0
    case TaskOf(n) => n < |s.nodes| && s.nodes[n].key.bucket == bucket && TaskHold(s.nodes[n].task) > 0
  }

  predicate AllOwned(s: State) { forall bucket :: bucket in s.locks ==> OwnedRightly(s, bucket) }

  // ---------------------------------------------------------------- single steps

  lemma WalkHoldFalls(node: Node, free: bool, b: bool)
    requires TaskHold(node.task) > 0 && node.task.Walk?
    ensures var t := WalkOn(node, free, b);
      t.node.key == node.key && (t.lock == Release <==> TaskHold(node.task) == 1) && t.lock != Take
      && t.node.clients.stage == node.clients.stage
      && (t.lock == Same ==> TaskHold(t.node.task) == TaskHold(node.task) - 1)
  {
  }

  lemma ExitHoldFalls(node: Node, free: bool)
    requires TaskHold(node.task) > 0 && Exiting(node.task)
    ensures var t := ExitOn(node, free);
      t.node.key == node.key && (t.lock == Release <==> TaskHold(node.task) == 1) && t.lock != Take
      && t.node.clients.stage == node.clients.stage
      && (t.lock == Same ==> TaskHold(t.node.task) == TaskHold(node.task) - 1)
  {
  }

  /** A step of a task that holds a lock releases it or comes one step nearer to that. */
  lemma TaskHoldFalls(node: Node, free: bool, b: bool)
    requires TaskHold(node.task) > 0
    ensures var t := TaskOn(node, free, b);
      t.node.key == node.key && (t.lock == Release <==> TaskHold(node.task) == 1) && t.lock != Take
      && t.node.clients.stage == node.clients.stage
      && (t.lock == Same ==> TaskHold(t.node.task) == TaskHold(node.task) - 1)
  {
    if node.task.Walk? { WalkHoldFalls(node, free, b); } else { ExitHoldFalls(node, free); }
  }

  lemma TaskTakes(node: Node, free: bool, b: bool)
    requires TaskHold(node.task) == 0
    ensures var t := TaskOn(node, free, b);
      t.lock != Release && t.node.key == node.key && (t.lock == Take ==> free && TaskHold(t.node.task) > 0)
      && t.node.clients.stage == node.clients.stage
  {
    if Watching(node.task) || node.task.SayFinished? || Sending(node.task) {
      TaskDiscipline(node, free, b);
    } else if Exiting(node.task) {
      ExitTakes(node, free);
    } else if node.task.Walk? {
      WalkTakes(node, free, b);
    }
  }

  lemma ExitTakes(node: Node, free: bool)
    requires TaskHold(node.task) == 0 && Exiting(node.task)
    ensures var t := ExitOn(node, free);
      t.lock != Release && t.node.key == node.key && (t.lock == Take ==> free && TaskHold(t.node.task) > 0)
      && t.node.clients.stage == node.clients.stage
  {
  }

  lemma WalkTakes(node: Node, free: bool, b: bool)
    requires TaskHold(node.task) == 0 && node.task.Walk?
    ensures var t := WalkOn(node, free, b);
      t.lock != Release && t.node.key == node.key && (t.lock == Take ==> free && TaskHold(t.node.task) > 0)
      && t.node.clients.stage == node.clients.stage
  {
  }

  lemma LoopHoldFalls(node: Node, at: At, free: bool, b: bool, x: nat)
    requires LoopHold(at, node.clients.stage) > 0
    ensures var t, h := LoopOn(node, at, free, b, x), LoopHold(at, node.clients.stage);
      t.node.key == node.key && (t.lock == Release <==> h == 1) && t.lock != Take
      && (t.lock == Same ==> t.at != Away && 0 < LoopHold(t.at, t.node.clients.stage) < h)
  {
  }

  lemma LoopTakes(node: Node, at: At, free: bool, b: bool, x: nat)
    requires LoopHold(at, node.clients.stage) == 0
    ensures var t := LoopOn(node, at, free, b, x);
      t.lock != Release && t.node.key == node.key
      && (t.lock == Take ==> free && t.at != Away && LoopHold(t.at, t.node.clients.stage) > 0)
      && (t.lock == Same ==> LoopHold(t.at, t.node.clients.stage) == 0)
  {
  }

  // ---------------------------------------------------------------- every run

  lemma LoopStepOwned(s: State, n: nat, t: LoopTurn)
    requires AllOwned(s) && n < |s.nodes| && t.node.key == s.nodes[n].key
    requires TaskHold(t.node.task) == TaskHold(s.nodes[n].task)
    requires s.loop == Idle || (s.loop.On? && s.loop.n == n)
    requires t.lock == Take ==> Hold(s) == 0 && OwnerOf(s.locks, s.nodes[n].key.bucket) == Nobody
    requires t.lock == Release ==> Hold(s) == 1
    requires t.lock == Take || (t.lock == Same && Hold(s) > 0) ==>
      t.at != Away && LoopHold(t.at, t.node.clients.stage) > 0
    ensures AllOwned(LoopTo(s, n, t))
  {
    var s' := LoopTo(s, n, t);
    forall bucket | bucket in s'.locks ensures OwnedRightly(s', bucket) {
      if bucket in s.locks { assert OwnedRightly(s, bucket); }
    }
  }

  /** A step of the event loop only changes the send task when it queues it. */
  lemma LoopLeavesTask(node: Node, at: At, free: bool, b: bool, x: nat)
    requires at.QueueTask? ==> node.task.Unborn?
    ensures TaskHold(LoopOn(node, at, free, b, x).node.task) == TaskHold(node.task)
  {
  }

  lemma TaskStepOwned(s: State, n: nat, t: TaskTurn)
    requires AllOwned(s) && n < |s.nodes| && t.node.key == s.nodes[n].key
    requires t.lock == Take ==> OwnerOf(s.locks, s.nodes[n].key.bucket) == Nobody && TaskHold(t.node.task) > 0
    requires t.lock == Release ==> TaskHold(s.nodes[n].task) == 1
    requires t.lock == Same && TaskHold(s.nodes[n].task) > 0 ==> TaskHold(t.node.task) > 0
    requires t.node.clients.stage == s.nodes[n].clients.stage
    ensures AllOwned(TaskTo(s, n, t))
  {
    var s' := TaskTo(s, n, t);
    forall bucket | bucket in s'.locks ensures OwnedRightly(s', bucket) {
      if bucket in s.locks { assert OwnedRightly(s, bucket); }
    }
  }

  lemma SeekOwned(s: State)
    requires AllOwned(s) && s.loop.Seek?
    ensures AllOwned(SeekOn(s, s.loop))
  {
    var s' := SeekOn(s, s.loop);
    forall bucket | bucket in s'.locks ensures OwnedRightly(s', bucket) {
      if bucket in s.locks { assert OwnedRightly(s, bucket); }
    }
  }

  lemma BeginOwned(s: State, e: Event)
    requires AllOwned(s) && s.loop == Idle && !s.fault
    ensures AllOwned(Next(s, Begin(e)))
  {
    var s' := Next(s, Begin(e));
    if !e.Play? && !e.Stop? && e.n < |s.nodes| {
      LoopStepOwned(s, e.n, BeginOn(s.nodes[e.n], e));
    } else {
      forall bucket | bucket in s'.locks ensures OwnedRightly(s', bucket) { assert OwnedRightly(s, bucket); }
    }
  }

  lemma LoopGoOwned(s: State, b: bool, x: nat)
    requires Inv(s) && AllOwned(s) && s.loop.On? && !s.fault
    ensures AllOwned(Next(s, LoopGo(b, x)))
  {
    var n, at := s.loop.n, s.loop.at;
    assert NodeGood(s.nodes[n], n, s.loop, s.locks);
    var free := FreeFor(s, n);
    if Hold(s) > 0 { LoopHoldFalls(s.nodes[n], at, free, b, x); } else { LoopTakes(s.nodes[n], at, free, b, x); }
    LoopLeavesTask(s.nodes[n], at, free, b, x);
    LoopStepOwned(s, n, LoopOn(s.nodes[n], at, free, b, x));
  }

  lemma TaskGoOwned(s: State, n: nat, b: bool)
    requires AllOwned(s) && n < |s.nodes| && !s.fault
    ensures AllOwned(Next(s, TaskGo(n, b)))
  {
    var free := FreeFor(s, n);
    if TaskHold(s.nodes[n].task) > 0 { TaskHoldFalls(s.nodes[n], free, b); } else { TaskTakes(s.nodes[n], free, b); }
    TaskStepOwned(s, n, TaskOn(s.nodes[n], free, b));
  }

  lemma NextOwned(s: State, a: Action)
    requires Inv(s) && AllOwned(s) && !s.fault
    ensures AllOwned(Next(s, a))
  {
    match a {
      case Begin(e) => if s.loop == Idle { BeginOwned(s, e); }
      case LoopGo(b, x) => if s.loop.Seek? { SeekOwned(s); } else if s.loop.On? { LoopGoOwned(s, b, x); }
      case TaskGo(n, b) => if n < |s.nodes| { TaskGoOwned(s, n, b); }
    }
  }

  lemma {:induction false} RunOwned(s: State, actions: seq<Action>)
    requires Inv(s) && AllOwned(s)
    ensures Inv(Run(s, actions)) && AllOwned(Run(s, actions))
    decreases |actions|
  {
    if actions != [] {
      if !s.fault { NextOwned(s, actions[0]); }
      NextKeeps(s, actions[0]);
      RunOwned(Next(s, actions[0]), actions[1..]);
    }
  }

  /** A task that owns a bucket lock gives it back after at most five of its own steps: each step either
      unlocks or brings it nearer, whoever else runs in between. */
  lemma TaskGivesBack(actions: seq<Action>, bucket: nat, n: nat, b: bool)
    requires OwnerOf(Run(START, actions).locks, bucket) == TaskOf(n) && !Run(START, actions).fault
    ensures var s := Run(START, actions);
      n < |s.nodes| && var t := Next(s, TaskGo(n, b));
        || OwnerOf(t.locks, bucket) == Nobody
        || (OwnerOf(t.locks, bucket) == TaskOf(n) && TaskHold(t.nodes[n].task) < TaskHold(s.nodes[n].task) <= 5)
  {
    RunOwned(START, actions);
    var s := Run(START, actions);
    assert OwnedRightly(s, bucket);
    TaskHoldFalls(s.nodes[n], FreeFor(s, n), b);
  }

  /** The event loop's next step unlocks or brings the unlocking nearer. */
  predicate Nearer(s: State, t: State, bucket: nat)
  {
    OwnerOf(t.locks, bucket) == Nobody || (OwnerOf(t.locks, bucket) == EventLoop && Hold(t) < Hold(s) <= 10)
  }

  lemma SeekNearer(s: State, bucket: nat)
    requires s.loop.Seek? && At(s, bucket) && Hold(s) > 0 && OwnerOf(s.locks, bucket) == EventLoop
    ensures Nearer(s, SeekOn(s, s.loop), bucket)
  {
  }

  lemma OnNearer(s: State, bucket: nat, b: bool, x: nat)
    requires Inv(s) && !s.fault && s.loop.On? && At(s, bucket) && Hold(s) > 0 && OwnerOf(s.locks, bucket) == EventLoop
    ensures Nearer(s, Next(s, LoopGo(b, x)), bucket)
  {
    LoopHoldFalls(s.nodes[s.loop.n], s.loop.at, FreeFor(s, s.loop.n), b, x);
  }

  /** So does the event loop. */
  lemma LoopGivesBack(actions: seq<Action>, bucket: nat, b: bool, x: nat)
    requires OwnerOf(Run(START, actions).locks, bucket) == EventLoop && !Run(START, actions).fault
    ensures var s := Run(START, actions); Nearer(s, Next(s, LoopGo(b, x)), bucket)
  {
    RunOwned(START, actions);
    var s := Run(START, actions);
    assert OwnedRightly(s, bucket);
    if s.loop.On? { OnNearer(s, bucket, b, x); } else { SeekNearer(s, bucket); }
  }
}

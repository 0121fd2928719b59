/** What the send task of a stream does to its clients: a flagged client that it has looked up goes, whoever steps in
    between; a walk that nothing disturbs removes exactly the flagged ones; and once all are flagged the task can finish
    and the node be freed. */
module StreamWalk {
  import opened ListRace
  import opened StreamLife
  import opened StreamSystem
  import opened StreamEffects

  // ---------------------------------------------------------------- steps of the task alone

  /** Steps of the task of node `n` alone. */
  function Tasks(s: State, n: nat, bs: seq<bool>): State
    decreases |bs|
  {
    if bs == [] then s else Tasks(Next(s, TaskGo(n, bs[0])), n, bs[1..])
  }

  /** Left alone, the task of node `n` can come from `s` to `t`. */
  ghost predicate TasksTo(s: State, t: State, n: nat) { exists bs :: Tasks(s, n, bs) == t }

  lemma {:induction false} TasksSnoc(s: State, n: nat, bs: seq<bool>, b: bool)
    ensures Tasks(s, n, bs + [b]) == Next(Tasks(s, n, bs), TaskGo(n, b))
    decreases |bs|
  {
    if bs == [] {
      assert [b][1..] == [] && bs + [b] == [b];
      assert Tasks(Next(s, TaskGo(n, b)), n, []) == Next(s, TaskGo(n, b));
    } else {
      assert (bs + [b])[1..] == bs[1..] + [b];
      TasksSnoc(Next(s, TaskGo(n, bs[0])), n, bs[1..], b);
    }
  }

  lemma TasksFurther(s: State, t: State, n: nat, b: bool)
    requires TasksTo(s, t, n)
    ensures TasksTo(s, Next(t, TaskGo(n, b)), n)
  {
    var bs :| Tasks(s, n, bs) == t;
    TasksSnoc(s, n, bs, b);
    assert Tasks(s, n, bs + [b]) == Next(t, TaskGo(n, b));
  }

  /** Left alone from `s0` on, the task can make its node `node`. */
  ghost predicate Makes(s0: State, n: nat, node: Node, owner: Owner)
  {
    exists s :: TasksTo(s0, s, n) && Like(s0, s, n, node, owner, s0.loop)
  }

  lemma TaskLike(s0: State, s: State, n: nat, node: Node, owner: Owner, b: bool)
    requires Like(s0, s, n, node, owner, s0.loop)
    requires var t := TaskOn(node, owner == Nobody, b); t.ok && t.node.key == node.key
    ensures var t := TaskOn(node, owner == Nobody, b);
      Like(s0, Next(s, TaskGo(n, b)), n, t.node, Owned(owner, t.lock, TaskOf(n)), s0.loop)
  {
  }

  /** One step. */
  lemma Steps(s0: State, n: nat, node: Node, owner: Owner, b: bool)
    requires Makes(s0, n, node, owner)
    requires var t := TaskOn(node, owner == Nobody, b); t.ok && t.node.key == node.key
    ensures var t := TaskOn(node, owner == Nobody, b); Makes(s0, n, t.node, Owned(owner, t.lock, TaskOf(n)))
  {
    var s :| TasksTo(s0, s, n) && Like(s0, s, n, node, owner, s0.loop);
    TasksFurther(s0, s, n, b);
    TaskLike(s0, s, n, node, owner, b);
    assert TasksTo(s0, Next(s, TaskGo(n, b)), n);
  }

  lemma StartsAs(s0: State, n: nat)
    requires n < |s0.nodes| && !s0.fault
    ensures Makes(s0, n, s0.nodes[n], OwnerOf(s0.locks, s0.nodes[n].key.bucket))
  {
    assert Tasks(s0, n, []) == s0 && s0.nodes[n := s0.nodes[n]] == s0.nodes;
    assert TasksTo(s0, s0, n);
  }

  lemma Made(s0: State, n: nat, node: Node, owner: Owner) returns (t: State)
    requires Makes(s0, n, node, owner)
    ensures TasksTo(s0, t, n) && Like(s0, t, n, node, owner, s0.loop)
  {
    t :| TasksTo(s0, t, n) && Like(s0, t, n, node, owner, s0.loop);
  }

  /** A step of the walk. */
  lemma WalkSteps(s0: State, n: nat, node: Node, owner: Owner, b: bool)
    requires Makes(s0, n, node, owner) && node.task.Walk?
    requires var t := WalkOn(node, owner == Nobody, b); t.ok && t.node.key == node.key
    ensures var t := WalkOn(node, owner == Nobody, b); Makes(s0, n, t.node, Owned(owner, t.lock, TaskOf(n)))
  {
    TaskIsWalk(node, owner == Nobody, b);
    Steps(s0, n, node, owner, b);
  }

  lemma TaskIsWalk(node: Node, free: bool, b: bool)
    requires node.task.Walk?
    ensures TaskOn(node, free, b) == WalkOn(node, free, b)
  {
  }

  // ---------------------------------------------------------------- one client

  /** The clients of a list that nothing is appended to. */
  predicate AtRest(node: Node)
  {
    && !node.freed && node.clients.stage == Quiet && AllLive(node.clients)
    && forall i, j :: 0 <= i < j < |node.clients.list| ==> node.clients.list[i] != node.clients.list[j]
  }

  lemma {:induction false} WithoutAt(list: seq<nat>, k: nat)
    requires k < |list| && forall i, j :: 0 <= i < j < |list| ==> list[i] != list[j]
    ensures Without(list, list[k]) == list[..k] + list[k + 1..]
  {
    if k > 0 {
      WithoutAt(list[1..], k - 1);
      assert list[1..][k - 1] == list[k];
      assert list[..k] == [list[0]] + list[1..][..k - 1];
    }
  }

  /** The undisturbed lookup of a client. */
  lemma {:induction false} Looks(s0: State, n: nat, node: Node)
    requires Makes(s0, n, node, Nobody) && AtRest(node) && node.task.Walk? && node.task.v.Looking?
    requires Exact(MemOf(node.clients), node.task.v.l)
    ensures Makes(s0, n, node.(task := node.task.(v := Test(node.clients.list[node.task.v.l.i]))), Nobody)
    decreases Accesses(|node.clients.list|, node.task.v.l)
  {
    var l := node.task.v.l;
    WalkSteps(s0, n, node, Nobody, false);
    if !l.Found? {
      ExactStep(MemOf(node.clients), l);
      Looks(s0, n, node.(task := node.task.(v := Looking(LookStep(MemOf(node.clients), l)))));
    }
  }

  /** The client at place `k` is off the list and freed. */
  function Gone(cs: Clients, k: nat): Clients
    requires k < |cs.list|
  {
    cs.(list := cs.list[..k] + cs.list[k + 1..], gone := cs.gone + {cs.list[k]})
  }

  /** A flagged client that has been looked up is off the list and freed five steps later. */
  lemma Removes(s0: State, n: nat, node: Node, k: nat)
    requires Makes(s0, n, node, Nobody) && AtRest(node) && node.task.Walk? && k < |node.clients.list|
    requires node.task.v == Test(node.clients.list[k]) && node.clients.list[k] in node.clients.flagged
    ensures var w := node.task;
      var gone := node.(clients := Gone(node.clients, k), task := Walk(w.i, w.left - 1, w.size - 1, Pick));
      Makes(s0, n, gone, Nobody) && AtRest(gone)
  {
    var cs, w, c := node.clients, node.task, node.clients.list[k];
    WalkSteps(s0, n, node, Nobody, false);
    WalkSteps(s0, n, node.(task := w.(v := Await(c))), Nobody, false);
    WalkSteps(s0, n, node.(task := w.(v := Unlink(c))), TaskOf(n), false);
    WithoutAt(cs.list, k);
    Frees(s0, n, node, k);
  }

  lemma Frees(s0: State, n: nat, node: Node, k: nat)
    requires node.task.Walk? && k < |node.clients.list| && AtRest(node)
    requires var c := node.clients.list[k];
      Makes(s0, n, node.(clients := Remove(node.clients, c), task := node.task.(v := LetGo(c))), TaskOf(n))
    ensures var w := node.task;
      var gone := node.(clients := Gone(node.clients, k), task := Walk(w.i, w.left - 1, w.size - 1, Pick));
      Makes(s0, n, gone, Nobody) && AtRest(gone)
  {
    var w, c := node.task, node.clients.list[k];
    var less := node.(clients := Remove(node.clients, c));
    WithoutAt(node.clients.list, k);
    GoneAtRest(node, k);
    WalkSteps(s0, n, less.(task := w.(v := LetGo(c))), TaskOf(n), false);
    FreesOne(s0, n, less.(task := w.(v := Free(c))));
  }

  lemma FreesOne(s0: State, n: nat, node: Node)
    requires Makes(s0, n, node, Nobody) && node.task.Walk? && node.task.v.Free? && !node.freed
    requires node.task.v.c !in node.clients.gone
    ensures var w := node.task;
      var freed := node.(clients := FreeOne(node.clients, w.v.c), task := Walk(w.i, w.left - 1, w.size - 1, Pick));
      Makes(s0, n, freed, Nobody)
  {
    WalkSteps(s0, n, node, Nobody, false);
  }

  lemma GoneAtRest(node: Node, k: nat)
    requires AtRest(node) && k < |node.clients.list|
    ensures AtRest(node.(clients := Gone(node.clients, k)))
  {
    var cs := node.clients;
    var list := cs.list[..k] + cs.list[k + 1..];
    assert forall i :: 0 <= i < |list| ==> list[i] == cs.list[if i < k then i else i + 1];
  }

  // ---------------------------------------------------------------- the walk

  /** The clients of a list that are not flagged, in order. */
  function Unflagged(list: seq<nat>, flagged: set<nat>): seq<nat>
  {
    if list == [] then [] else (if list[0] in flagged then [] else [list[0]]) + Unflagged(list[1..], flagged)
  }

  lemma {:induction false} UnflaggedSnoc(list: seq<nat>, c: nat, flagged: set<nat>)
    ensures Unflagged(list + [c], flagged) == Unflagged(list, flagged) + (if c in flagged then [] else [c])
  {
    if list == [] {
      assert list + [c] == [c] && [c][1..] == [];
    } else {
      assert (list + [c])[1..] == list[1..] + [c];
      UnflaggedSnoc(list[1..], c, flagged);
    }
  }

  /** They are the clients of the list that are not in the set, and keep their order. */
  lemma {:induction false} UnflaggedIs(list: seq<nat>, flagged: set<nat>)
    ensures forall c :: c in Unflagged(list, flagged) <==> c in list && c !in flagged
    ensures (forall c <- list :: c !in flagged) ==> Unflagged(list, flagged) == list
  {
    if list != [] {
      UnflaggedIs(list[1..], flagged);
      assert list == [list[0]] + list[1..];
    }
  }

  lemma NoneLeft(cs: Clients)
    requires forall c <- cs.list :: c in cs.flagged
    ensures Swept(cs).list == []
  {
    UnflaggedIs(cs.list, cs.flagged);
    if Unflagged(cs.list, cs.flagged) != [] { assert Unflagged(cs.list, cs.flagged)[0] in cs.list; }
  }

  /** The flagged clients are off the list and freed, all others are where they were. */
  function Swept(cs: Clients): Clients
  {
    cs.(list := Unflagged(cs.list, cs.flagged), gone := cs.gone + (set c | c in cs.list && c in cs.flagged))
  }

  /** The clients when the first `j` have had their turn. */
  function SweptTo(cs: Clients, j: nat): Clients
    requires j <= |cs.list|
  {
    cs.(list := Unflagged(cs.list[..j], cs.flagged) + cs.list[j..],
        gone := cs.gone + FlaggedOf(cs.list[..j], cs.flagged))
  }

  function FlaggedOf(list: seq<nat>, flagged: set<nat>): set<nat> { set c | c in list && c in flagged }

  predicate HalfSwept(cs: Clients, node: Node, j: nat)
  {
    && j <= |cs.list| && node.clients == SweptTo(cs, j)
    && var i := |Unflagged(cs.list[..j], cs.flagged)|; node.task == Walk(i, |cs.list| - j, i + |cs.list| - j, Pick)
  }

  /** What a turn does to the clients. */
  lemma TurnSweeps(cs: Clients, j: nat)
    requires j < |cs.list|
    ensures var i, now := |Unflagged(cs.list[..j], cs.flagged)|, SweptTo(cs, j);
      && i < |now.list| && now.list[i] == cs.list[j]
      && SweptTo(cs, j + 1) == (if cs.list[j] in cs.flagged then Gone(now, i) else now)
      && |Unflagged(cs.list[..j + 1], cs.flagged)| == (if cs.list[j] in cs.flagged then i else i + 1)
  {
    assert cs.list[..j + 1] == cs.list[..j] + [cs.list[j]];
    UnflaggedSnoc(cs.list[..j], cs.list[j], cs.flagged);
    var front, c := Unflagged(cs.list[..j], cs.flagged), cs.list[j];
    assert cs.list[j..] == [c] + cs.list[j + 1..];
    assert FlaggedOf(cs.list[..j + 1], cs.flagged)
        == FlaggedOf(cs.list[..j], cs.flagged) + if c in cs.flagged then {c} else {};
    if c in cs.flagged {
      var list := front + cs.list[j..];
      assert list[..|front|] + list[|front| + 1..] == front + cs.list[j + 1..];
      assert SweptTo(cs, j + 1).gone == Gone(SweptTo(cs, j), |front|).gone;
    } else {
      assert front + cs.list[j..] == front + [c] + cs.list[j + 1..];
      assert SweptTo(cs, j + 1).gone == SweptTo(cs, j).gone;
    }
  }

  /** The lookup of the client whose turn it is. */
  lemma Finds(s0: State, n: nat, node: Node)
    requires Makes(s0, n, node, Nobody) && AtRest(node) && node.task.Walk? && node.task.v.Pick? && node.task.left > 0
    requires 0 <= node.task.i < |node.clients.list|
    ensures Makes(s0, n, node.(task := node.task.(v := Test(node.clients.list[node.task.i]))), Nobody)
  {
    WalkSteps(s0, n, node, Nobody, false);
    Looks(s0, n, node.(task := node.task.(v := Looking(Check(node.task.i)))));
  }

  lemma OneTurn(s0: State, n: nat, node: Node, cs: Clients, j: nat) returns (next: Node)
    requires Makes(s0, n, node, Nobody) && AtRest(node) && HalfSwept(cs, node, j) && j < |cs.list|
    ensures Makes(s0, n, next, Nobody) && AtRest(next) && HalfSwept(cs, next, j + 1)
        && next == node.(clients := next.clients, task := next.task)
  {
    TurnSweeps(cs, j);
    next := Turns(s0, n, node);
  }

  /** A turn that nothing disturbs. */
  lemma Turns(s0: State, n: nat, node: Node) returns (next: Node)
    requires Makes(s0, n, node, Nobody) && AtRest(node) && node.task.Walk? && node.task.v.Pick? && node.task.left > 0
    requires 0 <= node.task.i < |node.clients.list|
    ensures Makes(s0, n, next, Nobody) && AtRest(next)
    ensures var w, cs := node.task, node.clients;
      next == if cs.list[w.i] in cs.flagged then
                node.(clients := Gone(cs, w.i), task := Walk(w.i, w.left - 1, w.size - 1, Pick))
              else node.(task := Walk(w.i + 1, w.left - 1, w.size, Pick))
  {
    var w, cs := node.task, node.clients;
    Finds(s0, n, node);
    var found := node.(task := w.(v := Test(cs.list[w.i])));
    if cs.list[w.i] in cs.flagged {
      Removes(s0, n, found, w.i);
      next := found.(clients := Gone(cs, w.i), task := Walk(w.i, w.left - 1, w.size - 1, Pick));
    } else {
      Passes(s0, n, found);
      next := node.(task := Walk(w.i + 1, w.left - 1, w.size, Pick));
    }
  }

  /** An unflagged client keeps its place. */
  lemma Passes(s0: State, n: nat, node: Node)
    requires Makes(s0, n, node, Nobody) && !node.freed && node.task.Walk? && node.task.v.Test?
    requires node.task.v.c !in node.clients.flagged && node.task.v.c !in node.clients.gone
    ensures var w := node.task; Makes(s0, n, node.(task := Walk(w.i + 1, w.left - 1, w.size, Pick)), Nobody)
  {
    WalkSteps(s0, n, node, Nobody, false);
  }

  lemma {:induction false} Sweeps(s0: State, n: nat, node: Node, cs: Clients, j: nat) returns (end: Node)
    requires Makes(s0, n, node, Nobody) && AtRest(node) && HalfSwept(cs, node, j)
    ensures Makes(s0, n, end, Nobody) && AtRest(end) && HalfSwept(cs, end, |cs.list|)
        && end == node.(clients := end.clients, task := end.task)
    decreases |cs.list| - j
  {
    if j == |cs.list| {
      end := node;
    } else {
      var next := OneTurn(s0, n, node, cs, j);
      end := Sweeps(s0, n, next, cs, j + 1);
    }
  }

  /** A walk over all clients that nothing disturbs frees exactly the flagged ones; the others stay, in order. */
  lemma WalkSweeps(s0: State, n: nat, node: Node)
    requires Makes(s0, n, node, Nobody) && AtRest(node)
    requires var m := |node.clients.list|; node.task == Walk(0, m, m, Pick)
    ensures var m := |Unflagged(node.clients.list, node.clients.flagged)|;
      var end := node.(clients := Swept(node.clients), task := Walk(m, 0, m, Pick));
      Makes(s0, n, end, Nobody) && AtRest(end)
  {
    var cs := node.clients;
    assert cs.list[..0] == [] && Unflagged([], cs.flagged) == [] && [] + cs.list[0..] == cs.list;
    var end := Sweeps(s0, n, node, cs, 0);
    AllSwept(cs, end);
  }

  lemma AllSwept(cs: Clients, end: Node)
    requires HalfSwept(cs, end, |cs.list|)
    ensures end.clients == Swept(cs)
    ensures var m := |Unflagged(cs.list, cs.flagged)|; end.task == Walk(m, 0, m, Pick)
  {
    assert cs.list[..|cs.list|] == cs.list && cs.list[|cs.list|..] == [];
  }

  // ---------------------------------------------------------------- one round of the task

  /** A step of the loop outside the walk. */
  lemma WatchSteps(s0: State, n: nat, node: Node)
    requires Makes(s0, n, node, Nobody) && (Watching(node.task) || node.task.SayFinished?) && !node.freed
    ensures Makes(s0, n, WatchOn(node).node, Nobody)
  {
    Steps(s0, n, node, Nobody, false);
  }

  lemma SendSteps(s0: State, n: nat, node: Node, b: bool)
    requires Makes(s0, n, node, Nobody) && Sending(node.task) && !node.freed
    requires node.task.PopFrame? ==> node.frames.queue != []
    ensures Makes(s0, n, SendOn(node, b).node, Nobody)
  {
    Steps(s0, n, node, Nobody, b);
  }

  lemma ExitSteps(s0: State, n: nat, node: Node, owner: Owner)
    requires Makes(s0, n, node, owner) && Exiting(node.task)
    requires var t := ExitOn(node, owner == Nobody); t.ok && t.node.key == node.key
    ensures var t := ExitOn(node, owner == Nobody); Makes(s0, n, t.node, Owned(owner, t.lock, TaskOf(n)))
  {
    Steps(s0, n, node, owner, false);
  }

  /** One frame has been taken off the queue, sent and freed, and the flagged clients are gone. */
  function FrameSent(node: Node): Node
    requires node.frames.queue != []
  {
    var f := node.frames;
    node.(clients := Swept(node.clients),
          frames := f.(queue := f.queue[1..], popping := false, held := [], released := f.released + [f.queue[0]]))
  }

  /** The head of the loop. */
  predicate AtHead(node: Node)
  {
    node.task == CheckReceiver && AtRest(node) && node.frames.held == [] && !node.frames.popping
  }

  /** A round with too few frames, or with enough. */
  lemma Watches(s0: State, n: nat, node: Node)
    requires Makes(s0, n, node, Nobody) && AtHead(node) && node.g != 2 && |node.clients.list| > 0
    ensures Makes(s0, n, node.(task := if |node.frames.queue| > 15 then PopFrame else CheckReceiver), Nobody)
  {
    WatchSteps(s0, n, node);
    WatchSteps(s0, n, node.(task := CheckClients));
    WatchSteps(s0, n, node.(task := ReadLength));
  }

  lemma Sends(s0: State, n: nat, node: Node)
    requires Makes(s0, n, node.(task := PopFrame), Nobody) && AtHead(node) && |node.frames.queue| > 15
    ensures Makes(s0, n, FrameSent(node), Nobody) && AtHead(FrameSent(node))
  {
    var m, f := |node.clients.list|, PopOne(node.frames);
    SendSteps(s0, n, node.(task := PopFrame), true);
    SendSteps(s0, n, node.(frames := f, task := PopDone), true);
    var held := node.(frames := f.(popping := false));
    SendSteps(s0, n, held.(task := PassStart), true);
    SendsOne(s0, n, node, held, m);
  }

  lemma SendsOne(s0: State, n: nat, node: Node, held: Node, m: nat)
    requires AtHead(node) && node.frames.queue != [] && m == |node.clients.list|
    requires held == node.(frames := PopOne(node.frames).(popping := false))
    requires Makes(s0, n, held.(task := Walk(0, m, m, Pick)), Nobody)
    ensures Makes(s0, n, FrameSent(node), Nobody) && AtHead(FrameSent(node))
  {
    WalkSweeps(s0, n, held.(task := Walk(0, m, m, Pick)));
    var swept := held.(clients := Swept(node.clients));
    EndsFrame(s0, n, swept, |Unflagged(node.clients.list, node.clients.flagged)|);
    assert FrameSent(node) == swept.(frames := ReleaseHeld(swept.frames), task := CheckReceiver);
  }

  lemma EndsFrame(s0: State, n: nat, node: Node, k: nat)
    requires Makes(s0, n, node.(task := Walk(k, 0, k, Pick)), Nobody) && !node.freed
    ensures Makes(s0, n, node.(frames := ReleaseHeld(node.frames), task := CheckReceiver), Nobody)
  {
    WalkSteps(s0, n, node.(task := Walk(k, 0, k, Pick)), Nobody, false);
    SendSteps(s0, n, node.(task := FreeFrame), false);
  }

  /** The round that finds no clients. */
  lemma SaysFinished(s0: State, n: nat, node: Node)
    requires Makes(s0, n, node, Nobody) && AtHead(node) && node.g != 2 && node.clients.list == []
    ensures Makes(s0, n, node.(s := 2, task := AwaitReceiver), Nobody)
  {
    WatchSteps(s0, n, node);
    WatchSteps(s0, n, node.(task := CheckClients));
    WatchSteps(s0, n, node.(task := SayFinished));
    ExitSteps(s0, n, node.(s := 2, task := AtExit), Nobody);
  }

  /** The task takes the node down with it. */
  function TakenDown(node: Node): Node
  {
    var cs, f := node.clients, node.frames;
    node.(listed := false, freed := true, task := Done,
          clients := cs.(gone := cs.gone + (set c | c in cs.list), list := []),
          frames := f.(released := f.released + f.queue, queue := []))
  }

  /** Once the receiver has left and the task waits for the lock. */
  lemma TakesDown(s0: State, n: nat, node: Node)
    requires Makes(s0, n, node.(task := LockTable), Nobody) && AtRest(node)
    ensures Makes(s0, n, TakenDown(node), Nobody)
  {
    Unlists(s0, n, node);
    var drained := node.(listed := false, frames := ReleaseAll(node.frames));
    ExitSteps(s0, n, node.(listed := false, task := Drain), TaskOf(n));
    TakesDownRest(s0, n, node, drained);
  }

  lemma Unlists(s0: State, n: nat, node: Node)
    requires Makes(s0, n, node.(task := LockTable), Nobody) && !node.freed
    ensures Makes(s0, n, node.(listed := false, task := Drain), TaskOf(n))
  {
    ExitSteps(s0, n, node.(task := LockTable), Nobody);
    ExitSteps(s0, n, node.(task := Unlist), TaskOf(n));
  }

  lemma TakesDownRest(s0: State, n: nat, node: Node, drained: Node)
    requires Makes(s0, n, drained.(task := DropClients), TaskOf(n)) && AtRest(node)
    requires drained == node.(listed := false, frames := ReleaseAll(node.frames))
    ensures Makes(s0, n, TakenDown(node), Nobody)
  {
    ExitSteps(s0, n, drained.(task := DropClients), TaskOf(n));
    var emptied := drained.(clients := FreeAll(node.clients));
    FreesNode(s0, n, emptied);
    assert TakenDown(node) == emptied.(freed := true, task := Done);
  }

  lemma FreesNode(s0: State, n: nat, node: Node)
    requires Makes(s0, n, node.(task := FreeNode), TaskOf(n)) && !node.freed
    ensures Makes(s0, n, node.(freed := true, task := Done), Nobody)
  {
    ExitSteps(s0, n, node.(task := FreeNode), TaskOf(n));
    ExitSteps(s0, n, node.(freed := true, task := LastUnlock), TaskOf(n));
  }

  // ---------------------------------------------------------------- from every reachable state

  /** The task of node `n` is not disturbed: nobody has the lock. */
  predicate Undisturbed(s: State, n: nat)
  {
    n < |s.nodes| && !s.fault && OwnerOf(s.locks, s.nodes[n].key.bucket) == Nobody
  }

  /** All nodes but this one are as they were. */
  predicate OthersAs(s: State, t: State, n: nat)
  {
    n < |s.nodes| && |t.nodes| == |s.nodes| && forall m :: 0 <= m < |s.nodes| && m != n ==> t.nodes[m] == s.nodes[m]
  }

  lemma IsAtRest(s: State, n: nat)
    requires Inv(s) && Undisturbed(s, n)
    ensures var node := s.nodes[n];
      && (Midway(node.task) || Exiting(node.task) ==> AtRest(node))
      && (node.task == CheckReceiver ==> AtHead(node))
  {
    assert NodeGood(s.nodes[n], n, s.loop, s.locks);
    GoodIsLive(s.nodes[n].clients, Hand(s.nodes[n].task));
    if s.nodes[n].task == CheckReceiver { assert s.nodes[n].frames.held == []; }
  }

  lemma {:induction false} TasksKeep(s: State, n: nat, bs: seq<bool>)
    requires Inv(s)
    ensures Inv(Tasks(s, n, bs))
    decreases |bs|
  {
    if bs != [] {
      NextKeeps(s, TaskGo(n, bs[0]));
      TasksKeep(Next(s, TaskGo(n, bs[0])), n, bs[1..]);
    }
  }

  /** In every reachable state a walk that begins now and is not disturbed frees exactly the flagged clients of its
      list; the others stay listed, in order, and nothing else changes. */
  lemma WalkEffect(before: seq<Action>, n: nat) returns (t: State)
    requires var s := Run(START, before);
      && Undisturbed(s, n)
      && s.nodes[n].task == Walk(0, |s.nodes[n].clients.list|, |s.nodes[n].clients.list|, Pick)
    ensures TasksTo(Run(START, before), t, n) && OthersAs(Run(START, before), t, n)
    ensures var s := Run(START, before);
      var node, cs := t.nodes[n], s.nodes[n].clients;
      && node == s.nodes[n].(clients := node.clients, task := Walk(|node.clients.list|, 0, |node.clients.list|, Pick))
      && node.clients == cs.(list := Unflagged(cs.list, cs.flagged), gone := node.clients.gone)
      && (forall c :: c in node.clients.list <==> c in cs.list && c !in cs.flagged)
      && (forall c :: c in node.clients.gone <==> c in cs.gone || (c in cs.list && c in cs.flagged))
  {
    var s := Run(START, before);
    RunKeeps(START, before);
    IsAtRest(s, n);
    StartsAs(s, n);
    WalkSweeps(s, n, s.nodes[n]);
    var cs := s.nodes[n].clients;
    var m := |Unflagged(cs.list, cs.flagged)|;
    UnflaggedIs(cs.list, cs.flagged);
    t := Made(s, n, s.nodes[n].(clients := Swept(cs), task := Walk(m, 0, m, Pick)), Nobody);
  }

  /** Once the receiver has left. */
  lemma Leaves(s0: State, n: nat, node: Node)
    requires Makes(s0, n, node, Nobody) && AtHead(node) && node.g == 2
    ensures Makes(s0, n, TakenDown(node), Nobody)
  {
    WatchSteps(s0, n, node);
    ExitSteps(s0, n, node.(task := AtExit), Nobody);
    if node.s == 2 { ExitSteps(s0, n, node.(task := AwaitReceiver), Nobody); }
    TakesDown(s0, n, node);
  }

  /** What one round of the task does: it takes the node down once the receiver has left, says that it has finished when
      nobody is listed, sends the next frame, of video, if more than fifteen wait, and otherwise leaves everything as
      it is. */
  function Round(node: Node): Node
  {
    if node.g == 2 then TakenDown(node)
    else if node.clients.list == [] then node.(s := 2, task := AwaitReceiver)
    else if |node.frames.queue| > 15 then FrameSent(node)
    else node
  }

  lemma Rounds(s0: State, n: nat, node: Node)
    requires Makes(s0, n, node, Nobody) && AtHead(node)
    ensures Makes(s0, n, Round(node), Nobody)
  {
    if node.g == 2 { Leaves(s0, n, node); }
    else if node.clients.list == [] { SaysFinished(s0, n, node); }
    else {
      Watches(s0, n, node);
      if |node.frames.queue| > 15 { Sends(s0, n, node); }
    }
  }

  /** In every reachable state at the head of the loop. */
  lemma RoundEffect(before: seq<Action>, n: nat) returns (t: State)
    requires var s := Run(START, before); Undisturbed(s, n) && s.nodes[n].task == CheckReceiver
    ensures TasksTo(Run(START, before), t, n) && OthersAs(Run(START, before), t, n)
    ensures t.nodes[n] == Round(Run(START, before).nodes[n])
  {
    var s := Run(START, before);
    RunKeeps(START, before);
    IsAtRest(s, n);
    StartsAs(s, n);
    Rounds(s, n, s.nodes[n]);
    t := Made(s, n, Round(s.nodes[n]), Nobody);
  }

  // ---------------------------------------------------------------- when the task finishes

  /** With too few frames and somebody listed the task goes round and round. */
  predicate Circling(node: Node, now: Node)
  {
    && (now.task == CheckReceiver || now.task == CheckClients || now.task == ReadLength)
    && now == node.(task := now.task)
  }

  lemma {:induction false} CirclesOn(s: State, n: nat, node: Node, bs: seq<bool>)
    requires n < |s.nodes| && Circling(node, s.nodes[n])
    requires node.g != 2 && node.clients.stage == Quiet && node.clients.list != [] && |node.frames.queue| <= 15
    ensures var t := Tasks(s, n, bs); n < |t.nodes| && Circling(node, t.nodes[n])
    decreases |bs|
  {
    if bs != [] { CirclesOn(Next(s, TaskGo(n, bs[0])), n, node, bs[1..]); }
  }

  /** The task has said that it has finished. */
  predicate HasFinished(s: State, n: nat) { n < |s.nodes| && s.nodes[n].s == 2 && s.nodes[n].task == AwaitReceiver }

  lemma FinishesIf(s: State, n: nat, node: Node)
    requires Undisturbed(s, n) && node == s.nodes[n] && AtHead(node) && node.g != 2
    requires node.clients.list == [] || |node.frames.queue| > 15
    requires forall c <- node.clients.list :: c in node.clients.flagged
    ensures exists t :: TasksTo(s, t, n) && HasFinished(t, n)
  {
    StartsAs(s, n);
    if node.clients.list == [] {
      SaysFinished(s, n, node);
      var t := Made(s, n, node.(s := 2, task := AwaitReceiver), Nobody);
    } else {
      Watches(s, n, node);
      Sends(s, n, node);
      NoneLeft(node.clients);
      SaysFinished(s, n, FrameSent(node));
      var t := Made(s, n, FrameSent(node).(s := 2, task := AwaitReceiver), Nobody);
    }
  }

  /** Once every client is flagged, the task left alone finishes if and only if nobody is listed any more or enough
      frames wait for one more of them to be sent. */
  lemma TaskFinishesExactly(before: seq<Action>, n: nat)
    requires var s := Run(START, before);
      Undisturbed(s, n) && s.nodes[n].task == CheckReceiver && s.nodes[n].g != 2
    requires var cs := Run(START, before).nodes[n].clients; forall c <- cs.list :: c in cs.flagged
    ensures var s := Run(START, before);
      (exists t :: TasksTo(s, t, n) && HasFinished(t, n))
      <==> s.nodes[n].clients.list == [] || |s.nodes[n].frames.queue| > 15
  {
    var s := Run(START, before);
    var node := s.nodes[n];
    RunKeeps(START, before);
    IsAtRest(s, n);
    if node.clients.list == [] || |node.frames.queue| > 15 {
      FinishesIf(s, n, node);
    } else {
      forall t | TasksTo(s, t, n) ensures !HasFinished(t, n) {
        var bs :| Tasks(s, n, bs) == t;
        CirclesOn(s, n, node, bs);
      }
    }
  }

  // ---------------------------------------------------------------- the node is freed

  /** What is done is a step of the task of node `n`, a step of the event loop, or a frame for the node. */
  predicate FramesOnly(actions: seq<Action>, n: nat)
  {
    forall a <- actions :: (a.TaskGo? && a.n == n) || a.LoopGo? || (a.Begin? && a.e.FrameDone? && a.e.n == n)
  }

  lemma {:induction false} RunSplit(s: State, first: seq<Action>, second: seq<Action>)
    ensures Run(s, first + second) == Run(Run(s, first), second)
    decreases |first|
  {
    if first == [] {
      assert first + second == second;
    } else {
      assert (first + second)[1..] == first[1..] + second;
      RunSplit(Next(s, first[0]), first[1..], second);
    }
  }

  /** `more` leads from `s0` to a state in which only node `n` differs. */
  predicate Leads(s0: State, more: seq<Action>, n: nat, node: Node)
  {
    var t := Run(s0, more);
    && FramesOnly(more, n) && Inv(t) && n < |s0.nodes| && t.nodes == s0.nodes[n := node] && node.key == s0.nodes[n].key
    && Calm(t, node.key.bucket)
  }

  lemma {:induction false} TasksAreRun(s: State, n: nat, bs: seq<bool>) returns (more: seq<Action>)
    ensures FramesOnly(more, n) && Run(s, more) == Tasks(s, n, bs)
    decreases |bs|
  {
    if bs == [] {
      more := [];
    } else {
      var a := TaskGo(n, bs[0]);
      var rest := TasksAreRun(Next(s, a), n, bs[1..]);
      more := [a] + rest;
    }
  }

  lemma {:induction false} LoopsAreRun(s: State, n: nat, k: nat, b: bool, x: nat) returns (more: seq<Action>)
    ensures FramesOnly(more, n) && Run(s, more) == Loops(s, k, b, x)
    decreases k
  {
    if k == 0 {
      more := [];
    } else {
      var a := LoopGo(b, x);
      var rest := LoopsAreRun(Next(s, a), n, k - 1, b, x);
      more := [a] + rest;
    }
  }

  /** The task goes on. */
  lemma ByTask(s0: State, more: seq<Action>, n: nat, node: Node, next: Node) returns (on: seq<Action>)
    requires Leads(s0, more, n, node) && Makes(Run(s0, more), n, next, Nobody)
    ensures Leads(s0, on, n, next)
  {
    var s := Run(s0, more);
    var t := Made(s, n, next, Nobody);
    var bs :| Tasks(s, n, bs) == t;
    TasksKeep(s, n, bs);
    var steps := TasksAreRun(s, n, bs);
    on := more + steps;
    RunSplit(s0, more, steps);
    assert s0.nodes[n := node][n := next] == s0.nodes[n := next];
  }

  /** A frame is completed. */
  lemma ByFrame(s0: State, more: seq<Action>, n: nat, node: Node, x: nat) returns (on: seq<Action>)
    requires Leads(s0, more, n, node) && node.conn == Streaming
    ensures Leads(s0, on, n, Framed(node, false, true, x))
  {
    var s := Run(s0, more);
    var t := FrameEffect(s, n, false, true, x);
    var a := Begin(FrameDone(n, false, true));
    var k: nat :| Loops(Next(s, a), k, false, x) == t;
    var rest := LoopsAreRun(Next(s, a), n, k, false, x);
    assert Run(s, [a] + rest) == t;
    on := more + ([a] + rest);
    RunSplit(s0, more, [a] + rest);
    RunKeeps(s, [a] + rest);
    assert s0.nodes[n := node][n := Framed(node, false, true, x)] == s0.nodes[n := Framed(node, false, true, x)];
  }

  /** A round of the task. */
  lemma ByRound(s0: State, more: seq<Action>, n: nat, node: Node) returns (on: seq<Action>)
    requires Leads(s0, more, n, node) && AtHead(node)
    ensures Leads(s0, on, n, Round(node))
  {
    StartsAs(Run(s0, more), n);
    Rounds(Run(s0, more), n, node);
    on := ByTask(s0, more, n, node, Round(node));
  }

  /** A node at the head of the loop whose clients are all flagged. */
  predicate Deserted(node: Node)
  {
    AtHead(node) && node.conn == Streaming && node.s == 1 && forall c <- node.clients.list :: c in node.clients.flagged
  }

  /** Frames come in until enough wait. */
  lemma {:induction false} Fills(s0: State, more: seq<Action>, n: nat, node: Node)
    returns (on: seq<Action>, full: Node)
    requires Leads(s0, more, n, node) && Deserted(node) && node.clients.list != []
    ensures Leads(s0, on, n, full) && Deserted(full) && |full.frames.queue| > 15 && full.g == node.g
    ensures full.clients == node.clients
    decreases 16 - |node.frames.queue|
  {
    if |node.frames.queue| > 15 {
      on, full := more, node;
    } else {
      on := ByFrame(s0, more, n, node, 0);
      on, full := Fills(s0, on, n, Framed(node, false, true, 0));
    }
  }

  /** Until nobody is listed. */
  lemma Empties(s0: State, more: seq<Action>, n: nat, node: Node) returns (on: seq<Action>, empty: Node)
    requires Leads(s0, more, n, node) && Deserted(node) && node.g != 2
    ensures Leads(s0, on, n, empty) && Deserted(empty) && empty.clients.list == [] && empty.g != 2
  {
    on, empty := more, node;
    if node.clients.list != [] {
      var full;
      on, full := Fills(s0, more, n, node);
      NoneLeft(full.clients);
      StartsAs(Run(s0, on), n);
      Watches(Run(s0, on), n, full);
      Sends(Run(s0, on), n, full);
      on := ByTask(s0, on, n, full, FrameSent(full));
      empty := FrameSent(full);
    }
  }

  /** Then the task finishes, the next frame makes the event loop give the connection up, and the task frees the
      node. */
  lemma Finishes(s0: State, more: seq<Action>, n: nat, node: Node) returns (on: seq<Action>, last: Node)
    requires Leads(s0, more, n, node) && Deserted(node) && node.clients.list == [] && node.g != 2
    ensures Leads(s0, on, n, TakenDown(last))
  {
    on := ByRound(s0, more, n, node);
    var done := node.(s := 2, task := AwaitReceiver);
    on := ByFrame(s0, on, n, done, 0);
    last := done.(conn := Closed, g := 2);
    StartsAs(Run(s0, on), n);
    ExitSteps(Run(s0, on), n, last, Nobody);
    TakesDown(Run(s0, on), n, last);
    on := ByTask(s0, on, n, last, TakenDown(last));
  }

  lemma Ending(s0: State, n: nat) returns (more: seq<Action>, node: Node)
    requires Inv(s0) && n < |s0.nodes| && Calm(s0, s0.nodes[n].key.bucket) && s0.nodes[n].task == CheckReceiver
    requires var cs := s0.nodes[n].clients; forall c <- cs.list :: c in cs.flagged
    ensures Leads(s0, more, n, TakenDown(node))
  {
    more, node := [], s0.nodes[n];
    IsAtRest(s0, n);
    assert NodeGood(node, n, s0.loop, s0.locks);
    assert s0.nodes[n := node] == s0.nodes;
    assert Leads(s0, [], n, node);
    if node.g == 2 {
      more := ByRound(s0, [], n, node);
    } else if node.s == 2 {
      more := ByFrame(s0, [], n, node, 0);
      node := node.(conn := Closed, g := 2);
      more := ByRound(s0, more, n, node);
    } else {
      more, node := Empties(s0, [], n, node);
      more, node := Finishes(s0, more, n, node);
    }
  }

  /** Once every client is flagged, frames alone, with no error, bring the node to its end: out of the table and freed,
      with every client it ever had. */
  lemma FreedAtLast(before: seq<Action>, n: nat) returns (more: seq<Action>)
    requires var s := Run(START, before);
      n < |s.nodes| && Calm(s, s.nodes[n].key.bucket) && s.nodes[n].task == CheckReceiver
    requires var cs := Run(START, before).nodes[n].clients; forall c <- cs.list :: c in cs.flagged
    ensures FramesOnly(more, n) && OthersAs(Run(START, before), Run(START, before + more), n)
    ensures var node := Run(START, before + more).nodes[n];
      && node.freed && !node.listed && node.task == Done && node.clients.list == []
      && (forall c: nat :: c in node.clients.gone <==> c < node.clients.born)
      && node.frames.released == node.frames.pushed
  {
    var s := Run(START, before);
    RunKeeps(START, before);
    var node;
    more, node := Ending(s, n);
    RunSplit(START, before, more);
    FreedWhenBothAreDone(before + more, n);
  }
}

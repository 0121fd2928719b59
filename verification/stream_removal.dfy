/** What becomes of one client while the event loop and all send tasks go on: a flagged client that the send task has
    looked up is freed within five steps of that task for which the bucket lock is free, and an unflagged one stays
    listed as long as the node is in the table. */
module StreamRemoval {
  import opened ListRace
  import opened StreamLife
  import opened StreamSystem
  import opened StreamWalk

  /** A step of the task of node `n` with the bucket lock free, or its own. */
  predicate Granted(s: State, a: Action, n: nat)
  {
    && a.TaskGo? && a.n == n && n < |s.nodes|
    && (OwnerOf(s.locks, s.nodes[n].key.bucket) == Nobody || TaskLocks(s.nodes[n].task))
  }

  /** How many there are. */
  function Grants(s: State, more: seq<Action>, n: nat): nat
    decreases |more|
  {
    if more == [] then 0 else (if Granted(s, more[0], n) then 1 else 0) + Grants(Next(s, more[0]), more[1..], n)
  }

  /** The list without its place `k`. */
  function Cut(list: seq<nat>, k: nat): seq<nat>
    requires k < |list|
  {
    list[..k] + list[k + 1..]
  }

  /** The task has `p` of its five steps with client `k` of `was` behind it.  In the meantime others may have been
      appended. */
  predicate Between(was: Clients, k: nat, node: Node, p: nat)
    requires k < |was.list|
  {
    && node.task.Walk? && Held(node.task.v, was.list[k], p) && was.list[k] in node.clients.flagged
    && node.clients.gone == was.gone
    && (if p <= 2 then was.list else Cut(was.list, k)) <= node.clients.list
  }

  predicate Held(v: Visit, c: nat, p: nat)
  {
    || (p == 0 && v == Test(c)) || (p == 1 && v == Await(c)) || (p == 2 && v == Unlink(c)) || (p == 3 && v == LetGo(c))
    || (p == 4 && v == Free(c))
  }

  /** Client `k` of `was` is off the list and freed; the others are as they were, but for those appended. */
  predicate Removed(was: Clients, k: nat, now: Clients)
    requires k < |was.list|
  {
    Cut(was.list, k) <= now.list && now.gone == was.gone + {was.list[k]}
  }

  // ---------------------------------------------------------------- steps of the others

  /** What any step but the task's own does to a node whose task walks. */
  predicate Extended(node: Node, now: Node)
  {
    && now.task == node.task && now.key == node.key && node.clients.list <= now.clients.list
    && now.clients.gone == node.clients.gone && node.clients.flagged <= now.clients.flagged
  }

  lemma ServeExtends(node: Node, at: At, b: bool)
    requires Serving(at)
    ensures Extended(node, ServeOn(node, at, b).node)
  {
  }

  lemma LoopExtends(node: Node, at: At, free: bool, mine: bool, loops: bool, b: bool, x: nat)
    requires Good(node, at, mine, loops) && node.task.Walk?
    ensures Extended(node, LoopOn(node, at, free, b, x).node)
  {
    if Serving(at) { ServeExtends(node, at, b); }
  }

  lemma LoopGoExtends(s: State, n: nat, b: bool, x: nat)
    requires Inv(s) && n < |s.nodes| && s.nodes[n].task.Walk? && !s.fault
    ensures var t := Next(s, LoopGo(b, x)); n < |t.nodes| && Extended(s.nodes[n], t.nodes[n])
  {
    assert NodeGood(s.nodes[n], n, s.loop, s.locks);
    if s.loop.On? && s.loop.n == n {
      var o := OwnerOf(s.locks, s.nodes[n].key.bucket);
      LoopExtends(s.nodes[n], s.loop.at, o == Nobody, o == TaskOf(n), o == EventLoop, b, x);
    }
  }

  lemma OthersExtend(s: State, a: Action, n: nat)
    requires Inv(s) && n < |s.nodes| && s.nodes[n].task.Walk? && !(a.TaskGo? && a.n == n)
    ensures var t := Next(s, a); n < |t.nodes| && Extended(s.nodes[n], t.nodes[n])
  {
    if s.fault { return; }
    match a {
      case Begin(e) =>
      case LoopGo(b, x) => LoopGoExtends(s, n, b, x);
      case TaskGo(m, b) =>
    }
  }

  // ---------------------------------------------------------------- the removal

  lemma {:induction false} WithoutPrefix(list: seq<nat>, more: seq<nat>, k: nat)
    requires k < |list| && list <= more && forall i, j :: 0 <= i < j < |more| ==> more[i] != more[j]
    ensures Cut(list, k) <= Without(more, list[k])
  {
    WithoutAt(more, k);
    assert more[k] == list[k];
  }

  /** The task's own step. */
  lemma OwnStep(was: Clients, k: nat, node: Node, p: nat, free: bool, b: bool)
    requires k < |was.list| && Between(was, k, node, p)
    requires forall i, j :: 0 <= i < j < |node.clients.list| ==> node.clients.list[i] != node.clients.list[j]
    ensures var t := WalkOn(node, free, b).node;
      if p == 1 && !free then t == node
      else if p == 4 then Removed(was, k, t.clients)
      else Between(was, k, t, p + 1)
  {
    if p == 2 { WithoutPrefix(was.list, node.clients.list, k); }
  }

  /** One step, whoever makes it. */
  lemma OneStep(s: State, a: Action, n: nat, was: Clients, k: nat, p: nat) returns (q: nat)
    requires Inv(s) && n < |s.nodes| && k < |was.list| && Between(was, k, s.nodes[n], p) && !Next(s, a).fault
    ensures n < |Next(s, a).nodes| && q <= 5
    ensures var now := Next(s, a).nodes[n]; if q == 5 then Removed(was, k, now.clients) else Between(was, k, now, q)
    ensures q == p || q == p + 1
    ensures Granted(s, a, n) ==> q == p + 1
  {
    if a.TaskGo? && a.n == n {
      assert NodeGood(s.nodes[n], n, s.loop, s.locks);
      OwnStep(was, k, s.nodes[n], p, FreeFor(s, n), a.b);
      TaskIsWalk(s.nodes[n], FreeFor(s, n), a.b);
      q := if p == 1 && !FreeFor(s, n) then p else p + 1;
    } else {
      OthersExtend(s, a, n);
      q := p;
    }
  }

  lemma {:induction false} FaultStays(s: State, more: seq<Action>)
    requires s.fault
    ensures Run(s, more) == s
    decreases |more|
  {
    if more != [] { FaultStays(Next(s, more[0]), more[1..]); }
  }

  lemma {:induction false} Goes(s: State, more: seq<Action>, n: nat, was: Clients, k: nat, p: nat) returns (j: nat)
    requires Inv(s) && n < |s.nodes| && k < |was.list| && p <= 4 && Between(was, k, s.nodes[n], p)
    requires !Run(s, more).fault && Grants(s, more, n) + p >= 5
    ensures j <= |more| && Grants(s, more[..j], n) + p <= 5
    ensures var u := Run(s, more[..j]); n < |u.nodes| && Removed(was, k, u.nodes[n].clients)
    decreases |more|
  {
    var next := Next(s, more[0]);
    if next.fault { FaultStays(next, more[1..]); }
    NextKeeps(s, more[0]);
    var q := OneStep(s, more[0], n, was, k, p);
    j := 0;
    if q != 5 { j := Goes(next, more[1..], n, was, k, q); }
    OneBefore(s, more, n, j);
    j := j + 1;
  }

  /** The first step with `j` more. */
  lemma OneBefore(s: State, more: seq<Action>, n: nat, j: nat)
    requires j < |more|
    ensures Run(s, more[..j + 1]) == Run(Next(s, more[0]), more[1..][..j])
    ensures Grants(s, more[..j + 1], n)
         == Grants(Next(s, more[0]), more[1..][..j], n) + if Granted(s, more[0], n) then 1 else 0
  {
    assert more[..j + 1][0] == more[0] && more[..j + 1][1..] == more[1..][..j];
  }

  // ---------------------------------------------------------------- what stays

  lemma LoopForgetsNone(node: Node, at: At, free: bool, b: bool, x: nat)
    ensures var t := LoopOn(node, at, free, b, x).node.clients;
      node.clients.gone <= t.gone && node.clients.flagged <= t.flagged
  {
  }

  lemma TaskForgetsNone(node: Node, free: bool, b: bool)
    ensures var t := TaskOn(node, free, b).node.clients;
      node.clients.gone <= t.gone && node.clients.flagged == t.flagged
  {
    if node.task.Walk? {
      WalkForgetsNone(node, free, b);
    } else if Exiting(node.task) {
      ExitForgetsNone(node, free);
    }
  }

  lemma WalkForgetsNone(node: Node, free: bool, b: bool)
    requires node.task.Walk?
    ensures var t := WalkOn(node, free, b).node.clients;
      node.clients.gone <= t.gone && node.clients.flagged == t.flagged
  {
  }

  lemma ExitForgetsNone(node: Node, free: bool)
    requires Exiting(node.task)
    ensures var t := ExitOn(node, free).node.clients; node.clients.gone <= t.gone && node.clients.flagged == t.flagged
  {
  }

  lemma NextForgetsNone(s: State, a: Action, n: nat)
    requires n < |s.nodes|
    ensures var t := Next(s, a);
      && n < |t.nodes| && s.nodes[n].clients.gone <= t.nodes[n].clients.gone
      && s.nodes[n].clients.flagged <= t.nodes[n].clients.flagged && (t.nodes[n].listed ==> s.nodes[n].listed)
  {
    if s.fault { return; }
    if a.LoopGo? && s.loop.On? && s.loop.n == n {
      LoopForgetsNone(s.nodes[n], s.loop.at, FreeFor(s, n), a.b, a.x);
      LoopDiscipline(s.nodes[n], s.loop.at, FreeFor(s, n), a.b, a.x);
    }
    if a.TaskGo? && a.n == n {
      TaskForgetsNone(s.nodes[n], FreeFor(s, n), a.b);
      TaskDiscipline(s.nodes[n], FreeFor(s, n), a.b);
    }
  }

  /** Clients freed stay freed, flagged ones flagged, and a node out of the table stays out. */
  lemma {:induction false} RunForgetsNone(s: State, more: seq<Action>, n: nat)
    requires n < |s.nodes|
    ensures var t := Run(s, more);
      && n < |t.nodes| && s.nodes[n].clients.gone <= t.nodes[n].clients.gone
      && s.nodes[n].clients.flagged <= t.nodes[n].clients.flagged && (t.nodes[n].listed ==> s.nodes[n].listed)
    decreases |more|
  {
    if more != [] {
      NextForgetsNone(s, more[0], n);
      RunForgetsNone(Next(s, more[0]), more[1..], n);
    }
  }

  /** A flagged client that the send task has looked up is, whatever all others do, off the list and freed once that
      task has made five steps for which the lock was free, and does not come back.  At the moment it is freed all
      other clients are where they were. */
  lemma FlaggedClientGoes(before: seq<Action>, more: seq<Action>, n: nat, k: nat) returns (j: nat)
    requires var s := Run(START, before);
      && n < |s.nodes| && k < |s.nodes[n].clients.list| && s.nodes[n].clients.list[k] in s.nodes[n].clients.flagged
      && s.nodes[n].task.Walk? && s.nodes[n].task.v == Test(s.nodes[n].clients.list[k])
      && !Run(s, more).fault && Grants(s, more, n) >= 5
    ensures var s := Run(START, before);
      && j <= |more| && Grants(s, more[..j], n) <= 5 && n < |Run(s, more[..j]).nodes|
      && Removed(s.nodes[n].clients, k, Run(s, more[..j]).nodes[n].clients)
    ensures var s, t := Run(START, before), Run(Run(START, before), more);
      && n < |t.nodes| && s.nodes[n].clients.list[k] !in t.nodes[n].clients.list
      && s.nodes[n].clients.list[k] in t.nodes[n].clients.gone
  {
    var s := Run(START, before);
    var was := s.nodes[n].clients;
    RunKeeps(START, before);
    j := Goes(s, more, n, was, k, 0);
    assert more == more[..j] + more[j..];
    RunSplit(s, more[..j], more[j..]);
    RunForgetsNone(Run(s, more[..j]), more[j..], n);
    RunKeeps(s, more);
    var t := Run(s, more);
    assert NodeGood(t.nodes[n], n, t.loop, t.locks);
  }

  // ---------------------------------------------------------------- the unflagged

  /** What the task is about to remove is flagged. */
  predicate Marked(node: Node)
  {
    node.task.Walk? && (node.task.v.Await? || node.task.v.Unlink?) ==> node.task.v.c in node.clients.flagged
  }

  predicate AllMarked(s: State) { forall n :: 0 <= n < |s.nodes| ==> Marked(s.nodes[n]) }

  lemma LoopMarks(node: Node, at: At, free: bool, b: bool, x: nat)
    requires Marked(node)
    ensures Marked(LoopOn(node, at, free, b, x).node)
  {
  }

  lemma WalkMarks(node: Node, free: bool, b: bool)
    requires Marked(node) && node.task.Walk?
    ensures Marked(WalkOn(node, free, b).node)
  {
  }

  lemma TaskMarks(node: Node, free: bool, b: bool)
    requires Marked(node)
    ensures Marked(TaskOn(node, free, b).node)
  {
    if node.task.Walk? {
      TaskIsWalk(node, free, b);
      WalkMarks(node, free, b);
    } else if Sending(node.task) {
      assert SendOn(node, b).node.task.Walk? ==> SendOn(node, b).node.task.v.Pick?;
    }
  }

  lemma NextMarks(s: State, a: Action)
    requires AllMarked(s)
    ensures AllMarked(Next(s, a))
  {
    if !s.fault && a.LoopGo? && s.loop.On? && s.loop.n < |s.nodes| {
      LoopMarks(s.nodes[s.loop.n], s.loop.at, FreeFor(s, s.loop.n), a.b, a.x);
    }
    if !s.fault && a.TaskGo? && a.n < |s.nodes| { TaskMarks(s.nodes[a.n], FreeFor(s, a.n), a.b); }
  }

  lemma {:induction false} RunMarks(s: State, actions: seq<Action>)
    requires AllMarked(s)
    ensures AllMarked(Run(s, actions))
    decreases |actions|
  {
    if actions != [] {
      NextMarks(s, actions[0]);
      RunMarks(Next(s, actions[0]), actions[1..]);
    }
  }

  lemma {:induction false} UnflaggedWithout(list: seq<nat>, c: nat, flagged: set<nat>)
    requires c in flagged
    ensures Unflagged(Without(list, c), flagged) == Unflagged(list, flagged)
  {
    if list != [] && list[0] != c {
      UnflaggedWithout(list[1..], c, flagged);
      assert Without(list, c)[1..] == Without(list[1..], c);
    }
  }

  /** The unflagged clients are at most extended. */
  predicate Stay(was: seq<nat>, now: seq<nat>, flagged: set<nat>) { Unflagged(was, flagged) <= Unflagged(now, flagged) }

  lemma LoopStays(node: Node, at: At, free: bool, mine: bool, loops: bool, b: bool, x: nat, flagged: set<nat>)
    requires Good(node, at, mine, loops)
    requires LoopOn(node, at, free, b, x).node.listed
    ensures Stay(node.clients.list, LoopOn(node, at, free, b, x).node.clients.list, flagged)
  {
    UnflaggedSnoc(node.clients.list, node.clients.born, flagged);
  }

  lemma TaskStays(node: Node, free: bool, b: bool, flagged: set<nat>)
    requires TaskGood(node) && Marked(node) && node.clients.flagged <= flagged && TaskOn(node, free, b).node.listed
    ensures Stay(node.clients.list, TaskOn(node, free, b).node.clients.list, flagged)
  {
    if node.task.Walk? && node.task.v.Unlink? { UnflaggedWithout(node.clients.list, node.task.v.c, flagged); }
  }

  lemma LoopGoStays(s: State, n: nat, b: bool, x: nat, flagged: set<nat>)
    requires Inv(s) && n < |s.nodes| && !s.fault
    requires var t := Next(s, LoopGo(b, x)); n < |t.nodes| && t.nodes[n].listed
    ensures Stay(s.nodes[n].clients.list, Next(s, LoopGo(b, x)).nodes[n].clients.list, flagged)
  {
    assert NodeGood(s.nodes[n], n, s.loop, s.locks);
    if s.loop.On? && s.loop.n == n {
      var o := OwnerOf(s.locks, s.nodes[n].key.bucket);
      LoopStays(s.nodes[n], s.loop.at, o == Nobody, o == TaskOf(n), o == EventLoop, b, x, flagged);
    }
  }

  lemma NextStays(s: State, a: Action, n: nat, flagged: set<nat>)
    requires Inv(s) && AllMarked(s) && n < |s.nodes| && s.nodes[n].clients.flagged <= flagged
    requires var t := Next(s, a); n < |t.nodes| && t.nodes[n].listed
    ensures Stay(s.nodes[n].clients.list, Next(s, a).nodes[n].clients.list, flagged)
  {
    assert NodeGood(s.nodes[n], n, s.loop, s.locks);
    if s.fault { return; }
    match a {
      case Begin(e) =>
      case LoopGo(b, x) => LoopGoStays(s, n, b, x, flagged);
      case TaskGo(m, b) => if m == n { TaskStays(s.nodes[n], FreeFor(s, n), b, flagged); }
    }
  }

  lemma {:induction false} RunStays(s: State, more: seq<Action>, n: nat, flagged: set<nat>)
    requires Inv(s) && AllMarked(s) && n < |s.nodes|
    requires var t := Run(s, more); n < |t.nodes| && t.nodes[n].listed && t.nodes[n].clients.flagged <= flagged
    ensures Stay(s.nodes[n].clients.list, Run(s, more).nodes[n].clients.list, flagged)
    decreases |more|
  {
    if more != [] {
      var next := Next(s, more[0]);
      NextKeeps(s, more[0]);
      NextMarks(s, more[0]);
      NextForgetsNone(s, more[0], n);
      RunForgetsNone(next, more[1..], n);
      NextStays(s, more[0], n, flagged);
      RunStays(next, more[1..], n, flagged);
    }
  }

  /** From any reachable state on, as long as the node is in the table, the clients not flagged stay listed, in their
      order and before all that are appended. */
  lemma UnflaggedStay(before: seq<Action>, more: seq<Action>, n: nat)
    requires var s, t := Run(START, before), Run(Run(START, before), more);
      n < |s.nodes| && n < |t.nodes| && t.nodes[n].listed
    ensures var s, t := Run(START, before), Run(Run(START, before), more);
      var flagged := t.nodes[n].clients.flagged;
      && Unflagged(s.nodes[n].clients.list, flagged) <= Unflagged(t.nodes[n].clients.list, flagged)
      && forall c :: c in s.nodes[n].clients.list && c !in flagged ==> c in t.nodes[n].clients.list
  {
    var s, t := Run(START, before), Run(Run(START, before), more);
    RunKeeps(START, before);
    RunMarks(START, before);
    var flagged := t.nodes[n].clients.flagged;
    RunStays(s, more, n, flagged);
    UnflaggedIs(s.nodes[n].clients.list, flagged);
    UnflaggedIs(t.nodes[n].clients.list, flagged);
  }
}

/** The life of a stream node, which two actors share: the event loop, whose callbacks run one at a time,
    and a pool task that sends the node's frames.  They coordinate through two flags of the node and the lock
    of its hash bucket.  Every read or write of the flags and every access of a lookup in the client list or
    of an append to it is a step of its own; steps of the event loop and of all send tasks interleave freely.
    What is done under the bucket lock to data that is read only under it, and one push or half a pop, is
    one step. */
module StreamLife {
  import opened ListRace

  /** The device, channel and stream of a node, with the bucket its hash value names. */
  datatype Key = Key(bucket: nat, name: nat)

  /** Which callbacks the node's connection has. */
  datatype Conn = Unconnected | Connecting | Replying | Streaming | Closed

  /** Where the send task is with one client: about to look up index `i`, looking, holding a client. */
  datatype Visit =
    | Pick
    | Looking(l: Look)
    | Test(c: nat)
    | Await(c: nat)
    | Unlink(c: nat)
    | LetGo(c: nat)
    | Free(c: nat)

  /** Where the send task of a node is. */
  datatype Task =
    | Unborn
    | Ready
    | CheckReceiver
    | CheckClients
    | SayFinished
    | ReadLength
    | PopFrame
    | PopDone
    | PassStart
    | Walk(i: int, left: int, size: int, v: Visit)
    | FreeFrame
    | AtExit
    | AwaitReceiver
    | LockTable
    | Unlist
    | Drain
    | DropClients
    | FreeNode
    | LastUnlock
    | Done

  /** The clients of a node, numbered in the order in which they were made; `gone` are those freed.  While
      `stage` is not `Quiet` the last of them is being appended. */
  datatype Clients = Clients(list: seq<nat>, stage: Stage, flagged: set<nat>, born: nat, gone: set<nat>)

  /** The frame queue with the one frame being sent.  `pushed` and `released`, which the program does not
      keep, list the frames put in the queue and those freed. */
  datatype Frames = Frames(queue: seq<nat>, popping: bool, held: seq<nat>, pushed: seq<nat>, released: seq<nat>)

  /** A stream node.  `s` is `uRtpClientNodeSendDataThreadFlag`, `g` is `uGetStreamThreadStartFlag`. */
  datatype Node = Node(
    key: Key, listed: bool, freed: bool, conn: Conn, s: nat, g: nat, clients: Clients, frames: Frames, task: Task)

  function NewNode(key: Key): Node
  {
    Node(key, true, false, Unconnected, 0, 0, Clients([], Quiet, {}, 0, {}), Frames([], false, [], [], []), Unborn)
  }

  /** What the event loop is doing to one node.  `cb` tells the error exit of `recv_stream_cb` from
      the other teardowns, which order the last steps differently. */
  datatype At =
    | Away
    | AddClient(known: bool)
    | Append
    | Connect
    | Flag(c: nat)
    | Unlock
    | EndBlock(isKey: bool, media: bool)
    | TestFinished(isKey: bool, media: bool)
    | TestStart(isKey: bool, media: bool)
    | QueueTask(media: bool)
    | SetStarted(media: bool)
    | Keep(media: bool)
    | CheckLength
    | Push
    | ReadStarted(cb: bool)
    | DropLock(cb: bool)
    | DropUnlist(cb: bool)
    | DropList(cb: bool)
    | DropUnlock
    | DropFree(cb: bool)
    | LeaveLock(cb: bool)
    | LeaveDisable(cb: bool)
    | LeaveUnlock
    | LeaveSet(cb: bool)

  datatype LockOp = Same | Take | Release

  /** The outcome of a step on a node; `ok` is false if the step used freed memory, freed it again,
      took a list element that is not there, or popped from an empty queue. */
  datatype LoopTurn = LoopTurn(node: Node, at: At, lock: LockOp, ok: bool)
  datatype TaskTurn = TaskTurn(node: Node, lock: LockOp, ok: bool)

  // ---------------------------------------------------------------- the client list

  predicate AllLive(cs: Clients) { forall i :: 0 <= i < |cs.list| ==> cs.list[i] !in cs.gone }

  function Without(s: seq<nat>, c: nat): seq<nat>
  {
    if s == [] then [] else if s[0] == c then s[1..] else [s[0]] + Without(s[1..], c)
  }

  /** The memory of the list. */
  function MemOf(cs: Clients): Mem
  {
    if cs.stage == Quiet || cs.list == [] then Mem(|cs.list|, Quiet) else Mem(|cs.list| - 1, cs.stage)
  }

  /** `list_size`. */
  function Listed(cs: Clients): nat { Size(MemOf(cs)) }

  function AddOne(cs: Clients): Clients { cs.(list := cs.list + [cs.born], born := cs.born + 1) }

  /** The next write of `list_append`; the first makes the new client reachable. */
  function AppendOn(cs: Clients): Clients
  {
    if cs.stage == Quiet then AddOne(cs).(stage := NextSet) else cs.(stage := NextStage(cs.stage))
  }

  predicate StageGood(cs: Clients) { cs.stage != Quiet ==> |cs.list| > 0 }

  lemma AppendOnIs(cs: Clients)
    requires StageGood(cs)
    ensures StageGood(AppendOn(cs)) && MemOf(AppendOn(cs)) == AppendStep(MemOf(cs))
    ensures |AppendOn(cs).list| >= |cs.list| && Listed(AppendOn(cs)) >= Listed(cs)
    ensures AppendOn(cs).stage == Quiet <==> cs.stage == Counted
  {
  }

  function Remove(cs: Clients, c: nat): Clients { cs.(list := Without(cs.list, c)) }

  function FreeOne(cs: Clients, c: nat): Clients { cs.(gone := cs.gone + {c}) }

  function FreeAll(cs: Clients): Clients { cs.(gone := cs.gone + (set c | c in cs.list), list := []) }

  /** Every client made is listed once, or in the hands of the send task, or freed. */
  predicate ClientsGood(cs: Clients, hand: set<nat>)
  {
    && (forall c :: c in cs.list ==> c < cs.born && c !in cs.gone && c !in hand)
    && (forall i, j :: 0 <= i < j < |cs.list| ==> cs.list[i] != cs.list[j])
    && (forall c :: c in cs.gone ==> c < cs.born && c !in hand)
    && (forall c :: c in hand ==> c < cs.born)
    && (forall c :: 0 <= c < cs.born ==> c in cs.gone || c in cs.list || c in hand)
  }

  lemma GoodIsLive(cs: Clients, hand: set<nat>)
    requires ClientsGood(cs, hand)
    ensures AllLive(cs)
  {
  }

  lemma AddOneKeeps(cs: Clients, hand: set<nat>)
    requires ClientsGood(cs, hand)
    ensures ClientsGood(AddOne(cs), hand)
  {
    var list := AddOne(cs).list;
    assert forall c :: c in list <==> c in cs.list || c == cs.born;
    assert forall i :: 0 <= i < |cs.list| ==> list[i] == cs.list[i] && cs.list[i] in cs.list;
  }

  lemma {:induction false} WithoutIs(s: seq<nat>, c: nat)
    requires c in s && forall i, j :: 0 <= i < j < |s| ==> s[i] != s[j]
    ensures var r := Without(s, c);
      && |r| == |s| - 1
      && (forall d :: d in r <==> d in s && d != c)
      && (forall i, j :: 0 <= i < j < |r| ==> r[i] != r[j])
  {
    assert s == [s[0]] + s[1..];
    if s[0] != c {
      WithoutIs(s[1..], c);
      assert s[0] !in s[1..];
    }
  }

  lemma RemoveKeeps(cs: Clients, c: nat)
    requires ClientsGood(cs, {}) && c in cs.list
    ensures ClientsGood(Remove(cs, c), {c}) && |Remove(cs, c).list| == |cs.list| - 1
  {
    WithoutIs(cs.list, c);
  }

  lemma FreeOneKeeps(cs: Clients, c: nat)
    requires ClientsGood(cs, {c})
    ensures c !in cs.gone && ClientsGood(FreeOne(cs, c), {})
  {
  }

  lemma FreeAllKeeps(cs: Clients)
    requires ClientsGood(cs, {})
    ensures ClientsGood(FreeAll(cs), {})
  {
  }

  // ---------------------------------------------------------------- the frame queue

  /** `nolock_queue_push` refuses a frame when `w_len`, which still counts the one being popped, is at its limit. */
  predicate PushFits(f: Frames) { |f.queue| + (if f.popping then 1 else 0) < 512 }

  function PushOne(f: Frames, x: nat): Frames { f.(queue := f.queue + [x], pushed := f.pushed + [x]) }

  function PopOne(f: Frames): Frames
    requires f.queue != []
  {
    f.(held := [f.queue[0]], queue := f.queue[1..], popping := true)
  }

  function ReleaseHeld(f: Frames): Frames { f.(released := f.released + f.held, held := []) }

  function ReleaseAll(f: Frames): Frames { f.(released := f.released + f.queue, queue := []) }

  /** Frames pushed are freed, in hand or queued, in this order. */
  predicate FramesGood(f: Frames)
  {
    f.released + f.held + f.queue == f.pushed && |f.queue| + (if f.popping then 1 else 0) <= 512
  }

  lemma PushOneKeeps(f: Frames, x: nat)
    requires FramesGood(f) && PushFits(f)
    ensures FramesGood(PushOne(f, x))
  {
  }

  lemma PopOneKeeps(f: Frames)
    requires FramesGood(f) && |f.held| == 0 && |f.queue| > 0
    ensures FramesGood(PopOne(f))
  {
  }

  lemma ReleaseHeldKeeps(f: Frames)
    requires FramesGood(f)
    ensures FramesGood(ReleaseHeld(f))
  {
  }

  lemma ReleaseAllKeeps(f: Frames)
    requires FramesGood(f) && |f.held| == 0
    ensures FramesGood(ReleaseAll(f))
  {
    assert f.held == [];
  }

  // ---------------------------------------------------------------- the event loop on one node

  /** `free` says whether the bucket lock is free; `b` and `x` stand for what the program reads from outside. */
  function LoopOn(node: Node, at: At, free: bool, b: bool, x: nat): LoopTurn
  {
    if Serving(at) then ServeOn(node, at, b)
    else if Framing(at) then FrameOn(node, at, x)
    else if Handing(at) then LeaveOn(node, at, free)
    else if at == Away then LoopTurn(node, Away, Same, true)
    else DropOn(node, at, free)
  }

  /** PLAY and STOP once the node is found, with the bucket locked. */
  function ServeOn(node: Node, at: At, b: bool): LoopTurn
  {
    match at
    case AddClient(known) =>
      var ok := !node.freed && AllLive(node.clients);
      LoopTurn(node, if known then Connect else Append, Same, ok)
    case Append =>
      LoopTurn(node.(clients := AppendOn(node.clients)), if node.clients.stage == Counted then Connect else Append,
               Same, !node.freed)
    case Connect =>
      LoopTurn(if node.conn == Unconnected && b then node.(conn := Connecting) else node, Unlock, Same, !node.freed)
    case Flag(c) =>
      LoopTurn(node.(clients := node.clients.(flagged := node.clients.flagged + {c})), Unlock, Same,
               !node.freed && c !in node.clients.gone)
    case _ => LoopTurn(node, Away, Release, true)
  }

  /** `recv_stream_cb` once the last block of a frame is in. */
  function FrameOn(node: Node, at: At, x: nat): LoopTurn
  {
    var ok := !node.freed;
    match at
    case EndBlock(isKey, media) =>
      if Listed(node.clients) == 0 then LoopTurn(node.(conn := Closed), ReadStarted(true), Same, ok)
      else LoopTurn(node, TestFinished(isKey, media), Same, ok)
    case TestFinished(isKey, media) =>
      if node.s == 2 then LoopTurn(node.(conn := Closed), ReadStarted(true), Same, ok)
      else LoopTurn(node, TestStart(isKey, media), Same, ok)
    case TestStart(isKey, media) =>
      LoopTurn(node, if node.s == 0 && isKey then QueueTask(media) else Keep(media), Same, ok)
    case QueueTask(media) => LoopTurn(node.(task := Ready), SetStarted(media), Same, ok)
    case SetStarted(media) => LoopTurn(node.(s := 1), Keep(media), Same, ok)
    case Keep(media) => LoopTurn(node, if node.s == 0 || !media then Away else CheckLength, Same, ok)
    case CheckLength =>
      if |node.frames.queue| >= 512 then LoopTurn(node.(conn := Closed), ReadStarted(true), Same, ok)
      else LoopTurn(node, Push, Same, ok)
    case _ =>
      if PushFits(node.frames) then LoopTurn(node.(frames := PushOne(node.frames, x)), Away, Same, ok)
      else LoopTurn(node, Away, Same, ok)
  }

  /** The teardown by the event loop. */
  function DropOn(node: Node, at: At, free: bool): LoopTurn
  {
    var ok := !node.freed;
    match at
    case ReadStarted(cb) => LoopTurn(node, if node.s == 0 then DropLock(cb) else LeaveLock(cb), Same, ok)
    case DropLock(cb) => if free then LoopTurn(node, DropUnlist(cb), Take, ok) else LoopTurn(node, at, Same, ok)
    case DropUnlist(cb) => LoopTurn(node.(listed := false), DropList(cb), Same, ok)
    case DropList(cb) =>
      LoopTurn(node.(clients := FreeAll(node.clients)), if cb then DropUnlock else DropFree(false), Same,
               ok && AllLive(node.clients))
    case DropUnlock => LoopTurn(node, DropFree(true), Release, ok)
    case _ =>
      LoopTurn(node.(frames := ReleaseAll(node.frames), freed := true),
               if at == DropFree(true) then Away else Unlock, Same, ok)
  }

  /** The event loop leaves the node to the send task. */
  function LeaveOn(node: Node, at: At, free: bool): LoopTurn
  {
    var ok := !node.freed;
    match at
    case LeaveLock(cb) => if free then LoopTurn(node, LeaveDisable(cb), Take, ok) else LoopTurn(node, at, Same, ok)
    case LeaveDisable(cb) =>
      LoopTurn(node, if cb then LeaveUnlock else LeaveSet(false), Same, ok && AllLive(node.clients))
    case LeaveUnlock => LoopTurn(node, LeaveSet(true), Release, ok)
    case _ => LoopTurn(node.(g := 2), if at == LeaveSet(true) then Away else Unlock, Same, ok)
  }

  // ---------------------------------------------------------------- the send task

  /** `send_rtp_to_client_task`. */
  function TaskOn(node: Node, free: bool, b: bool): TaskTurn
  {
    if Watching(node.task) || node.task.SayFinished? then WatchOn(node)
    else if Sending(node.task) then SendOn(node, b)
    else if Exiting(node.task) then ExitOn(node, free)
    else if node.task.Unborn? || node.task.Done? then TaskTurn(node, Same, true)
    else WalkOn(node, free, b)
  }

  function Goto(node: Node, task: Task): TaskTurn { TaskTurn(node.(task := task), Same, !node.freed) }

  function WatchOn(node: Node): TaskTurn
  {
    match node.task
    case CheckReceiver => Goto(node, if node.g == 2 then AtExit else CheckClients)
    case CheckClients => Goto(node, if Listed(node.clients) == 0 then SayFinished else ReadLength)
    case SayFinished => Goto(node.(s := 2), AtExit)
    case ReadLength => Goto(node, if |node.frames.queue| > 15 then PopFrame else CheckReceiver)
    case _ => Goto(node, CheckReceiver)
  }

  function SendOn(node: Node, b: bool): TaskTurn
  {
    match node.task
    case PopFrame =>
      if |node.frames.queue| == 0 then TaskTurn(node, Same, false)
      else Goto(node.(frames := PopOne(node.frames)), PopDone)
    case PopDone => Goto(node.(frames := node.frames.(popping := false)), if b then PassStart else FreeFrame)
    case PassStart => Goto(node, Walk(0, Listed(node.clients), Listed(node.clients), Pick))
    case _ => Goto(node.(frames := ReleaseHeld(node.frames)), CheckReceiver)
  }

  /** One packet is offered to as many clients as were listed when the frame began; each is looked up by
      its index, and a flagged one is removed. */
  function WalkOn(node: Node, free: bool, b: bool): TaskTurn
    requires node.task.Walk?
  {
    var w := node.task;
    match w.v
    case Pick =>
      if w.left == 0 then Goto(node, if b then Walk(0, w.size, w.size, Pick) else FreeFrame)
      else Goto(node, w.(v := Looking(Check(w.i))))
    case Looking(l) => LookOn(node, l)
    case Test(c) =>
      var t := if c in node.clients.flagged then w.(v := Await(c)) else Walk(w.i + 1, w.left - 1, w.size, Pick);
      TaskTurn(node.(task := t), Same, !node.freed && c !in node.clients.gone)
    case Await(c) => if free then Goto(node, w.(v := Unlink(c))).(lock := Take) else TaskTurn(node, Same, !node.freed)
    case Unlink(c) => Goto(node.(clients := Remove(node.clients, c)), w.(v := LetGo(c)))
    case LetGo(c) => Goto(node, w.(v := Free(c))).(lock := Release)
    case Free(c) =>
      TaskTurn(node.(clients := FreeOne(node.clients, c), task := Walk(w.i, w.left - 1, w.size - 1, Pick)),
               Same, !node.freed && c !in node.clients.gone)
  }

  /** `list_get_at`, one access at a time; the data of a sentinel is NULL, and using it is a fault. */
  function LookOn(node: Node, l: Look): TaskTurn
    requires node.task.Walk?
  {
    if !l.Found? then Goto(node, node.task.(v := Looking(LookStep(MemOf(node.clients), l))))
    else if l.at.Pos? && 0 <= l.at.k < |node.clients.list| then
      Goto(node, node.task.(v := Test(node.clients.list[l.at.k])))
    else TaskTurn(node, Same, false)
  }

  function ExitOn(node: Node, free: bool): TaskTurn
  {
    match node.task
    case AtExit => Goto(node, if node.s == 2 then AwaitReceiver else LockTable)
    case AwaitReceiver => Goto(node, if node.g == 2 then LockTable else AwaitReceiver)
    case LockTable => if free then Goto(node, Unlist).(lock := Take) else TaskTurn(node, Same, !node.freed)
    case Unlist => Goto(node.(listed := false), Drain)
    case Drain => Goto(node.(frames := ReleaseAll(node.frames)), DropClients)
    case DropClients =>
      TaskTurn(node.(clients := FreeAll(node.clients), task := FreeNode), Same, !node.freed && AllLive(node.clients))
    case FreeNode => TaskTurn(node.(freed := true, task := LastUnlock), Same, !node.freed)
    case _ => TaskTurn(node.(task := Done), Release, true)
  }

  // ---------------------------------------------------------------- what holds of a node

  /** The send task has passed its wait for the receiver. */
  predicate Leaving(task: Task)
  {
    || task.LockTable? || task.Unlist? || task.Drain? || task.DropClients? || task.FreeNode? || task.LastUnlock?
    || task.Done?
  }

  /** The send task looks after the node's bucket lock. */
  predicate TaskLocks(task: Task)
  {
    || (task.Walk? && (task.v.Unlink? || task.v.LetGo?))
    || task.Unlist? || task.Drain? || task.DropClients? || task.FreeNode? || task.LastUnlock?
  }

  predicate Exiting(task: Task) { task.AtExit? || task.AwaitReceiver? || (Leaving(task) && !task.Done?) }

  predicate LoopLocks(at: At)
  {
    || at.AddClient? || at.Append? || at.Connect? || at.Flag? || at.Unlock?
    || at.DropUnlist? || at.DropList? || at.DropUnlock?
    || at == DropFree(false) || at.LeaveDisable? || at.LeaveUnlock? || at == LeaveSet(false)
  }

  /** The event loop has closed the connection and not yet handed the node over or freed it. */
  predicate Closing(at: At)
  {
    || at.ReadStarted? || at.DropLock? || at.DropUnlist? || at.DropList? || at.DropUnlock? || at.DropFree?
    || at.LeaveLock? || at.LeaveDisable? || at.LeaveUnlock? || at.LeaveSet?
  }

  predicate Dropping(at: At) { at.DropLock? || at.DropUnlist? || at.DropList? || at.DropUnlock? || at.DropFree? }

  predicate Handing(at: At) { at.LeaveLock? || at.LeaveDisable? || at.LeaveUnlock? || at.LeaveSet? }

  predicate Framing(at: At)
  {
    Testing(at) || at.QueueTask? || at.SetStarted? || at.Keep? || at.CheckLength? || at.Push?
  }

  predicate Testing(at: At) { at.EndBlock? || at.TestFinished? || at.TestStart? }

  predicate Watching(task: Task) { task.Ready? || task.CheckReceiver? || task.CheckClients? || task.ReadLength? }

  /** Who is done with the node, and what that says about the flags. */
  predicate FlagsGood(node: Node, at: At)
  {
    && (node.freed ==> !node.listed && node.conn == Closed)
    && (node.freed ==> node.task.Unborn? || node.task.LastUnlock? || node.task.Done?)
    && (node.task.LastUnlock? || node.task.Done? ==> node.freed)
    && (node.conn != Closed ==> node.g != 2)
    && (node.conn == Closed && !node.freed ==> node.g == 2 || Closing(at))
    && (Closing(at) ==> node.conn == Closed && node.g != 2 && !node.freed)
    && (node.g == 2 ==> node.s != 0)
    && (node.task.Unborn? ==> node.s == 0)
    && (node.s == 0 ==> node.task.Unborn? || at.SetStarted?)
    && (Leaving(node.task) ==> node.g == 2)
    && (node.task.AwaitReceiver? ==> node.s == 2)
    && (node.task.AtExit? ==> node.s == 2 || node.g == 2)
    && (node.s != 0 && node.conn != Closed ==> node.conn == Streaming)
    && node.s <= 2
  }

  /** What the event loop may rely on between its own steps. */
  predicate LoopGood(node: Node, at: At)
  {
    && (Framing(at) ==> node.conn == Streaming)
    && ((at.TestFinished? || at.TestStart?) && node.s == 0 ==> Listed(node.clients) > 0)
    && (at.QueueTask? ==> node.s == 0 && node.task.Unborn? && Listed(node.clients) > 0)
    && (at.SetStarted? ==> node.s == 0 && Watching(node.task) && Listed(node.clients) > 0 && |node.frames.queue| == 0)
    && (!at.Append? ==> node.clients.stage == Quiet)
    && (at.CheckLength? || at.Push? ==> node.s != 0)
    && (at.Push? ==> |node.frames.queue| <= 511)
    && (Dropping(at) ==> node.s == 0)
    && (Handing(at) ==> node.s != 0)
    && (at.DropUnlock? || at.DropFree? ==> |node.clients.list| == 0)
    && (at.DropList? || at.DropUnlock? || at.DropFree? ==> !node.listed)
    && (at.AddClient? || at.Append? || at.Connect? || at.Flag? ==> node.listed)
    && (at.Flag? ==> at.c in node.clients.list)
  }

  /** What the send task may rely on between its own steps. */
  predicate TaskGood(node: Node)
  {
    && (node.frames.popping ==> node.task.PopDone?)
    && (node.task.PopFrame? ==> |node.frames.queue| > 15)
    && (|node.frames.held| > 0 ==>
          node.task.PopDone? || node.task.PassStart? || node.task.Walk? || node.task.FreeFrame?)
    && (node.task.Unborn? ==> |node.frames.queue| == 0)
    && (node.task.DropClients? || node.task.FreeNode? || node.freed ==> |node.frames.queue| == 0)
    && (node.task.FreeNode? || node.freed ==> |node.clients.list| == 0)
    && (node.task.Drain? || node.task.DropClients? || node.task.FreeNode? ==> !node.listed)
    && (node.task.Walk? ==> WalkGood(node.task, Listed(node.clients)))
  }

  predicate WalkGood(w: Task, listed: nat)
    requires w.Walk?
  {
    && 0 <= w.i && 0 <= w.left && w.i + w.left == w.size && (w.v.Pick? || 1 <= w.left)
    && w.size - (if w.v.LetGo? || w.v.Free? then 1 else 0) <= listed
  }

  /** The client the send task has taken off the list and not yet freed. */
  function Hand(task: Task): set<nat>
  {
    if task.Walk? && (task.v.LetGo? || task.v.Free?) then {task.v.c} else {}
  }

  /** What the send task holds of the list. */
  predicate VisitGood(node: Node)
  {
    node.task.Walk? ==>
      && (node.task.v.Looking? ==> node.task.v.l.i == node.task.i && Sound(MemOf(node.clients), node.task.v.l))
      && (node.task.v.Test? || node.task.v.Await? || node.task.v.Unlink? ==> node.task.v.c in node.clients.list)
  }

  /** `mine` and `loops` say whether the send task or the event loop has the bucket lock. */
  predicate LocksGood(node: Node, at: At, mine: bool, loops: bool)
  {
    (TaskLocks(node.task) ==> mine) && (LoopLocks(at) ==> loops) && !(mine && loops)
  }

  /** The flags and the control points of both actors. */
  predicate FlowGood(node: Node, at: At, mine: bool, loops: bool)
  {
    FlagsGood(node, at) && LocksGood(node, at, mine, loops) && LoopGood(node, at) && TaskGood(node)
  }

  predicate RecordsGood(node: Node)
  {
    FramesGood(node.frames) && ClientsGood(node.clients, Hand(node.task)) && StageGood(node.clients) && VisitGood(node)
  }

  predicate Good(node: Node, at: At, mine: bool, loops: bool) { FlowGood(node, at, mine, loops) && RecordsGood(node) }

  // ---------------------------------------------------------------- every step keeps it

  function After(held: bool, op: LockOp): bool { if op == Take then true else if op == Release then false else held }

  predicate Serving(at: At) { at.AddClient? || at.Append? || at.Connect? || at.Flag? || at.Unlock? }

  lemma ServeFlow(node: Node, at: At, mine: bool, loops: bool, b: bool)
    requires FlowGood(node, at, mine, loops) && Serving(at)
    ensures var t := ServeOn(node, at, b); FlowGood(t.node, t.at, mine, After(loops, t.lock))
  {
  }

  lemma FrameFlags(node: Node, at: At, mine: bool, loops: bool, x: nat)
    requires FlowGood(node, at, mine, loops) && Framing(at)
    ensures var t := FrameOn(node, at, x);
      t.ok && FlagsGood(t.node, t.at) && LocksGood(t.node, t.at, mine, After(loops, t.lock))
  {
  }

  lemma FrameLoop(node: Node, at: At, mine: bool, loops: bool, x: nat)
    requires FlowGood(node, at, mine, loops) && Framing(at)
    ensures var t := FrameOn(node, at, x); LoopGood(t.node, t.at)
  {
  }

  lemma FrameTask(node: Node, at: At, mine: bool, loops: bool, x: nat)
    requires FlowGood(node, at, mine, loops) && Framing(at)
    ensures var t := FrameOn(node, at, x); TaskGood(t.node)
  {
  }

  lemma FrameFlow(node: Node, at: At, mine: bool, loops: bool, x: nat)
    requires FlowGood(node, at, mine, loops) && Framing(at)
    ensures var t := FrameOn(node, at, x); t.ok && FlowGood(t.node, t.at, mine, After(loops, t.lock))
  {
    FrameFlags(node, at, mine, loops, x);
    FrameLoop(node, at, mine, loops, x);
    FrameTask(node, at, mine, loops, x);
  }

  lemma DropFlow(node: Node, at: At, free: bool, mine: bool, loops: bool)
    requires FlowGood(node, at, mine, loops) && (at.ReadStarted? || Dropping(at)) && (free ==> !mine && !loops)
    ensures var t := DropOn(node, at, free); FlowGood(t.node, t.at, mine, After(loops, t.lock))
  {
  }

  lemma LeaveFlow(node: Node, at: At, free: bool, mine: bool, loops: bool)
    requires FlowGood(node, at, mine, loops) && Handing(at) && (free ==> !mine && !loops)
    ensures var t := LeaveOn(node, at, free); FlowGood(t.node, t.at, mine, After(loops, t.lock))
  {
  }

  predicate Sending(task: Task) { task.PopFrame? || task.PopDone? || task.PassStart? || task.FreeFrame? }

  lemma WatchLocks(node: Node, at: At, mine: bool, loops: bool)
    requires LocksGood(node, at, mine, loops) && (Watching(node.task) || node.task.SayFinished?)
    ensures var t := WatchOn(node); t.lock == Same && LocksGood(t.node, at, mine, loops)
  {
  }

  lemma WatchFlags(node: Node, at: At)
    requires FlagsGood(node, at) && Watching(node.task)
    ensures var t := WatchOn(node); t.ok && FlagsGood(t.node, at)
  {
  }

  lemma FinishFlags(node: Node, at: At)
    requires FlagsGood(node, at) && LoopGood(node, at) && node.task.SayFinished?
    ensures var t := WatchOn(node); t.ok && FlagsGood(t.node, at)
  {
  }

  lemma WatchLoop(node: Node, at: At)
    requires LoopGood(node, at) && FlagsGood(node, at) && (Watching(node.task) || node.task.SayFinished?)
    ensures LoopGood(WatchOn(node).node, at)
  {
  }

  lemma WatchTask(node: Node)
    requires TaskGood(node) && !node.freed && (Watching(node.task) || node.task.SayFinished?)
    ensures TaskGood(WatchOn(node).node)
  {
  }

  /** Control points at which the flags say nothing about the send task. */
  predicate Midway(task: Task) { Sending(task) || task.Walk? || task.CheckReceiver? }

  /** Moving between them does not touch the flags. */
  lemma MidwayFlags(node: Node, node': Node, at: At)
    requires FlagsGood(node, at) && Midway(node.task) && Midway(node'.task)
    requires node' == node.(clients := node'.clients, frames := node'.frames, task := node'.task)
    ensures FlagsGood(node', at)
  {
  }

  /** Taking, sending and freeing a frame touches the queue and the control point only. */
  lemma SendStays(node: Node, b: bool)
    requires Sending(node.task)
    ensures var t := SendOn(node, b);
      t.lock == Same && Midway(t.node.task) && !TaskLocks(t.node.task)
      && t.node == node.(frames := t.node.frames, task := t.node.task)
  {
    match node.task
    case PopFrame =>
    case PopDone =>
    case PassStart =>
    case FreeFrame =>
  }

  lemma SendFlags(node: Node, at: At, mine: bool, loops: bool, b: bool)
    requires FlagsGood(node, at) && LocksGood(node, at, mine, loops) && Sending(node.task)
    ensures var t := SendOn(node, b); FlagsGood(t.node, at) && LocksGood(t.node, at, After(mine, t.lock), loops)
  {
    SendStays(node, b);
    MidwayFlags(node, SendOn(node, b).node, at);
  }

  lemma SendLoop(node: Node, at: At, mine: bool, loops: bool, b: bool)
    requires FlowGood(node, at, mine, loops) && Sending(node.task)
    ensures var t := SendOn(node, b); LoopGood(t.node, at)
  {
  }

  lemma SendTask(node: Node, at: At, mine: bool, loops: bool, b: bool)
    requires FlowGood(node, at, mine, loops) && Sending(node.task)
    ensures var t := SendOn(node, b); t.ok && TaskGood(t.node)
  {
  }

  lemma ExitFlags(node: Node, at: At, free: bool, mine: bool, loops: bool)
    requires FlowGood(node, at, mine, loops) && Exiting(node.task) && (free ==> !mine && !loops)
    ensures var t := ExitOn(node, free); FlagsGood(t.node, at) && LocksGood(t.node, at, After(mine, t.lock), loops)
  {
  }

  lemma ExitLoop(node: Node, at: At, free: bool, mine: bool, loops: bool)
    requires FlowGood(node, at, mine, loops) && Exiting(node.task) && (free ==> !mine && !loops)
    ensures var t := ExitOn(node, free); LoopGood(t.node, at)
  {
  }

  lemma ExitTask(node: Node, at: At, free: bool, mine: bool, loops: bool)
    requires FlowGood(node, at, mine, loops) && Exiting(node.task) && (free ==> !mine && !loops)
    ensures var t := ExitOn(node, free); TaskGood(t.node)
  {
  }

  lemma WalkLocks(node: Node, at: At, free: bool, mine: bool, loops: bool, b: bool)
    requires LocksGood(node, at, mine, loops) && node.task.Walk? && (free ==> !mine && !loops)
    ensures var t := WalkOn(node, free, b);
      && LocksGood(t.node, at, After(mine, t.lock), loops) && Midway(t.node.task)
      && t.node == node.(clients := t.node.clients, task := t.node.task)
  {
  }

  /** Only unlinking changes what is listed. */
  lemma WalkKeepsList(node: Node, free: bool, b: bool)
    requires node.task.Walk? && !node.task.v.Unlink?
    ensures var t := WalkOn(node, free, b).node;
      && t == node.(clients := t.clients, task := t.task) && Midway(t.task)
      && t.clients.list == node.clients.list && t.clients.stage == node.clients.stage
  {
  }

  /** What the event loop relies on does not depend on which client is visited. */
  lemma LoopMidway(node: Node, node': Node, at: At)
    requires LoopGood(node, at) && node.task.Walk? && Midway(node'.task)
    requires node' == node.(clients := node'.clients, task := node'.task)
    requires node'.clients.list == node.clients.list && node'.clients.stage == node.clients.stage
    ensures LoopGood(node', at)
  {
  }

  lemma WalkLoop(node: Node, at: At, free: bool, b: bool)
    requires LoopGood(node, at) && node.task.Walk? && !node.task.v.Unlink?
    ensures LoopGood(WalkOn(node, free, b).node, at)
  {
    WalkKeepsList(node, free, b);
    LoopMidway(node, WalkOn(node, free, b).node, at);
  }

  lemma WalkTask(node: Node, free: bool, b: bool)
    requires TaskGood(node) && !node.freed && node.task.Walk? && !node.task.v.Unlink?
    ensures TaskGood(WalkOn(node, free, b).node)
  {
  }

  /** The lock is the send task's, so no append is in progress while it unlinks. */
  lemma UnlinkLoopTask(node: Node, at: At, mine: bool, loops: bool, b: bool)
    requires FlowGood(node, at, mine, loops) && node.task.Walk? && node.task.v.Unlink?
    requires |Remove(node.clients, node.task.v.c).list| == |node.clients.list| - 1
    ensures var t := WalkOn(node, false, b); node.clients.stage == Quiet && LoopGood(t.node, at) && TaskGood(t.node)
  {
  }

  /** What the first lookup of a list of three may have ended at. */
  predicate AtSentinel(node: Node)
  {
    && node.task.Walk? && node.task.v.Looking? && node.task.v.l.Found?
    && node.task.v.l.at == Pos(-1) && node.task.i == 0 && node.task.v.l.seen == 3
  }

  lemma LookRecords(node: Node, l: Look)
    requires RecordsGood(node) && node.task.Walk? && node.task.v == Looking(l) && !node.freed
    ensures var t := LookOn(node, l);
      if t.ok then RecordsGood(t.node) else t.node == node && AtSentinel(node) && 3 <= Listed(node.clients)
  {
    if !l.Found? { LookStepSound(MemOf(node.clients), l); }
  }

  lemma WalkRecords(node: Node, free: bool, b: bool)
    requires RecordsGood(node) && TaskGood(node) && node.task.Walk? && !node.freed
    requires node.task.v.Unlink? ==> node.clients.stage == Quiet
    ensures var t := WalkOn(node, free, b);
      if t.ok then RecordsGood(t.node) else t.node == node && AtSentinel(node) && 3 <= Listed(node.clients)
  {
    var v := node.task.v;
    if v.Looking? { LookRecords(node, v.l); }
    if v.Unlink? { RemoveKeeps(node.clients, v.c); }
    if v.Free? { FreeOneKeeps(node.clients, v.c); }
  }

  /** A step of the walk keeps everything, or it is the use of the head sentinel's NULL and changes nothing. */
  lemma WalkKeeps(node: Node, at: At, free: bool, mine: bool, loops: bool, b: bool)
    requires Good(node, at, mine, loops) && node.task.Walk? && (free ==> !mine && !loops)
    ensures var t := WalkOn(node, free, b);
      Good(t.node, at, After(mine, t.lock), loops)
          && (!t.ok ==> t.node == node && AtSentinel(node) && 3 <= Listed(node.clients))
  {
    WalkLocks(node, at, free, mine, loops, b);
    MidwayFlags(node, WalkOn(node, free, b).node, at);
    if node.task.v.Unlink? {
      RemoveKeeps(node.clients, node.task.v.c);
      UnlinkLoopTask(node, at, mine, loops, b);
    } else {
      WalkLoop(node, at, free, b);
      WalkTask(node, free, b);
    }
    WalkRecords(node, free, b);
  }

  /** An append keeps what a lookup in progress holds. */
  lemma AppendRecords(node: Node)
    requires RecordsGood(node)
    ensures RecordsGood(node.(clients := AppendOn(node.clients)))
  {
    var cs := AppendOn(node.clients);
    AppendOnIs(node.clients);
    AddOneKeeps(node.clients, Hand(node.task));
    if node.task.Walk? && node.task.v.Looking? { AppendStepSound(MemOf(node.clients), node.task.v.l); }
    assert forall c :: c in node.clients.list ==> c in cs.list;
  }

  lemma ServeRecords(node: Node, at: At, b: bool)
    requires RecordsGood(node) && Serving(at) && !node.freed && (at.Flag? ==> at.c in node.clients.list)
    ensures var t := ServeOn(node, at, b); t.ok && RecordsGood(t.node)
  {
    if at.Append? { AppendRecords(node); }
  }

  lemma ServeKeeps(node: Node, at: At, mine: bool, loops: bool, b: bool)
    requires Good(node, at, mine, loops) && Serving(at)
    ensures var t := ServeOn(node, at, b); t.ok && Good(t.node, t.at, mine, After(loops, t.lock))
  {
    ServeFlow(node, at, mine, loops, b);
    if !at.Unlock? { ServeRecords(node, at, b); }
  }

  lemma FrameRecords(node: Node, at: At, x: nat)
    requires RecordsGood(node) && Framing(at) && (at.QueueTask? ==> node.task.Unborn?)
    ensures RecordsGood(FrameOn(node, at, x).node)
  {
    if at.Push? && PushFits(node.frames) { PushOneKeeps(node.frames, x); }
  }

  lemma FrameKeeps(node: Node, at: At, mine: bool, loops: bool, x: nat)
    requires Good(node, at, mine, loops) && Framing(at)
    ensures var t := FrameOn(node, at, x); t.ok && Good(t.node, t.at, mine, After(loops, t.lock))
  {
    FrameFlow(node, at, mine, loops, x);
    FrameRecords(node, at, x);
  }

  /** When the event loop tears down, the send task was never made. */
  lemma DropAlone(node: Node, at: At)
    requires FlagsGood(node, at) && LoopGood(node, at) && TaskGood(node) && Dropping(at)
    ensures node.task.Unborn? && !node.freed && |node.frames.held| == 0 && node.clients.stage == Quiet
  {
  }

  lemma DropRecords(node: Node, at: At, free: bool)
    requires RecordsGood(node) && Dropping(at) && !node.freed && |node.frames.held| == 0 && node.task.Unborn?
    requires node.clients.stage == Quiet
    ensures var t := DropOn(node, at, free); t.ok && RecordsGood(t.node)
  {
    FreeAllKeeps(node.clients);
    ReleaseAllKeeps(node.frames);
  }

  lemma DropKeeps(node: Node, at: At, free: bool, mine: bool, loops: bool)
    requires Good(node, at, mine, loops) && (at.ReadStarted? || Dropping(at)) && (free ==> !mine && !loops)
    ensures var t := DropOn(node, at, free); t.ok && Good(t.node, t.at, mine, After(loops, t.lock))
  {
    DropFlow(node, at, free, mine, loops);
    if Dropping(at) {
      DropAlone(node, at);
      DropRecords(node, at, free);
    }
  }

  lemma LeaveKeeps(node: Node, at: At, free: bool, mine: bool, loops: bool)
    requires Good(node, at, mine, loops) && Handing(at) && (free ==> !mine && !loops)
    ensures var t := LeaveOn(node, at, free); t.ok && Good(t.node, t.at, mine, After(loops, t.lock))
  {
    LeaveFlow(node, at, free, mine, loops);
    GoodIsLive(node.clients, Hand(node.task));
  }

  /** A step of the event loop on a node. */
  lemma LoopKeeps(node: Node, at: At, free: bool, mine: bool, loops: bool, b: bool, x: nat)
    requires Good(node, at, mine, loops) && (free ==> !mine && !loops)
    ensures var t := LoopOn(node, at, free, b, x); t.ok && Good(t.node, t.at, mine, After(loops, t.lock))
  {
    if Serving(at) { ServeKeeps(node, at, mine, loops, b); }
    else if Framing(at) { FrameKeeps(node, at, mine, loops, x); }
    else if Handing(at) { LeaveKeeps(node, at, free, mine, loops); }
    else if at != Away { DropKeeps(node, at, free, mine, loops); }
  }

  lemma WatchKeeps(node: Node, at: At, mine: bool, loops: bool)
    requires Good(node, at, mine, loops) && (Watching(node.task) || node.task.SayFinished?)
    ensures var t := WatchOn(node); t.ok && Good(t.node, at, After(mine, t.lock), loops)
  {
    WatchLocks(node, at, mine, loops);
    if node.task.SayFinished? { FinishFlags(node, at); } else { WatchFlags(node, at); }
    WatchLoop(node, at);
    WatchTask(node);
  }

  lemma SendRecords(node: Node, b: bool)
    requires RecordsGood(node) && TaskGood(node) && Sending(node.task)
    ensures RecordsGood(SendOn(node, b).node)
  {
    if node.task.PopFrame? { PopOneKeeps(node.frames); }
    if node.task.FreeFrame? { ReleaseHeldKeeps(node.frames); }
  }

  lemma SendKeeps(node: Node, at: At, mine: bool, loops: bool, b: bool)
    requires Good(node, at, mine, loops) && Sending(node.task)
    ensures var t := SendOn(node, b); t.ok && Good(t.node, at, After(mine, t.lock), loops)
  {
    SendFlags(node, at, mine, loops, b);
    SendLoop(node, at, mine, loops, b);
    SendTask(node, at, mine, loops, b);
    SendRecords(node, b);
  }

  lemma ExitRecords(node: Node, free: bool)
    requires RecordsGood(node) && TaskGood(node) && Exiting(node.task) && (node.freed ==> node.task.LastUnlock?)
    requires node.task.DropClients? ==> node.clients.stage == Quiet
    ensures var t := ExitOn(node, free); t.ok && RecordsGood(t.node)
  {
    if node.task.DropClients? {
      FreeAllKeeps(node.clients);
      GoodIsLive(node.clients, {});
    }
    if node.task.Drain? { ReleaseAllKeeps(node.frames); }
  }

  lemma ExitKeeps(node: Node, at: At, free: bool, mine: bool, loops: bool)
    requires Good(node, at, mine, loops) && Exiting(node.task) && (free ==> !mine && !loops)
    ensures var t := ExitOn(node, free); t.ok && Good(t.node, at, After(mine, t.lock), loops)
  {
    ExitFlags(node, at, free, mine, loops);
    ExitLoop(node, at, free, mine, loops);
    ExitTask(node, at, free, mine, loops);
    ExitRecords(node, free);
  }

  /** A step of the send task. */
  lemma TaskKeeps(node: Node, at: At, free: bool, mine: bool, loops: bool, b: bool)
    requires Good(node, at, mine, loops) && (free ==> !mine && !loops)
    ensures var t := TaskOn(node, free, b);
      Good(t.node, at, After(mine, t.lock), loops)
          && (!t.ok ==> t.node == node && AtSentinel(node) && 3 <= Listed(node.clients))
  {
    if Watching(node.task) || node.task.SayFinished? { WatchKeeps(node, at, mine, loops); }
    else if Sending(node.task) { SendKeeps(node, at, mine, loops, b); }
    else if Exiting(node.task) { ExitKeeps(node, at, free, mine, loops); }
    else if !node.task.Unborn? && !node.task.Done? { WalkKeeps(node, at, free, mine, loops, b); }
  }
}

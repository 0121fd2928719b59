/** Which client gets which packet: the list of a stream node's clients is walked once per packet and edited
    during the walk, while PLAY appends to it and STOP flags its members.  The walk looks every client up
    without the bucket lock, so each access of a lookup and each write of an append is a step. */
module FanOut {
  import opened Bytes
  import opened ListRace

  /** A client of a stream node.  `log` is what has been sent to it; `since`, which the program does not
      keep, is the number of packets made before the first one it is to get. */
  datatype Client = Client(callId: string, deleted: bool, synced: bool, log: seq<seq<byte>>, since: nat)

  /** What one visit does to a client that stays. */
  function Visit(c: Client, packet: seq<byte>, key: bool, made: nat): Client
  {
    if c.synced then c.(log := c.log + [packet])
    else if key then c.(synced := true, since := made + 1)
    else c
  }

  /** One walk over `clients`: flagged clients go, the others are visited. */
  function Walk(clients: seq<Client>, packet: seq<byte>, key: bool, made: nat): (r: seq<Client>)
    ensures |r| <= |clients|
  {
    if clients == [] then []
    else
      var rest := Walk(clients[1..], packet, key, made);
      if clients[0].deleted then rest else [Visit(clients[0], packet, key, made)] + rest
  }

  lemma {:induction false} WalkSnoc(clients: seq<Client>, c: Client, packet: seq<byte>, key: bool, made: nat)
    ensures Walk(clients + [c], packet, key, made)
         == Walk(clients, packet, key, made) + (if c.deleted then [] else [Visit(c, packet, key, made)])
  {
    if clients == [] {
      assert Walk([], packet, key, made) == [];
      assert ([c])[1..] == [];
    } else {
      assert (clients + [c])[1..] == clients[1..] + [c];
      WalkSnoc(clients[1..], c, packet, key, made);
    }
  }

  /** The clients not flagged for deletion, in order. */
  function Kept(clients: seq<Client>): seq<Client>
  {
    if clients == [] then [] else (if clients[0].deleted then [] else [clients[0]]) + Kept(clients[1..])
  }

  /** A walk leaves exactly the unflagged clients, in order, each visited once. */
  lemma {:induction false} WalkVisitsEachOnce(clients: seq<Client>, packet: seq<byte>, key: bool, made: nat, i: int)
    ensures |Walk(clients, packet, key, made)| == |Kept(clients)|
    ensures 0 <= i < |Kept(clients)|
        ==> Walk(clients, packet, key, made)[i] == Visit(Kept(clients)[i], packet, key, made)
  {
    if clients != [] {
      WalkVisitsEachOnce(clients[1..], packet, key, made, if clients[0].deleted then i else i - 1);
    }
  }

  // ---------------------------------------------------------------- single steps

  /** Where the sender is with the client whose turn it is; `k` is the place of the one it got. */
  datatype Turn =
    | Pick
    | Looking(l: Look)
    | Holding(k: int)
    | Serving(k: int)
    | Removing(k: int)

  /** Where the sender is: between frames, between the packets of a frame, or in the walk for one packet,
      about to visit index `i` with `left` visits to go.  `size` is `client_list_size`, `sent` the number of
      packets of the frame so far.  `Crashed` is the use of a sentinel's NULL. */
  datatype Pass =
    | Idle
    | Frame(size: int, key: bool, sent: nat)
    | Packet(i: int, left: int, size: int, key: bool, sent: nat, turn: Turn)
    | Crashed

  /** The clients, of which the last is being appended while `stage` is not `Quiet`; the sender; and the packets
      made so far, with the kind of their frame and whether they are its first. */
  datatype Fan = Fan(clients: seq<Client>, stage: Stage, pass: Pass, made: seq<seq<byte>>, keys: seq<bool>,
      firsts: seq<bool>)

  datatype Event =
    | Play(callId: string)
    | AppendGo
    | Stop(callId: string)
    | BeginFrame(key: bool)
    | BeginPacket(packet: seq<byte>)
    | PassGo
    | EndFrame

  function MemOf(f: Fan): Mem
  {
    if f.stage == Quiet || f.clients == [] then Mem(|f.clients|, Quiet) else Mem(|f.clients| - 1, f.stage)
  }

  /** `list_size`. */
  function Listed(f: Fan): nat { Size(MemOf(f)) }

  function Flag(clients: seq<Client>, callId: string): (r: seq<Client>)
    ensures |r| == |clients|
  {
    if clients == [] then []
    else if clients[0].callId == callId then [clients[0].(deleted := true)] + clients[1..]
    else [clients[0]] + Flag(clients[1..], callId)
  }

  /** `find_client_node`. */
  predicate HasClient(clients: seq<Client>, callId: string)
  {
    exists c <- clients :: c.callId == callId
  }

  function NewClient(callId: string): Client { Client(callId, false, false, [], 0) }

  function Last(made: seq<seq<byte>>): seq<byte> { if made == [] then [] else made[|made| - 1] }

  /** A step of the walk.  Removing takes the bucket lock, so it waits for an append to end. */
  function PassOn(f: Fan): Fan
    requires f.pass.Packet?
  {
    var p := f.pass;
    match p.turn
    case Pick => f.(pass := if p.left == 0 then Frame(p.size, p.key, p.sent) else p.(turn := Looking(Check(p.i))))
    case Looking(l) =>
      if !l.Found? then f.(pass := p.(turn := Looking(LookStep(MemOf(f), l))))
      else if l.at.Pos? && 0 <= l.at.k < |f.clients| then f.(pass := p.(turn := Holding(l.at.k)))
      else f.(pass := Crashed)
    case Holding(k) =>
      if 0 <= k < |f.clients| then
        f.(pass := p.(turn := if f.clients[k].deleted then Removing(k) else Serving(k)))
      else f
    case Serving(k) =>
      if 0 <= k < |f.clients| && f.made != [] then
        f.(clients := f.clients[k := Visit(f.clients[k], Last(f.made), p.key, |f.made| - 1)],
           pass := p.(i := p.i + 1, left := p.left - 1, turn := Pick))
      else f
    case Removing(k) =>
      if 0 <= k < |f.clients| && f.stage == Quiet then
        f.(clients := f.clients[..k] + f.clients[k + 1..],
           pass := p.(left := p.left - 1, size := p.size - 1, turn := Pick))
      else f
  }

  /** PLAY, once its client is made, and STOP hold the bucket lock, and the event loop does one at a time. */
  function Next(f: Fan, e: Event): Fan
  {
    match e
    case Play(id) =>
      if f.stage != Quiet || HasClient(f.clients, id) then f
      else f.(clients := f.clients + [NewClient(id)], stage := NextSet)
    case AppendGo => if f.stage == Quiet then f else f.(stage := NextStage(f.stage))
    case Stop(id) => if f.stage != Quiet then f else f.(clients := Flag(f.clients, id))
    case BeginFrame(key) => if f.pass.Idle? then f.(pass := Frame(Listed(f), key, 0)) else f
    case BeginPacket(packet) =>
      if f.pass.Frame? then
        var p := f.pass;
        f.(pass := Packet(0, p.size, p.size, p.key, p.sent + 1, Pick),
           made := f.made + [packet], keys := f.keys + [p.key], firsts := f.firsts + [p.sent == 0])
      else f
    case PassGo => if f.pass.Packet? then PassOn(f) else f
    case EndFrame => if f.pass.Frame? then f.(pass := Idle) else f
  }

  function Run(f: Fan, events: seq<Event>): Fan
    decreases |events|
  {
    if events == [] then f else Run(Next(f, events[0]), events[1..])
  }

  /** A stream node before its first client. */
  const EMPTY := Fan([], Quiet, Idle, [], [], [])

  // ---------------------------------------------------------------- runs without a wrong visit

  /** A visit has got another client than the one at its index, or none. */
  predicate Astray(f: Fan)
  {
    match f.pass
    case Packet(i, _, _, _, _, Holding(k)) => k != i
    case Packet(i, _, _, _, _, Serving(k)) => k != i
    case Packet(i, _, _, _, _, Removing(k)) => k != i
    case Crashed => true
    case _ => false
  }

  /** In no state of a run is a visit astray. */
  predicate NeverAstray(f: Fan, events: seq<Event>)
    decreases |events|
  {
    !Astray(f) && (events == [] || NeverAstray(Next(f, events[0]), events[1..]))
  }

  /** How many of the packets made the client at place `j` has had its turn for. */
  function Due(f: Fan, j: int): int { if f.pass.Packet? && j >= f.pass.i then |f.made| - 1 else |f.made| }

  /** What has been sent to a client is an unbroken stretch of the packets made, from the one after the first
      packet of a key frame, which switched it on; up to its last turn, unless it has been flagged meanwhile. */
  ghost predicate Served(c: Client, f: Fan, due: int)
  {
    && |f.keys| == |f.made| == |f.firsts| && due <= |f.made|
    && (!c.synced ==> c.log == [])
    && (c.synced ==>
          && 0 < c.since <= c.since + |c.log| <= due
          && f.keys[c.since - 1] && f.firsts[c.since - 1]
          && c.log == f.made[c.since..c.since + |c.log|]
          && (!c.deleted ==> Complete(c, due)))
  }

  predicate Complete(c: Client, due: int) { c.synced ==> c.since + |c.log| == due }

  /** Clients from here on have had no packet. */
  function Bound(f: Fan): int { if f.pass.Packet? || f.pass.Frame? then f.pass.size else Listed(f) }

  /** The first packet of a key frame switches on every client listed when the frame began. */
  predicate SyncGood(f: Fan, j: int)
    requires 0 <= j < |f.clients|
  {
    && (f.clients[j].synced ==> j < Bound(f))
    && (f.pass.Frame? && f.pass.key && f.pass.sent > 0 && j < f.pass.size ==> f.clients[j].synced)
    && (f.pass.Packet? && f.pass.key && (j < f.pass.i || (f.pass.sent > 1 && j < f.pass.size)) ==> f.clients[j].synced)
  }

  ghost predicate ClientGood(f: Fan, j: int)
    requires 0 <= j < |f.clients|
  {
    SyncGood(f, j) && Served(f.clients[j], f, Due(f, j))
  }

  predicate PassGood(f: Fan)
  {
    match f.pass
    case Idle => true
    case Frame(size, _, _) => 0 <= size <= Listed(f)
    case Packet(i, left, size, key, sent, turn) =>
      && 0 <= i && 0 <= left && i + left == size <= Listed(f) && f.made != [] && |f.keys| == |f.made| == |f.firsts|
      && sent > 0 && f.keys[|f.made| - 1] == key && f.firsts[|f.made| - 1] == (sent == 1)
      && (!turn.Pick? ==> left > 0)
      && (turn.Looking? ==> turn.l.i == i)
      && (turn.Holding? || turn.Serving? || turn.Removing? ==> turn.k == i)
      && (turn.Serving? ==> Complete(f.clients[i], |f.made| - 1))
      && (turn.Removing? ==> f.clients[i].deleted)
    case Crashed => false
  }

  ghost predicate Inv(f: Fan)
  {
    && |f.keys| == |f.made| == |f.firsts| && (f.stage != Quiet ==> f.clients != []) && PassGood(f)
    && forall j :: 0 <= j < |f.clients| ==> ClientGood(f, j)
  }

  lemma PlayKeeps(f: Fan, id: string)
    requires Inv(f)
    ensures Inv(Next(f, Play(id)))
  {
    var g := Next(f, Play(id));
    forall j | 0 <= j < |g.clients| ensures ClientGood(g, j) {
      if j < |f.clients| { assert ClientGood(f, j); }
    }
  }

  lemma AppendKeeps(f: Fan)
    requires Inv(f)
    ensures Inv(Next(f, AppendGo))
  {
    var g := Next(f, AppendGo);
    if f.stage != Quiet { assert MemOf(g) == AppendStep(MemOf(f)); }
    forall j | 0 <= j < |g.clients| ensures ClientGood(g, j) { assert ClientGood(f, j); }
  }

  lemma {:induction false} FlagMarks(clients: seq<Client>, callId: string)
    ensures var r := Flag(clients, callId);
      forall j :: 0 <= j < |clients| ==> r[j] == clients[j] || r[j] == clients[j].(deleted := true)
  {
    if clients != [] && clients[0].callId != callId { FlagMarks(clients[1..], callId); }
  }

  lemma StopKeeps(f: Fan, id: string)
    requires Inv(f)
    ensures Inv(Next(f, Stop(id)))
  {
    var g := Next(f, Stop(id));
    FlagMarks(f.clients, id);
    forall j | 0 <= j < |g.clients| ensures ClientGood(g, j) { assert ClientGood(f, j); }
  }

  lemma FrameKeeps(f: Fan, e: Event)
    requires Inv(f) && (e.BeginFrame? || e.EndFrame?)
    ensures Inv(Next(f, e))
  {
    var g := Next(f, e);
    forall j | 0 <= j < |g.clients| ensures ClientGood(g, j) { assert ClientGood(f, j); }
  }

  lemma PacketKeeps(f: Fan, packet: seq<byte>)
    requires Inv(f)
    ensures Inv(Next(f, BeginPacket(packet)))
  {
    var g := Next(f, BeginPacket(packet));
    forall j | 0 <= j < |g.clients| ensures ClientGood(g, j) {
      assert ClientGood(f, j);
      if f.pass.Frame? && f.clients[j].synced {
        var c := f.clients[j];
        assert g.made[c.since..c.since + |c.log|] == f.made[c.since..c.since + |c.log|];
      }
    }
  }

  /** A step that changes no client. */
  lemma LookKeeps(f: Fan)
    requires Inv(f) && f.pass.Packet? && !f.pass.turn.Serving? && !f.pass.turn.Removing? && !Astray(PassOn(f))
    ensures Inv(PassOn(f))
  {
    var g := PassOn(f);
    TurnGood(f);
    forall j | 0 <= j < |g.clients| ensures ClientGood(g, j) {
      assert ClientGood(f, j);
      TurnKeeps(f, j);
    }
  }

  lemma TurnKeeps(f: Fan, j: int)
    requires 0 <= j < |f.clients| && ClientGood(f, j) && PassGood(f)
    requires f.pass.Packet? && !f.pass.turn.Serving? && !f.pass.turn.Removing? && PassGood(PassOn(f))
    ensures PassOn(f).clients == f.clients && ClientGood(PassOn(f), j)
  {
  }

  lemma TurnGood(f: Fan)
    requires PassGood(f) && f.pass.Packet? && !f.pass.turn.Serving? && !f.pass.turn.Removing? && !Astray(PassOn(f))
    requires f.pass.left > 0 ==> ClientGood(f, f.pass.i)
    ensures PassGood(PassOn(f))
  {
  }

  lemma VisitServes(f: Fan, c: Client, due: int)
    requires Served(c, f, due) && due == |f.made| - 1 >= 0 && Complete(c, due)
    requires f.pass.Packet? && f.keys[due] == f.pass.key && f.firsts[due] == (f.pass.sent == 1)
    requires f.pass.sent > 0
    requires f.pass.key && f.pass.sent > 1 ==> c.synced
    ensures Served(Visit(c, f.made[due], f.pass.key, due), f, |f.made|)
  {
    if c.synced {
      assert f.made[c.since..|f.made|] == f.made[c.since..due] + [f.made[due]];
    } else {
      assert f.made[due + 1..due + 1] == [];
    }
  }

  lemma ServingKeeps(f: Fan)
    requires Inv(f) && f.pass.Packet? && f.pass.turn.Serving?
    ensures Inv(PassOn(f))
  {
    var g := PassOn(f);
    forall j | 0 <= j < |g.clients| ensures ClientGood(g, j) {
      assert ClientGood(f, j);
      ServedKeeps(f, j);
    }
  }

  lemma ServedKeeps(f: Fan, j: int)
    requires 0 <= j < |f.clients| && ClientGood(f, j) && PassGood(f) && f.pass.Packet? && f.pass.turn.Serving?
    ensures j < |PassOn(f).clients| && ClientGood(PassOn(f), j)
  {
    if j == f.pass.i { VisitServes(f, f.clients[j], |f.made| - 1); } else { OthersKeep(f, j); }
  }

  lemma OthersKeep(f: Fan, j: int)
    requires 0 <= j < |f.clients| && ClientGood(f, j) && PassGood(f) && f.pass.Packet? && f.pass.turn.Serving?
    requires j != f.pass.i
    ensures j < |PassOn(f).clients| && ClientGood(PassOn(f), j)
  {
  }

  lemma RemovingKeeps(f: Fan)
    requires Inv(f) && f.pass.Packet? && f.pass.turn.Removing?
    ensures Inv(PassOn(f))
  {
    var g, k := PassOn(f), f.pass.i;
    if g != f {
      forall j | 0 <= j < |g.clients| ensures ClientGood(g, j) {
        assert ClientGood(f, if j < k then j else j + 1);
      }
    }
  }

  /** A step keeps every client served without a gap if and only if it does not lead a visit astray. */
  lemma NextKeeps(f: Fan, e: Event)
    requires Inv(f)
    ensures Inv(Next(f, e)) <==> !Astray(Next(f, e))
  {
    if !Astray(Next(f, e)) { NextServes(f, e); }
  }

  lemma NextServes(f: Fan, e: Event)
    requires Inv(f) && !Astray(Next(f, e))
    ensures Inv(Next(f, e))
  {
    match e {
      case Play(id) => PlayKeeps(f, id);
      case AppendGo => AppendKeeps(f);
      case Stop(id) => StopKeeps(f, id);
      case BeginPacket(packet) => PacketKeeps(f, packet);
      case PassGo =>
        if f.pass.Packet? {
          if f.pass.turn.Serving? { ServingKeeps(f); }
          else if f.pass.turn.Removing? { RemovingKeeps(f); }
          else { LookKeeps(f); }
        }
      case _ => FrameKeeps(f, e);
    }
  }

  lemma {:induction false} RunKeeps(f: Fan, events: seq<Event>)
    requires Inv(f) && NeverAstray(f, events)
    ensures Inv(Run(f, events))
    decreases |events|
  {
    if events != [] {
      NextKeeps(f, events[0]);
      RunKeeps(Next(f, events[0]), events[1..]);
    }
  }

  /** Whatever PLAY, STOP and the sender do between and during the walks, if every visit gets the client at its
      index, then every client has been served without a gap, from right after the first packet of a key frame,
      and up to its last turn until it is flagged. */
  lemma ServedOverEveryRun(events: seq<Event>, j: int)
    requires NeverAstray(EMPTY, events) && 0 <= j < |Run(EMPTY, events).clients|
    ensures var f := Run(EMPTY, events); Served(f.clients[j], f, Due(f, j))
  {
    RunKeeps(EMPTY, events);
    assert ClientGood(Run(EMPTY, events), j);
  }

  // ---------------------------------------------------------------- requests

  /** No Call-ID is listed twice. */
  predicate OncePerCallId(clients: seq<Client>)
  {
    forall i, j :: 0 <= i < j < |clients| ==> clients[i].callId != clients[j].callId
  }

  /** `r` is `clients` but for what the walk and STOP change. */
  predicate SameCallIds(clients: seq<Client>, r: seq<Client>)
  {
    |r| == |clients| && forall j :: 0 <= j < |r| ==> r[j].callId == clients[j].callId
  }

  /** STOP flags the client of this Call-ID and changes no other. */
  lemma {:induction false} FlagIs(clients: seq<Client>, id: string)
    requires OncePerCallId(clients)
    ensures var r := Flag(clients, id);
      forall j :: 0 <= j < |clients| ==>
        r[j] == if clients[j].callId == id then clients[j].(deleted := true) else clients[j]
  {
    if clients != [] && clients[0].callId != id {
      assert forall j :: 0 <= j < |clients| - 1 ==> clients[1..][j] == clients[j + 1];
      FlagIs(clients[1..], id);
    }
  }

  lemma PassOnKeepsCallIds(f: Fan)
    requires f.pass.Packet? && OncePerCallId(f.clients)
    ensures OncePerCallId(PassOn(f).clients)
  {
    if f.pass.turn.Serving? && 0 <= f.pass.turn.k < |f.clients| {
      assert SameCallIds(f.clients, PassOn(f).clients);
    }
  }

  lemma NextKeepsCallIds(f: Fan, e: Event)
    requires OncePerCallId(f.clients)
    ensures OncePerCallId(Next(f, e).clients)
  {
    match e {
      case PassGo => if f.pass.Packet? { PassOnKeepsCallIds(f); }
      case Stop(id) =>
        FlagIs(f.clients, id);
        assert SameCallIds(f.clients, Flag(f.clients, id));
      case _ =>
    }
  }

  lemma {:induction false} RunKeepsCallIds(f: Fan, events: seq<Event>)
    requires OncePerCallId(f.clients)
    ensures OncePerCallId(Run(f, events).clients)
    decreases |events|
  {
    if events != [] {
      NextKeepsCallIds(f, events[0]);
      RunKeepsCallIds(Next(f, events[0]), events[1..]);
    }
  }

  /** In no run is a Call-ID listed twice. */
  lemma OneClientPerCallId(events: seq<Event>, i: int, j: int)
    requires 0 <= i < j < |Run(EMPTY, events).clients|
    ensures Run(EMPTY, events).clients[i].callId != Run(EMPTY, events).clients[j].callId
  {
    RunKeepsCallIds(EMPTY, events);
  }

  /** After every run STOP flags exactly the client of its Call-ID, if there is one, and changes nothing else. */
  lemma StopExactly(events: seq<Event>, id: string)
    requires Run(EMPTY, events).stage == Quiet
    ensures var f := Run(EMPTY, events);
      var g := Next(f, Stop(id));
      && g == f.(clients := g.clients) && |g.clients| == |f.clients|
      && forall j :: 0 <= j < |f.clients| ==>
           g.clients[j] == if f.clients[j].callId == id then f.clients[j].(deleted := true) else f.clients[j]
  {
    RunKeepsCallIds(EMPTY, events);
    FlagIs(Run(EMPTY, events).clients, id);
  }

  /** PLAY begins to append a client for its Call-ID, behind all others, if and only if none has it. */
  lemma PlayExactly(f: Fan, id: string)
    requires f.stage == Quiet
    ensures var g := Next(f, Play(id));
      && ((exists j :: 0 <= j < |f.clients| && f.clients[j].callId == id) ==> g == f)
      && ((forall j :: 0 <= j < |f.clients| ==> f.clients[j].callId != id) ==>
            g == f.(clients := f.clients + [Client(id, false, false, [], 0)], stage := NextSet))
  {
  }

  // ---------------------------------------------------------------- flagged clients

  /** Where the client at place `j` is after a step; -1 if it has been removed. */
  function PlaceAfter(f: Fan, e: Event, j: int): int
  {
    if e.PassGo? && f.pass.Packet? && f.pass.turn.Removing? && f.stage == Quiet
        && 0 <= f.pass.turn.k < |f.clients| && f.pass.turn.k <= j then
      if j == f.pass.turn.k then -1 else j - 1
    else j
  }

  /** And after a run. */
  function PlaceAtEnd(f: Fan, events: seq<Event>, j: int): int
    decreases |events|
  {
    if events == [] || j < 0 then j else PlaceAtEnd(Next(f, events[0]), events[1..], PlaceAfter(f, events[0], j))
  }

  /** The client at place `j` has been found unflagged and is about to get the packet made last. */
  predicate Tested(f: Fan, j: int) { f.pass.Packet? && f.pass.turn == Serving(j) && f.made != [] }

  /** A step gives a flagged client nothing but the packet for which it had been tested. */
  lemma FlaggedStep(f: Fan, e: Event, j: int)
    requires 0 <= j < |f.clients| && f.clients[j].deleted
    ensures var g, k := Next(f, e), PlaceAfter(f, e, j);
      k == -1 ||
      (&& 0 <= k < |g.clients| && g.clients[k].deleted && g.clients[k].callId == f.clients[j].callId
       && g.clients[k].log == f.clients[j].log + (if Tested(f, j) && e.PassGo? && f.clients[j].synced
                                                  then [Last(f.made)] else [])
       && (Tested(g, k) ==> Tested(f, j) && !e.PassGo? && g.made == f.made))
  {
    if e.Stop? { FlagMarks(f.clients, e.callId); }
  }

  /** In every run a client that is flagged gets at most one packet more, and that only if it was found unflagged
      for this packet before. */
  lemma {:induction false} FlaggedGetsNoMore(f: Fan, events: seq<Event>, j: int)
    requires 0 <= j < |f.clients| && f.clients[j].deleted
    ensures var g, k := Run(f, events), PlaceAtEnd(f, events, j);
      k == -1 ||
      (&& 0 <= k < |g.clients| && g.clients[k].deleted && g.clients[k].callId == f.clients[j].callId
       && (g.clients[k].log == f.clients[j].log
           || (Tested(f, j) && g.clients[k].log == f.clients[j].log + [Last(f.made)])))
    decreases |events|
  {
    if events != [] {
      var e := events[0];
      FlaggedStep(f, e, j);
      if PlaceAfter(f, e, j) >= 0 { FlaggedGetsNoMore(Next(f, e), events[1..], PlaceAfter(f, e, j)); }
    }
  }

  // ---------------------------------------------------------------- walks that nothing overtakes

  /** Nothing is being appended, and the sender is between the packets of a frame. */
  predicate Between(f: Fan) { f.pass.Frame? && f.stage == Quiet && 0 <= f.pass.size <= |f.clients| }

  /** One packet to every listed client, undisturbed. */
  function Send(f: Fan, packet: seq<byte>): (g: Fan)
    requires Between(f)
    ensures Between(g)
  {
    var p := f.pass;
    var front := Walk(f.clients[..p.size], packet, p.key, |f.made|);
    Fan(front + f.clients[p.size..], Quiet, Frame(|front|, p.key, p.sent + 1),
        f.made + [packet], f.keys + [p.key], f.firsts + [p.sent == 0])
  }

  /** A client flagged before a packet gets neither it nor a place in the list; one not listed when the
      frame began keeps its place and gets nothing. */
  lemma FlaggedGetNothing(f: Fan, packet: seq<byte>)
    requires Between(f)
    ensures var g, p := Send(f, packet), f.pass;
      var n := |Kept(f.clients[..p.size])|;
      && g.pass.size == n
      && |g.clients| == n + |f.clients| - p.size
      && (forall i :: 0 <= i < n ==> g.clients[i] == Visit(Kept(f.clients[..p.size])[i], packet, p.key, |f.made|))
      && g.clients[n..] == f.clients[p.size..]
  {
    var listed, key := f.clients[..f.pass.size], f.pass.key;
    WalkVisitsEachOnce(listed, packet, key, |f.made|, 0);
    forall i | 0 <= i < |Kept(listed)|
      ensures Send(f, packet).clients[i] == Visit(Kept(listed)[i], packet, key, |f.made|)
    {
      WalkVisitsEachOnce(listed, packet, key, |f.made|, i);
    }
  }

  /** Sends the packets of one frame. */
  function SendAll(f: Fan, packets: seq<seq<byte>>): (g: Fan)
    requires Between(f)
    ensures Between(g)
    decreases |packets|
  {
    if packets == [] then f else SendAll(Send(f, packets[0]), packets[1..])
  }

  lemma {:induction false} SendAllSnoc(f: Fan, packets: seq<seq<byte>>, p: seq<byte>)
    requires Between(f)
    ensures SendAll(f, packets + [p]) == Send(SendAll(f, packets), p)
    decreases |packets|
  {
    if packets == [] {
      assert SendAll(Send(f, p), []) == Send(f, p);
    } else {
      assert (packets + [p])[1..] == packets[1..] + [p];
      SendAllSnoc(Send(f, packets[0]), packets[1..], p);
    }
  }

  /** One turn of the walk: the visited client is dropped or updated in place. */
  lemma WalkStep(now: seq<Client>, all: seq<Client>, k: int, packet: seq<byte>, key: bool, n: nat, i: int)
    requires 0 <= k < |all| && i == |Walk(all[..k], packet, key, n)|
    requires now == Walk(all[..k], packet, key, n) + all[k..]
    ensures var after := Walk(all[..k + 1], packet, key, n);
      && i < |now| && now[i] == all[k]
      && (all[k].deleted ==> |after| == i && now[..i] + now[i + 1..] == after + all[k + 1..])
      && (!all[k].deleted ==> |after| == i + 1 && now[i := Visit(all[k], packet, key, n)] == after + all[k + 1..])
  {
    assert all[..k + 1] == all[..k] + [all[k]];
    WalkSnoc(all[..k], all[k], packet, key, n);
  }

  /** `k` steps of the sender. */
  function Steps(f: Fan, k: nat): Fan
    decreases k
  {
    if k == 0 then f else Steps(Next(f, PassGo), k - 1)
  }

  lemma {:induction false} StepsAdd(f: Fan, j: nat, k: nat)
    ensures Steps(f, j + k) == Steps(Steps(f, j), k)
    decreases j
  {
    if j > 0 { StepsAdd(Next(f, PassGo), j - 1, k); }
  }

  /** An undisturbed lookup ends at the client asked for. */
  lemma {:induction false} LookEnds(f: Fan) returns (k: nat)
    requires f.stage == Quiet && f.pass.Packet? && f.pass.turn.Looking? && Exact(MemOf(f), f.pass.turn.l)
    ensures Steps(f, k) == f.(pass := f.pass.(turn := Holding(f.pass.turn.l.i)))
    decreases Accesses(|f.clients|, f.pass.turn.l)
  {
    var l := f.pass.turn.l;
    if l.Found? {
      k := 1;
    } else {
      ExactStep(MemOf(f), l);
      var rest := LookEnds(Next(f, PassGo));
      k := rest + 1;
    }
  }

  /** An undisturbed visit. */
  lemma VisitEnds(f: Fan) returns (k: nat)
    requires f.stage == Quiet && f.pass.Packet? && f.pass.turn == Pick && f.pass.left > 0 && 0 <= f.pass.i < |f.clients|
    requires f.made != []
    ensures var p, c := f.pass, f.clients[f.pass.i];
      Steps(f, k) ==
      if c.deleted then
        f.(clients := f.clients[..p.i] + f.clients[p.i + 1..], pass := p.(left := p.left - 1, size := p.size - 1))
      else
        f.(clients := f.clients[p.i := Visit(c, Last(f.made), p.key, |f.made| - 1)],
           pass := p.(i := p.i + 1, left := p.left - 1))
  {
    var looking := Next(f, PassGo);
    var j := LookEnds(looking);
    var held := Steps(looking, j);
    StepsAdd(looking, j, 2);
    assert Steps(held, 2) == Steps(Next(held, PassGo), 1) == Steps(Next(Next(held, PassGo), PassGo), 0);
    k := 1 + (j + 2);
  }

  /** An undisturbed walk over `all`, of which the first `j` have had their turn. */
  predicate Underway(f: Fan, all: seq<Client>, j: nat)
  {
    && f.stage == Quiet && f.pass.Packet? && f.pass.turn == Pick && f.made != []
    && 0 <= f.pass.left && j + f.pass.left <= |all|
    && var front := Walk(all[..j], Last(f.made), f.pass.key, |f.made| - 1);
       f.clients == front + all[j..] && f.pass.i == |front| && f.pass.size == f.pass.i + f.pass.left
  }

  lemma WalkGoes(f: Fan, all: seq<Client>, j: nat) returns (k: nat)
    requires Underway(f, all, j) && f.pass.left > 0
    ensures var g := Steps(f, k);
      && Underway(g, all, j + 1) && g == f.(clients := g.clients, pass := g.pass)
      && g.pass == f.pass.(i := g.pass.i, left := f.pass.left - 1, size := g.pass.size)
  {
    WalkStep(f.clients, all, j, Last(f.made), f.pass.key, |f.made| - 1, f.pass.i);
    k := VisitEnds(f);
  }

  lemma {:induction false} WalkEnds(f: Fan, all: seq<Client>, j: nat) returns (k: nat)
    requires Underway(f, all, j)
    ensures var n, p := j + f.pass.left, f.pass;
      var front := Walk(all[..n], Last(f.made), p.key, |f.made| - 1);
      Steps(f, k) == f.(clients := front + all[n..], pass := Frame(|front|, p.key, p.sent))
    decreases f.pass.left
  {
    if f.pass.left == 0 {
      k := 1;
    } else {
      var first := WalkGoes(f, all, j);
      var rest := WalkEnds(Steps(f, first), all, j + 1);
      StepsAdd(f, first, rest);
      k := first + rest;
    }
  }

  /** The steps of a walk that no append disturbs come to one pass over every listed client. */
  lemma UndisturbedWalk(f: Fan, packet: seq<byte>) returns (k: nat)
    requires Between(f)
    ensures Steps(Next(f, BeginPacket(packet)), k) == Send(f, packet)
  {
    var g := Next(f, BeginPacket(packet));
    assert Walk(f.clients[..0], packet, f.pass.key, |f.made|) == [];
    k := WalkEnds(g, f.clients, 0);
  }

  // ---------------------------------------------------------------- a whole frame

  lemma {:induction false} RunSplit(f: Fan, first: seq<Event>, second: seq<Event>)
    ensures Run(f, first + second) == Run(Run(f, first), second)
    decreases |first|
  {
    if first == [] {
      assert first + second == second;
    } else {
      assert (first + second)[1..] == first[1..] + second;
      RunSplit(Next(f, first[0]), first[1..], second);
    }
  }

  lemma {:induction false} StepsAreRun(f: Fan, k: nat) returns (events: seq<Event>)
    ensures Run(f, events) == Steps(f, k)
    decreases k
  {
    events := [];
    if k > 0 {
      var rest := StepsAreRun(Next(f, PassGo), k - 1);
      events := [PassGo] + rest;
    }
  }

  lemma PacketRuns(f: Fan, packet: seq<byte>) returns (events: seq<Event>)
    requires Between(f)
    ensures Run(f, events) == Send(f, packet)
  {
    var k := UndisturbedWalk(f, packet);
    var walk := StepsAreRun(Next(f, BeginPacket(packet)), k);
    events := [BeginPacket(packet)] + walk;
  }

  lemma {:induction false} PacketsRun(f: Fan, packets: seq<seq<byte>>) returns (events: seq<Event>)
    requires Between(f)
    ensures Run(f, events) == SendAll(f, packets)
    decreases |packets|
  {
    events := [];
    if packets != [] {
      var first := PacketRuns(f, packets[0]);
      var rest := PacketsRun(Send(f, packets[0]), packets[1..]);
      RunSplit(f, first, rest);
      events := first + rest;
    }
  }

  lemma {:induction false} KeptIs(clients: seq<Client>)
    ensures forall c :: c in Kept(clients) <==> c in clients && !c.deleted
    ensures (forall c <- clients :: !c.deleted) ==> Kept(clients) == clients
  {
    if clients != [] {
      KeptIs(clients[1..]);
      assert clients == [clients[0]] + clients[1..];
    }
  }

  /** What `packets` of one frame have made of a client. */
  predicate Reached(c: Client, d: Client, key: bool, packets: seq<seq<byte>>)
  {
    && d.callId == c.callId && !d.deleted
    && (c.synced ==> d.synced && d.log == c.log + packets)
    && (!c.synced && key && packets != [] ==> d.synced && d.log == c.log + packets[1..])
    && (!c.synced && (!key || packets == []) ==> d.log == c.log && !d.synced)
  }

  predicate AllReached(clients: seq<Client>, now: seq<Client>, key: bool, packets: seq<seq<byte>>)
  {
    |now| == |clients| && forall j :: 0 <= j < |clients| ==> Reached(clients[j], now[j], key, packets)
  }

  lemma ReachedOnce(c: Client, d: Client, key: bool, packets: seq<seq<byte>>, packet: seq<byte>, made: nat)
    requires Reached(c, d, key, packets)
    ensures Reached(c, Visit(d, packet, key, made), key, packets + [packet])
  {
    if packets == [] {
      assert (packets + [packet])[1..] == [];
    } else {
      assert (packets + [packet])[1..] == packets[1..] + [packet];
    }
  }

  /** One packet more. */
  lemma SendReaches(clients: seq<Client>, f: Fan, sent: seq<seq<byte>>, packet: seq<byte>)
    requires Between(f) && f.pass.size == |f.clients| && AllReached(clients, Kept(f.clients), f.pass.key, sent)
    ensures var g := Send(f, packet); g.pass.size == |g.clients| && g.pass.key == f.pass.key
    ensures AllReached(clients, Send(f, packet).clients, f.pass.key, sent + [packet])
  {
    FlaggedGetNothing(f, packet);
    assert f.clients[..f.pass.size] == f.clients;
    forall j | 0 <= j < |clients|
      ensures Reached(clients[j], Send(f, packet).clients[j], f.pass.key, sent + [packet])
    {
      ReachedOnce(clients[j], Kept(f.clients)[j], f.pass.key, sent, packet, |f.made|);
    }
  }

  lemma NoneFlagged(clients: seq<Client>, now: seq<Client>, key: bool, packets: seq<seq<byte>>)
    requires AllReached(clients, now, key, packets)
    ensures Kept(now) == now
  {
    KeptIs(now);
  }

  lemma {:induction false} SendAllReaches(clients: seq<Client>, f: Fan, sent: seq<seq<byte>>, packets: seq<seq<byte>>)
    requires Between(f) && f.pass.size == |f.clients| && AllReached(clients, f.clients, f.pass.key, sent)
    ensures AllReached(clients, SendAll(f, packets).clients, f.pass.key, sent + packets)
    decreases |packets|
  {
    if packets == [] {
      assert sent + packets == sent;
    } else {
      NoneFlagged(clients, f.clients, f.pass.key, sent);
      SendReaches(clients, f, sent, packets[0]);
      SendAllReaches(clients, Send(f, packets[0]), sent + [packets[0]], packets[1..]);
      assert sent + [packets[0]] + packets[1..] == sent + packets;
    }
  }

  lemma FirstReached(clients: seq<Client>, key: bool)
    requires forall c <- clients :: !c.deleted
    ensures AllReached(clients, clients, key, [])
  {
  }

  /** A frame of at least one packet that nothing disturbs: flagged clients go, and each other one has got all its
      packets, or all but the first if it is the key frame that switches the client on, or none. */
  lemma FrameReaches(f: Fan, key: bool, packets: seq<seq<byte>>) returns (events: seq<Event>)
    requires f.stage == Quiet && f.pass.Idle? && packets != []
    ensures AllReached(Kept(f.clients), Run(f, [BeginFrame(key)] + events + [EndFrame]).clients, key, packets)
    ensures Run(f, [BeginFrame(key)] + events + [EndFrame]).pass == Idle
  {
    var begun := Next(f, BeginFrame(key));
    events := PacketsRun(begun, packets);
    KeptIs(f.clients);
    FirstReached(Kept(f.clients), key);
    SendReaches(Kept(f.clients), begun, [], packets[0]);
    assert [] + [packets[0]] == [packets[0]];
    SendAllReaches(Kept(f.clients), Send(begun, packets[0]), [packets[0]], packets[1..]);
    assert [packets[0]] + packets[1..] == packets;
    Closes(f, key, events);
  }

  lemma Closes(f: Fan, key: bool, events: seq<Event>)
    requires Run(Next(f, BeginFrame(key)), events).pass.Frame?
    ensures var g := Run(Next(f, BeginFrame(key)), events);
      Run(f, [BeginFrame(key)] + events + [EndFrame]) == g.(pass := Idle)
  {
    var g := Run(Next(f, BeginFrame(key)), events);
    assert [BeginFrame(key)] + events + [EndFrame] == [BeginFrame(key)] + (events + [EndFrame]);
    assert Run(f, [BeginFrame(key)] + (events + [EndFrame])) == Run(Next(f, BeginFrame(key)), events + [EndFrame]);
    RunSplit(Next(f, BeginFrame(key)), events, [EndFrame]);
    assert Run(Next(g, EndFrame), []) == Next(g, EndFrame);
  }
}

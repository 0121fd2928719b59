/** What an append does to the walk over the clients: exactly which visits and which walks it can lead to a wrong
    client, a run in which a client in service loses a packet, and exactly when no client can. */
module FanRace {
  import opened Bytes
  import opened ListRace
  import opened FanOut

  /** The sender is about to visit a client and nothing is being appended. */
  predicate AboutToVisit(f: Fan)
  {
    f.stage == Quiet && f.pass.Packet? && f.pass.turn == Pick && f.pass.left > 0 && 0 <= f.pass.i < |f.clients|
  }

  /** In this run the visit that `f` is about to make got the wrong client. */
  predicate WrongVisit(f: Fan, events: seq<Event>)
    requires f.pass.Packet?
  {
    var g := Run(f, events);
    g.pass.Packet? && g.made == f.made && g.pass.left == f.pass.left && g.pass.turn.Holding?
        && g.pass.turn.k != f.pass.i
  }

  // ---------------------------------------------------------------- visits that are always right

  /** The visit of `f` has got its client, or is looking it up from the head. */
  predicate OnTheWay(f: Fan, g: Fan)
    requires f.pass.Packet?
  {
    || |g.made| > |f.made|
    || !g.pass.Packet?
    || g.pass.left < f.pass.left
    || (g.pass.left == f.pass.left && g.pass.i == f.pass.i && 4 * (f.pass.i + 1) <= MemOf(g).n && 0 <= f.pass.i
        && match g.pass.turn
           case Looking(l) => l.i == f.pass.i && Steady(MemOf(g), l)
           case Holding(k) => k == f.pass.i
           case _ => true)
  }

  lemma OnTheWayNext(f: Fan, g: Fan, e: Event)
    requires f.pass.Packet? && OnTheWay(f, g) && |g.made| >= |f.made| && (g.stage != Quiet ==> g.clients != [])
    ensures var h := Next(g, e); OnTheWay(f, h) && |h.made| >= |f.made| && (h.stage != Quiet ==> h.clients != [])
  {
    if e.PassGo? && g.pass.Packet? && g.pass.turn.Looking? { SteadyNext(g); }
    if e.AppendGo? && g.pass.Packet? && g.pass.turn.Looking? { SteadyAppend(g); }
  }

  lemma SteadyNext(g: Fan)
    requires g.pass.Packet? && g.pass.turn.Looking?
    ensures var m, l := MemOf(g), g.pass.turn.l; Steady(m, l) ==> Steady(m, LookStep(m, l)) && LookStep(m, l).i == l.i
  {
    var l := g.pass.turn.l;
    if Steady(MemOf(g), l) { SteadyStep(MemOf(g), l); }
  }

  lemma SteadyAppend(g: Fan)
    requires g.pass.Packet? && g.pass.turn.Looking? && (g.stage != Quiet ==> g.clients != [])
    ensures Steady(MemOf(g), g.pass.turn.l) ==> Steady(MemOf(Next(g, AppendGo)), g.pass.turn.l)
  {
    if Steady(MemOf(g), g.pass.turn.l) && g.stage != Quiet {
      AppendStepSteady(MemOf(g), g.pass.turn.l);
      assert MemOf(Next(g, AppendGo)) == AppendStep(MemOf(g));
    }
  }

  lemma {:induction false} OnTheWayRun(f: Fan, g: Fan, events: seq<Event>)
    requires f.pass.Packet? && OnTheWay(f, g) && |g.made| >= |f.made| && (g.stage != Quiet ==> g.clients != [])
    ensures var h := Run(g, events); OnTheWay(f, h) && |h.made| >= |f.made|
    decreases |events|
  {
    if events != [] {
      OnTheWayNext(f, g, events[0]);
      OnTheWayRun(f, Next(g, events[0]), events[1..]);
    }
  }

  // ---------------------------------------------------------------- visits that can go wrong

  lemma {:induction false} RunAdd(f: Fan, a: seq<Event>, b: seq<Event>)
    ensures Run(f, a + b) == Run(Run(f, a), b)
    decreases |a|
  {
    if a == [] {
      assert a + b == b;
    } else {
      assert (a + b)[1..] == a[1..] + b;
      RunAdd(Next(f, a[0]), a[1..], b);
    }
  }

  /** A Call-ID longer than all in use. */
  function Fresh(clients: seq<Client>): string
  {
    if clients == [] then "x" else clients[0].callId + Fresh(clients[1..])
  }

  lemma {:induction false} FreshIsNew(clients: seq<Client>)
    ensures |Fresh(clients)| > 0 && forall c <- clients :: |c.callId| < |Fresh(clients)|
  {
    if clients != [] {
      FreshIsNew(clients[1..]);
      assert clients == [clients[0]] + clients[1..];
    }
  }

  lemma AppendMove(f: Fan) returns (e: Event)
    requires f.stage != Quiet ==> f.clients != []
    ensures var g := Next(f, e);
      MemOf(g) == AppendStep(MemOf(f)) && g == f.(clients := g.clients, stage := g.stage)
          && (g.stage != Quiet ==> g.clients != [])
  {
    if f.stage == Quiet {
      FreshIsNew(f.clients);
      e := Play(Fresh(f.clients));
    } else {
      e := AppendGo;
    }
  }

  /** A race between an append and a lookup, played by PLAY and the sender. */
  lemma {:induction false} Follow(f: Fan, schedule: seq<bool>) returns (events: seq<Event>)
    requires f.pass.Packet? && f.pass.turn.Looking? && Sound(MemOf(f), f.pass.turn.l)
    requires f.stage != Quiet ==> f.clients != []
    ensures var g, l := Run(f, events), Go(Race(MemOf(f), f.pass.turn.l), schedule).l;
      g.pass == f.pass.(turn := Looking(l)) && g.made == f.made && Sound(MemOf(g), l)
          && (g.stage != Quiet ==> g.clients != [])
    decreases |schedule|
  {
    var r := Race(MemOf(f), f.pass.turn.l);
    if schedule == [] {
      events := [];
    } else if f.pass.turn.l.Found? {
      FoundStays(r, schedule);
      events := [];
    } else {
      var e;
      if schedule[0] {
        e := AppendMove(f);
        AppendStepSound(r.m, r.l);
      } else {
        e := PassGo;
        LookStepSound(r.m, r.l);
      }
      var rest := Follow(Next(f, e), schedule[1..]);
      events := [e] + rest;
    }
  }

  lemma {:induction false} FoundStays(r: Race, schedule: seq<bool>)
    requires r.l.Found?
    ensures Go(r, schedule).l == r.l
    decreases |schedule|
  {
    if schedule != [] { FoundStays(ListRace.Turn(r, schedule[0]), schedule[1..]); }
  }

  lemma Mislead(f: Fan) returns (events: seq<Event>)
    requires AboutToVisit(f) && |f.clients| < 4 * (f.pass.i + 1)
    ensures WrongVisit(f, events)
  {
    var n, i := |f.clients|, f.pass.i;
    var schedule;
    if 4 * (i + 1) <= 3 * n { schedule := MiddleOvertaken(n, i); } else { schedule := TailOvertaken(n, i); }
    var looking := Next(f, PassGo);
    var race := Follow(looking, schedule);
    RunAdd(looking, race, [PassGo]);
    RunAdd(f, [PassGo], race + [PassGo]);
    events := [PassGo] + (race + [PassGo]);
  }

  /** Whatever PLAY and STOP do, a visit gets the client at its index if and only if that is in the first quarter. */
  lemma VisitExactly(f: Fan)
    requires AboutToVisit(f)
    ensures (forall events :: !WrongVisit(f, events)) <==> 4 * (f.pass.i + 1) <= |f.clients|
  {
    if 4 * (f.pass.i + 1) <= |f.clients| {
      forall events ensures !WrongVisit(f, events) { OnTheWayRun(f, f, events); }
    } else {
      var events := Mislead(f);
    }
  }

  // ---------------------------------------------------------------- walks

  /** In the walk for this packet, undisturbed for `k` steps, a visit can then get the wrong client. */
  predicate WalkGoesWrong(f: Fan, packet: seq<byte>, k: nat, events: seq<Event>)
  {
    var g := Steps(Next(f, BeginPacket(packet)), k);
    AboutToVisit(g) && WrongVisit(g, events)
  }

  /** The walk is under way, undisturbed, and its visits get what they ask for. */
  predicate Along(f: Fan)
  {
    && f.stage == Quiet && f.pass.Packet? && f.made != []
    && var p := f.pass;
       && 0 <= p.i && 0 <= p.left && p.i + p.left <= |f.clients| && (p.turn.Pick? || p.left > 0)
       && match p.turn
          case Pick => true
          case Looking(l) => l.i == p.i && Exact(MemOf(f), l)
          case Holding(k) => k == p.i
          case Serving(k) => k == p.i && !f.clients[k].deleted
          case Removing(k) => k == p.i && f.clients[k].deleted
  }

  /** When the last of `left` visits from place `i` on is made, its client is beyond the first quarter: the clients
      visited before are those of them that are not flagged, and the others have gone. */
  predicate LastExposed(clients: seq<Client>, i: int, left: int)
    requires 0 <= i && 0 < left && i + left <= |clients|
  {
    var kept := |Kept(clients[i..i + left - 1])|;
    4 * (i + kept + 1) > |clients| - (left - 1 - kept)
  }

  predicate Exposed(f: Fan)
    requires Along(f)
  {
    f.pass.left > 0 && LastExposed(f.clients, f.pass.i, f.pass.left)
  }

  /** The first of the clients visited goes, or keeps its place. */
  lemma ExposedAfterVisit(clients: seq<Client>, i: int, left: int, c: Client)
    requires 0 <= i && 1 < left && i + left <= |clients|
    ensures clients[i].deleted
        ==> (LastExposed(clients[..i] + clients[i + 1..], i, left - 1) <==> LastExposed(clients, i, left))
    ensures !clients[i].deleted
        ==> (LastExposed(clients[i := c], i + 1, left - 1) <==> LastExposed(clients, i, left))
  {
    var ahead := clients[i + 1..i + left - 1];
    assert clients[i..i + left - 1] == [clients[i]] + ahead;
    assert (clients[..i] + clients[i + 1..])[i..i + left - 2] == ahead;
    assert clients[i := c][i + 1..i + left - 1] == ahead;
  }

  /** The last visit of a walk stays as exposed as it is. */
  predicate SameExposed(f: Fan, g: Fan)
    requires Along(f) && Along(g)
  {
    g.pass.left > 0 ==> (Exposed(g) <==> Exposed(f))
  }

  lemma AlongLooks(f: Fan)
    requires Along(f) && f.pass.turn.Looking?
    ensures var g := Next(f, PassGo);
      g == f.(pass := g.pass) && Along(g) && g.pass.i == f.pass.i && g.pass.left == f.pass.left > 0
  {
    var l := f.pass.turn.l;
    if !l.Found? { ExactStep(MemOf(f), l); }
  }

  lemma AlongNext(f: Fan)
    requires Along(f)
    ensures var g := Next(f, PassGo);
      && (f.pass.left == 0 ==> g.pass.Frame?)
      && (f.pass.left > 0 ==> Along(g) && g.pass.left <= f.pass.left && SameExposed(f, g))
  {
    var p := f.pass;
    match p.turn
    case Looking(l) => AlongLooks(f);
    case Serving(k) =>
      var c := Visit(f.clients[k], Last(f.made), p.key, |f.made| - 1);
      if p.left > 1 { ExposedAfterVisit(f.clients, k, p.left, c); }
    case Removing(k) => if p.left > 1 { ExposedAfterVisit(f.clients, k, p.left, f.clients[k]); }
    case _ =>
  }

  lemma {:induction false} AlongSteps(f: Fan, k: nat)
    requires Along(f)
    ensures var g := Steps(f, k);
      && (g.pass.Packet? ==> Along(g) && g.pass.left <= f.pass.left && SameExposed(f, g))
      && (!g.pass.Packet? ==> g.pass.Frame?)
    decreases k
  {
    if k > 0 {
      AlongNext(f);
      if f.pass.left > 0 { AlongSteps(Next(f, PassGo), k - 1); } else { FrameStays(Next(f, PassGo), k - 1); }
    }
  }

  lemma {:induction false} FrameStays(f: Fan, k: nat)
    requires f.pass.Frame?
    ensures Steps(f, k) == f
    decreases k
  {
    if k > 0 { FrameStays(f, k - 1); }
  }

  /** The walk comes to its last visit. */
  lemma {:induction false} ToLastVisit(f: Fan) returns (k: nat)
    requires Along(f) && f.pass.turn.Pick? && f.pass.left > 0
    ensures var g := Steps(f, k); AboutToVisit(g) && g.pass.left == 1
    decreases f.pass.left
  {
    if f.pass.left == 1 {
      k := 0;
    } else {
      var first := VisitEnds(f);
      var rest := ToLastVisit(Steps(f, first));
      StepsAdd(f, first, rest);
      k := first + rest;
    }
  }

  /** PLAY can lead the walk for a packet to a wrong client if and only if the last client the walk comes to is then
      beyond the first quarter of the list. */
  lemma WalkExactly(f: Fan, packet: seq<byte>)
    requires Between(f)
    ensures (exists k, events :: WalkGoesWrong(f, packet, k, events))
       <==> f.pass.size > 0 && LastExposed(f.clients, 0, f.pass.size)
  {
    var g := Next(f, BeginPacket(packet));
    forall k, events | WalkGoesWrong(f, packet, k, events) ensures Exposed(g) {
      AlongSteps(g, k);
      VisitExactly(Steps(g, k));
    }
    if Exposed(g) {
      var k := ToLastVisit(g);
      AlongSteps(g, k);
      var events := Mislead(Steps(g, k));
      assert WalkGoesWrong(f, packet, k, events);
    }
  }

  lemma {:induction false} KeptAll(clients: seq<Client>)
    requires forall i :: 0 <= i < |clients| ==> !clients[i].deleted
    ensures Kept(clients) == clients
  {
    if clients != [] { KeptAll(clients[1..]); }
  }

  /** Over clients none of which is flagged, if and only if more than a quarter of those listed now were listed when
      the frame began. */
  lemma UnflaggedWalkExactly(f: Fan, packet: seq<byte>)
    requires Between(f) && forall i :: 0 <= i < |f.clients| ==> !f.clients[i].deleted
    ensures (exists k, events :: WalkGoesWrong(f, packet, k, events)) <==> 4 * f.pass.size > |f.clients|
  {
    WalkExactly(f, packet);
    if f.pass.size > 0 { KeptAll(f.clients[..f.pass.size - 1]); }
  }

  // ---------------------------------------------------------------- runs with few clients

  /** At no time are more than `n` clients listed. */
  predicate Within(f: Fan, events: seq<Event>, n: int)
    decreases |events|
  {
    |f.clients| <= n && (events == [] || Within(Next(f, events[0]), events[1..], n))
  }

  /** A lookup of the only client, which may have been counted just now. */
  predicate AloneLook(l: Look)
  {
    match l
    case Check(i) => i == 0
    case Choose(i) => i == 0
    case TailIndex(i, _) => i == 0
    case Stride(i, _, at, count, back) => i == 0 && back && (at, count) in {(Tail, 1), (Pos(0), 0)}
    case Found(i, _, at) => i == 0 && at == Pos(0)
    case _ => false
  }

  ghost predicate Alone(f: Fan)
  {
    Inv(f) && |f.clients| <= 1 && (f.pass.Packet? && f.pass.turn.Looking? ==> AloneLook(f.pass.turn.l))
  }

  lemma AloneNext(f: Fan, e: Event)
    requires Alone(f) && |Next(f, e).clients| <= 1
    ensures Alone(Next(f, e)) && !Astray(Next(f, e))
  {
    if e.PassGo? && f.pass.Packet? && f.pass.turn.Looking? {
      assert MemOf(f) == Mem(1, Quiet) || MemOf(f) == Mem(0, Counted);
    }
    NextKeeps(f, e);
  }

  lemma {:induction false} AloneRun(f: Fan, events: seq<Event>)
    requires Alone(f) && Within(f, events, 1)
    ensures NeverAstray(f, events)
    decreases |events|
  {
    if events != [] {
      AloneNext(f, events[0]);
      AloneRun(Next(f, events[0]), events[1..]);
    }
  }

  lemma {:induction false} WithinMore(f: Fan, events: seq<Event>, n: int, more: int)
    requires Within(f, events, n) && n <= more
    ensures Within(f, events, more)
    decreases |events|
  {
    if events != [] { WithinMore(Next(f, events[0]), events[1..], n, more); }
  }

  /** While at most one client is listed no visit is astray. */
  lemma OneClientNeverAstray(events: seq<Event>, n: int)
    requires Within(EMPTY, events, n) && n <= 1
    ensures NeverAstray(EMPTY, events)
  {
    WithinMore(EMPTY, events, n, 1);
    AloneRun(EMPTY, events);
  }

  // ---------------------------------------------------------------- a client that loses a packet

  /** A run that never lists more than two clients comes here. */
  ghost predicate CanBe(f: Fan) { exists events :: Within(EMPTY, events, 2) && Run(EMPTY, events) == f }

  lemma {:induction false} WithinOneMore(f: Fan, events: seq<Event>, e: Event, n: int)
    requires Within(f, events, n) && |Next(Run(f, events), e).clients| <= n
    ensures Within(f, events + [e], n)
    decreases |events|
  {
    if events == [] {
      assert [e][1..] == [] && events + [e] == [e];
    } else {
      assert (events + [e])[1..] == events[1..] + [e];
      WithinOneMore(Next(f, events[0]), events[1..], e, n);
    }
  }

  lemma OneMore(f: Fan, e: Event)
    requires CanBe(f) && |Next(f, e).clients| <= 2
    ensures CanBe(Next(f, e))
  {
    var events :| Within(EMPTY, events, 2) && Run(EMPTY, events) == f;
    RunAdd(EMPTY, events, [e]);
    WithinOneMore(EMPTY, events, e, 2);
    assert Run(f, [e]) == Run(Next(f, e), []) == Next(f, e);
  }

  lemma {:induction false} MoreSteps(f: Fan, k: nat)
    requires CanBe(f) && |f.clients| <= 2
    ensures CanBe(Steps(f, k))
    decreases k
  {
    if k > 0 {
      OneMore(f, PassGo);
      MoreSteps(Next(f, PassGo), k - 1);
    }
  }

  const FIRST := Client("X", false, true, [], 1)

  /** The walk for the second packet of a key frame, which the first switched the only client on for, is about
      to look that client up. */
  function SecondPacket(p: seq<byte>, q: seq<byte>): Fan
  {
    Fan([FIRST], Quiet, Packet(0, 1, 1, true, 2, Pick), [p, q], [true, true], [true, false])
  }

  lemma OnePlay()
    ensures CanBe(Fan([NewClient("X")], Quiet, Idle, [], [], []))
  {
    assert Within(EMPTY, [], 2) && Run(EMPTY, []) == EMPTY;
    OneMore(EMPTY, Play("X"));
    OneMore(Fan([NewClient("X")], NextSet, Idle, [], [], []), AppendGo);
    OneMore(Fan([NewClient("X")], PrevSet, Idle, [], [], []), AppendGo);
    OneMore(Fan([NewClient("X")], Threaded, Idle, [], [], []), AppendGo);
    OneMore(Fan([NewClient("X")], Linked, Idle, [], [], []), AppendGo);
    OneMore(Fan([NewClient("X")], Counted, Idle, [], [], []), AppendGo);
  }

  lemma SecondPacketComes(p: seq<byte>, q: seq<byte>)
    ensures CanBe(SecondPacket(p, q))
  {
    OnePlay();
    var one := Fan([NewClient("X")], Quiet, Idle, [], [], []);
    OneMore(one, BeginFrame(true));
    var begun := one.(pass := Frame(1, true, 0));
    OneMore(begun, BeginPacket(p));
    var k := UndisturbedWalk(begun, p);
    MoreSteps(Next(begun, BeginPacket(p)), k);
    SwitchedOn(begun, p);
    OneMore(Send(begun, p), BeginPacket(q));
  }

  lemma SwitchedOn(f: Fan, p: seq<byte>)
    requires f == Fan([NewClient("X")], Quiet, Frame(1, true, 0), [], [], [])
    ensures Send(f, p) == Fan([FIRST], Quiet, Frame(1, true, 1), [p], [true], [true])
  {
    assert f.clients[..1] == [NewClient("X")] && f.clients[1..] == [];
    assert Walk([NewClient("X")], p, true, 0) == [FIRST] + Walk([], p, true, 0);
  }

  /** The walk for the second packet, once another client is being appended. */
  function Overlapped(p: seq<byte>, q: seq<byte>, stage: Stage, l: Look): Fan
  {
    SecondPacket(p, q).(clients := [FIRST, NewClient("Y")], stage := stage,
        pass := Packet(0, 1, 1, true, 2, Looking(l)))
  }

  /** The lookup has turned to the tail when another client is linked in before it. */
  lemma LinkedIn(p: seq<byte>, q: seq<byte>)
    ensures CanBe(Overlapped(p, q, Linked, Stride(0, 1, Tail, 1, true)))
  {
    var f := SecondPacket(p, q);
    SecondPacketComes(p, q);
    OneMore(f, PassGo);
    OneMore(f.(pass := f.pass.(turn := Looking(Check(0)))), PassGo);
    OneMore(f.(pass := f.pass.(turn := Looking(Choose(0)))), PassGo);
    OneMore(f.(pass := f.pass.(turn := Looking(TailIndex(0, 1)))), PassGo);
    OneMore(f.(pass := f.pass.(turn := Looking(Stride(0, 1, Tail, 1, true)))), Play("Y"));
    OneMore(Overlapped(p, q, NextSet, Stride(0, 1, Tail, 1, true)), AppendGo);
    OneMore(Overlapped(p, q, PrevSet, Stride(0, 1, Tail, 1, true)), AppendGo);
    OneMore(Overlapped(p, q, Threaded, Stride(0, 1, Tail, 1, true)), AppendGo);
  }

  /** So it gets the other client, and the walk ends. */
  lemma PassedOver(p: seq<byte>, q: seq<byte>) returns (f: Fan)
    ensures CanBe(f) && f.pass == Frame(1, true, 2) && f.made == [p, q] && f.keys == [true, true]
        && f.firsts == [true, false] && f.stage == Linked
    ensures |f.clients| == 2 && f.clients[0] == FIRST
  {
    LinkedIn(p, q);
    var tail := Overlapped(p, q, Linked, Stride(0, 1, Tail, 1, true));
    OneMore(tail, PassGo);
    OneMore(Overlapped(p, q, Linked, Stride(0, 1, Pos(1), 0, true)), PassGo);
    OneMore(Overlapped(p, q, Linked, Found(0, 1, Pos(1))), PassGo);
    OneMore(tail.(pass := tail.pass.(turn := Holding(1))), PassGo);
    var serving := tail.(pass := tail.pass.(turn := Serving(1)));
    OneMore(serving, PassGo);
    OneMore(Next(serving, PassGo), PassGo);
    f := Next(Next(serving, PassGo), PassGo);
  }

  lemma ServesOne(clients: seq<Client>, r: seq<byte>)
    requires |clients| == 2 && clients[0] == FIRST
    ensures Walk(clients[..1], r, true, 2) == [FIRST.(log := [r])]
  {
    assert clients[..1] == [FIRST] && [FIRST][1..] == [];
    assert Visit(FIRST, r, true, 2).log == [r];
    assert Walk([], r, true, 2) == [];
  }

  /** Then the append ends and a third packet goes out undisturbed. */
  lemma ThirdPacketComes(p: seq<byte>, q: seq<byte>, r: seq<byte>) returns (f: Fan)
    ensures CanBe(f) && f.pass == Idle && f.made == [p, q, r] && f.keys == [true, true, true]
        && f.firsts == [true, false, false]
    ensures |f.clients| == 2 && f.clients[0] == FIRST.(log := [r])
  {
    var g := PassedOver(p, q);
    OneMore(g, AppendGo);
    OneMore(g.(stage := Counted), AppendGo);
    var two := g.(stage := Quiet);
    OneMore(two, BeginPacket(r));
    var k := UndisturbedWalk(two, r);
    MoreSteps(Next(two, BeginPacket(r)), k);
    ServesOne(two.clients, r);
    OneMore(Send(two, r), EndFrame);
    f := Next(Send(two, r), EndFrame);
  }

  /** A run with two clients in which one that is switched on and not flagged gets the first packet of a key frame
      and the third but not the second: while it was looked up from the tail, the other was linked in behind it. */
  lemma LosesPacket(p: seq<byte>, q: seq<byte>, r: seq<byte>) returns (events: seq<Event>)
    ensures Within(EMPTY, events, 2)
    ensures var f := Run(EMPTY, events);
      && f.pass == Idle && f.made == [p, q, r] && f.keys == [true, true, true] && f.firsts == [true, false, false]
      && f.clients != [] && f.clients[0] == FIRST.(log := [r])
  {
    var f := ThirdPacketComes(p, q, r);
    events :| Within(EMPTY, events, 2) && Run(EMPTY, events) == f;
  }

  /** In every run that never lists more than `n` clients, every client has been served without a gap. */
  ghost predicate AllGapFree(n: int)
  {
    forall events, j :: Within(EMPTY, events, n) && 0 <= j < |Run(EMPTY, events).clients| ==> GapFree(events, j)
  }

  ghost predicate GapFree(events: seq<Event>, j: int)
    requires 0 <= j < |Run(EMPTY, events).clients|
  {
    var f := Run(EMPTY, events);
    Served(f.clients[j], f, Due(f, j))
  }

  /** Delivery without gaps is certain if and only if no more than one client is ever listed. */
  lemma GapFreeExactly(n: int)
    ensures AllGapFree(n) <==> n <= 1
  {
    if n <= 1 {
      forall events, j | Within(EMPTY, events, n) && 0 <= j < |Run(EMPTY, events).clients| ensures GapFree(events, j) {
        OneClientNeverAstray(events, n);
        ServedOverEveryRun(events, j);
      }
    } else {
      var events := LosesPacket([], [], []);
      WithinMore(EMPTY, events, 2, n);
      assert !GapFree(events, 0);
    }
  }
}

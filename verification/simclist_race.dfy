/** The accesses of a lookup and of an append on the nodes themselves: each is the step that `ListRace` says. */
module SimcListRace {
  import opened Chains
  import opened SimcList
  import opened ListRace

  /** The node at a place, where `s` is the chain before the append and `lent` the node being appended. */
  ghost function NodeAt(s: seq<Entry>, lent: Entry, p: Place): Entry?
    requires |s| >= 2
  {
    match p
    case Pos(k) => if -1 <= k < |s| - 2 then s[k + 1] else if k == |s| - 2 then lent else null
    case Tail => s[|s| - 1]
    case _ => null
  }

  /** A pointer field; one not yet written may hold anything. */
  ghost predicate Holds(field: Entry?, s: seq<Entry>, lent: Entry, p: Place)
    requires |s| >= 2
  {
    p.Stray? || field == NodeAt(s, lent, p)
  }

  /** The forward link of the node at position `k`. */
  ghost predicate NextAt(k: int, s: seq<Entry>, lent: Entry, m: Mem, repr: set<Entry>)
    requires |s| == m.n + 2 && In(s, repr) && -1 <= k < m.n
    reads repr
  {
    Holds(s[k + 1].next, s, lent, NextOf(m, Pos(k)))
  }

  ghost predicate PrevAt(k: int, s: seq<Entry>, lent: Entry, m: Mem, repr: set<Entry>)
    requires |s| == m.n + 2 && In(s, repr) && 0 <= k < m.n
    reads repr
  {
    Holds(s[k + 1].prev, s, lent, PrevOf(m, Pos(k)))
  }

  /** The links are what `m` says. */
  ghost predicate LinksIn(s: seq<Entry>, lent: Entry, m: Mem, repr: set<Entry>)
    requires |s| == m.n + 2 && In(s, repr) && lent in repr
    reads repr
  {
    && (forall k :: -1 <= k < m.n ==> NextAt(k, s, lent, m, repr))
    && (forall k :: 0 <= k < m.n ==> PrevAt(k, s, lent, m, repr))
    && Holds(lent.next, s, lent, NextOf(m, Pos(m.n))) && Holds(lent.prev, s, lent, PrevOf(m, Pos(m.n)))
    && Holds(s[m.n + 1].prev, s, lent, PrevOf(m, Tail))
  }

  /** The list's memory is what `m` says. */
  ghost predicate InMemory(list: List, s: seq<Entry>, lent: Entry, m: Mem, repr: set<Entry>)
    reads list, repr
  {
    && |s| == m.n + 2 && Distinct(s) && lent !in s && In(s, repr) && lent in repr
    && list.headSentinel == s[0] && list.tailSentinel == s[m.n + 1]
    && list.numels == Size(m) && list.mid == MidOf(s, m.n)
    && LinksIn(s, lent, m, repr)
  }

  /** A list at rest is in memory as such. */
  lemma AtRest(list: List, lent: Entry)
    requires list.Valid() && lent !in list.spine && lent in list.repr
    ensures InMemory(list, list.spine, lent, Mem(list.numels, Quiet), list.repr)
  {
    var s, n := list.spine, list.numels;
    forall k | -1 <= k < n ensures NextAt(k, s, lent, Mem(n, Quiet), list.repr) {
      assert s[k + 1].next == s[k + 1 + 1];
    }
    forall k | 0 <= k < n ensures PrevAt(k, s, lent, Mem(n, Quiet), list.repr) {
      assert s[k + 1].prev == s[k];
    }
    assert s[n + 1].prev == s[n];
  }

  /** The writes of `list_append` between the node found at the end, `prec`, and the one behind it, `succ`. */
  method SetNext(list: List, prec: Entry, lent: Entry, ghost s: seq<Entry>, ghost n: nat, ghost repr: set<Entry>)
    requires InMemory(list, s, lent, Mem(n, Quiet), repr) && prec == s[n]
    modifies prec`next
    ensures InMemory(list, s, lent, AppendStep(Mem(n, Quiet)), repr)
  {
    DistinctIsPairwise(s);
    prec.next := lent;
    forall k | -1 <= k < n ensures NextAt(k, s, lent, Mem(n, NextSet), repr) {
      assert old(NextAt(k, s, lent, Mem(n, Quiet), repr));
    }
    forall k | 0 <= k < n ensures PrevAt(k, s, lent, Mem(n, NextSet), repr) {
      assert old(PrevAt(k, s, lent, Mem(n, Quiet), repr));
    }
  }

  method SetPrev(list: List, prec: Entry, lent: Entry, ghost s: seq<Entry>, ghost n: nat, ghost repr: set<Entry>)
    requires InMemory(list, s, lent, Mem(n, NextSet), repr) && prec == s[n]
    modifies lent`prev
    ensures InMemory(list, s, lent, AppendStep(Mem(n, NextSet)), repr)
  {
    DistinctIsPairwise(s);
    lent.prev := prec;
    forall k | -1 <= k < n ensures NextAt(k, s, lent, Mem(n, PrevSet), repr) {
      assert old(NextAt(k, s, lent, Mem(n, NextSet), repr));
    }
    forall k | 0 <= k < n ensures PrevAt(k, s, lent, Mem(n, PrevSet), repr) {
      assert old(PrevAt(k, s, lent, Mem(n, NextSet), repr));
    }
  }

  method Thread(list: List, lent: Entry, succ: Entry, ghost s: seq<Entry>, ghost n: nat, ghost repr: set<Entry>)
    requires InMemory(list, s, lent, Mem(n, PrevSet), repr) && succ == s[n + 1]
    modifies lent`next
    ensures InMemory(list, s, lent, AppendStep(Mem(n, PrevSet)), repr)
  {
    DistinctIsPairwise(s);
    lent.next := succ;
    forall k | -1 <= k < n ensures NextAt(k, s, lent, Mem(n, Threaded), repr) {
      assert old(NextAt(k, s, lent, Mem(n, PrevSet), repr));
    }
    forall k | 0 <= k < n ensures PrevAt(k, s, lent, Mem(n, Threaded), repr) {
      assert old(PrevAt(k, s, lent, Mem(n, PrevSet), repr));
    }
  }

  method LinkBack(list: List, lent: Entry, succ: Entry, ghost s: seq<Entry>, ghost n: nat, ghost repr: set<Entry>)
    requires InMemory(list, s, lent, Mem(n, Threaded), repr) && succ == s[n + 1]
    modifies succ`prev
    ensures InMemory(list, s, lent, AppendStep(Mem(n, Threaded)), repr)
  {
    DistinctIsPairwise(s);
    succ.prev := lent;
    forall k | -1 <= k < n ensures NextAt(k, s, lent, Mem(n, Linked), repr) {
      assert old(NextAt(k, s, lent, Mem(n, Threaded), repr));
    }
    forall k | 0 <= k < n ensures PrevAt(k, s, lent, Mem(n, Linked), repr) {
      assert old(PrevAt(k, s, lent, Mem(n, Threaded), repr));
    }
  }

  method Count(list: List, lent: Entry, ghost s: seq<Entry>, ghost n: nat, ghost repr: set<Entry>)
    requires InMemory(list, s, lent, Mem(n, Linked), repr)
    modifies list`numels
    ensures InMemory(list, s, lent, AppendStep(Mem(n, Linked)), repr)
  {
    list.numels := list.numels + 1;
    CountedLinks(s, lent, n, repr);
  }

  /** Counting does not touch the links. */
  lemma CountedLinks(s: seq<Entry>, lent: Entry, n: nat, repr: set<Entry>)
    requires |s| == n + 2 && In(s, repr) && lent in repr && LinksIn(s, lent, Mem(n, Linked), repr)
    ensures LinksIn(s, lent, Mem(n, Counted), repr)
  {
    var m, m' := Mem(n, Linked), Mem(n, Counted);
    forall k | -1 <= k < n ensures NextAt(k, s, lent, m', repr) { assert NextAt(k, s, lent, m, repr); }
    forall k | 0 <= k < n ensures PrevAt(k, s, lent, m', repr) { assert PrevAt(k, s, lent, m, repr); }
  }

  /** Once everything is linked the new node is one of the chain. */
  lemma SettledLinks(s: seq<Entry>, lent: Entry, n: nat, repr: set<Entry>, other: Entry)
    requires |s| == n + 2 && In(s, repr) && lent in repr && other in repr && LinksIn(s, lent, Mem(n, Counted), repr)
    ensures In(Inserted(s, n, lent), repr) && LinksIn(Inserted(s, n, lent), other, Mem(n + 1, Quiet), repr)
  {
    var m, m' := Mem(n, Counted), Mem(n + 1, Quiet);
    var r := Inserted(s, n, lent);
    forall k | -1 <= k < n + 1 ensures NextAt(k, r, other, m', repr) {
      if k < n { assert NextAt(k, s, lent, m, repr); }
    }
    forall k | 0 <= k < n + 1 ensures PrevAt(k, r, other, m', repr) {
      if k < n { assert PrevAt(k, s, lent, m, repr); }
    }
  }

  /** Where the middle is found from the old one. */
  lemma MidFound(s: seq<Entry>, lent: Entry, n: nat, repr: set<Entry>)
    requires |s| == n + 2 && In(s, repr) && lent in repr && LinksIn(s, lent, Mem(n, Counted), repr)
    ensures n > 0 && n % 2 == 0 ==> MidOf(s, n).next == MidOf(Inserted(s, n, lent), n + 1)
    ensures n % 2 == 1 ==> MidOf(s, n) == MidOf(Inserted(s, n, lent), n + 1)
  {
    if n > 0 {
      assert NextAt((n - 1) / 2, s, lent, Mem(n, Counted), repr);
    }
  }

  /** And all neighbours point at each other. */
  lemma SettledIsLinked(s: seq<Entry>, lent: Entry, n: nat, repr: set<Entry>)
    requires |s| == n + 2 && In(s, repr) && lent in repr && LinksIn(s, lent, Mem(n, Counted), repr)
    ensures In(Inserted(s, n, lent), repr) && Chains.Linked(Inserted(s, n, lent), repr)
  {
    var r, m := Inserted(s, n, lent), Mem(n, Counted);
    forall i | 0 <= i < |r| - 1 ensures r[i].next == r[i + 1] && r[i + 1].prev == r[i] {
      if i <= n { assert NextAt(i - 1, s, lent, m, repr); }
      if i < n { assert PrevAt(i, s, lent, m, repr); }
    }
  }

  /** Moves the middle. */
  method FixMid(list: List, lent: Entry, n: nat, ghost s: seq<Entry>, ghost repr: set<Entry>)
    requires InMemory(list, s, lent, Mem(n, Counted), repr)
    modifies list`mid
    ensures list.mid == MidOf(Inserted(s, n, lent), n + 1)
  {
    MidFound(s, lent, n, repr);
    if list.numels == 1 {
      list.mid := lent;
    } else if list.numels % 2 == 1 {
      if n >= (list.numels - 1) / 2 { list.mid := list.mid.next; }
    } else {
      assert n > (list.numels - 1) / 2;  // an append never moves the middle back
    }
  }

  /** The last write moves the middle; then the list is at rest again. */
  method MoveMid(list: List, lent: Entry, n: nat, ghost s: seq<Entry>, ghost repr: set<Entry>)
    requires InMemory(list, s, lent, Mem(n, Counted), repr)
    modifies list`mid
    ensures var r := Inserted(s, n, lent);
      && In(r, repr) && Chains.Linked(r, repr) && list.mid == MidOf(r, n + 1)
      && forall other :: other in repr && other !in r ==> InMemory(list, r, other, AppendStep(Mem(n, Counted)), repr)
  {
    ghost var r := Inserted(s, n, lent);
    FixMid(list, lent, n, s, repr);
    SettledIsLinked(s, lent, n, repr);
    InsertApart(s, [], n, lent);
    forall other | other in repr && other !in r ensures InMemory(list, r, other, AppendStep(Mem(n, Counted)), repr) {
      SettledLinks(s, lent, n, repr, other);
    }
  }

  /** The four linking writes of `list_append`, one after the other. */
  method LinkWrites(list: List, lent: Entry, prec: Entry, succ: Entry, ghost s: seq<Entry>, ghost n: nat,
                    ghost repr: set<Entry>)
    requires InMemory(list, s, lent, Mem(n, Quiet), repr) && prec == s[n] && succ == s[n + 1]
    modifies prec`next, lent`prev, lent`next, succ`prev
    ensures InMemory(list, s, lent, Mem(n, Linked), repr)
  {
    SetNext(list, prec, lent, s, n, repr);
    SetPrev(list, prec, lent, s, n, repr);
    Thread(list, lent, succ, s, n, repr);
    LinkBack(list, lent, succ, s, n, repr);
  }

  /** All six writes. */
  method AppendWrites(list: List, lent: Entry, ghost s: seq<Entry>, ghost repr: set<Entry>)
    requires InMemory(list, s, lent, Mem(list.numels, Quiet), repr)
    requires list.Valid() && list.spine == s && list.repr == repr
    modifies list`numels, list`mid, repr`next, repr`prev
    ensures list.numels == old(list.numels) + 1
    ensures var r := Inserted(s, old(list.numels), lent);
      In(r, repr) && Chains.Linked(r, repr) && list.mid == MidOf(r, list.numels)
  {
    ghost var n := list.numels;
    var pos: int := list.numels;
    var prec := list.FindPos(pos - 1);
    assert s[n].next == s[n + 1];
    LinkWrites(list, lent, prec, prec.next, s, n, repr);
    Count(list, lent, s, n, repr);
    MoveMid(list, lent, pos, s, repr);
  }

  method AppendNode(list: List, lent: Entry)
    requires list.Valid() && lent !in list.spine && lent !in list.spareels && !list.iterActive
    modifies list`numels, list`mid, list`spine, list`repr, (list.repr + {lent})`next, (list.repr + {lent})`prev
    ensures list.Valid() && list.repr == old(list.repr) + {lent}
    ensures list.spine == Inserted(old(list.spine), old(list.numels), lent)
  {
    ghost var s, n := list.spine, list.numels;
    list.repr := list.repr + {lent};
    AtRest(list, lent);
    AppendWrites(list, lent, s, list.repr);
    list.spine := Inserted(s, n, lent);
    InsertApart(s, list.spareels, n, lent);
  }

  method AppendData(list: List, lent: Entry, data: Pointer)
    requires list.Valid() && lent !in list.spine && lent !in list.spareels && !list.iterActive
    modifies list`numels, list`mid, list`spine, list`repr, list.repr, lent
    ensures list.Valid() && list.repr == old(list.repr) + {lent}
    ensures list.Contents() == old(list.Contents()) + [data]
  {
    ghost var was, s, n := list.Contents(), list.spine, list.numels;
    lent.data := data;
    AppendNode(list, lent);
    InsertedValues(s, n, lent, was, list.repr);
    assert was[..n] + [data] + was[n..] == was + [data];
  }

  /** `list_append`: undisturbed, these writes do what `list_insert_at` does at the end of the list. */
  method Append(list: List, data: Pointer) returns (r: int)
    requires list.Valid()
    modifies list, list.repr
    ensures list.Valid() && fresh(list.repr - old(list.repr)) && list.iterActive == old(list.iterActive)
    ensures r == if old(list.iterActive) then -1 else 1
    ensures list.Contents() == if r == 1 then old(list.Contents()) + [data] else old(list.Contents())
  {
    if list.iterActive { return -1; }
    var lent := list.NewEntry();
    AppendData(list, lent, data);
    return 1;
  }

  // ---------------------------------------------------------------- lookups

  /** The variables of `list_findpos` when the lookup is at `l`. */
  ghost function Real(s: seq<Entry>, lent: Entry, l: Look): Lookup<Entry?>
    requires |s| >= 2
  {
    match l
    case Check(i) => Check(i)
    case Choose(i) => Choose(i)
    case MidIndex(i, seen, back) => MidIndex(i, seen, back)
    case MidNode(i, seen, count, back) => MidNode(i, seen, count, back)
    case TailIndex(i, seen) => TailIndex(i, seen)
    case Stride(i, seen, at, count, back) => Stride(i, seen, NodeAt(s, lent, at), count, back)
    case Found(i, seen, at) => Found(i, seen, NodeAt(s, lent, at))
  }

  /** The choice of the walk reads `numels` once and nothing else. */
  method ChooseAccess(list: List, i: int) returns (p: Lookup<Entry?>)
    requires i >= 0
    ensures var n := list.numels;
      p == if n != 0 && 4 * (i + 1) <= n then Stride(i, n, list.headSentinel, -1, false)
           else if n != 0 && 2 * (i + 1) < n then MidIndex(i, n, true)
           else if n != 0 && 4 * (i + 1) <= 3 * n then MidIndex(i, n, false)
           else TailIndex(i, n)
  {
    var n := list.numels;
    if n != 0 && 4 * (i + 1) <= n {
      p := Stride(i, n, list.headSentinel, -1, false);
    } else if n != 0 && 2 * (i + 1) < n {
      p := MidIndex(i, n, true);
    } else if n != 0 && 4 * (i + 1) <= 3 * n {
      p := MidIndex(i, n, false);
    } else {
      p := TailIndex(i, n);
    }
  }

  /** A step of the walk. */
  method StrideAccess(p: Lookup<Entry?>, ghost l: Look, ghost s: seq<Entry>, ghost lent: Entry, ghost m: Mem,
                      ghost repr: set<Entry>) returns (p': Lookup<Entry?>)
    requires |s| == m.n + 2 && In(s, repr) && lent in repr && LinksIn(s, lent, m, repr)
    requires l.Stride? && Sound(m, l) && p == Real(s, lent, l)
    ensures p' == Real(s, lent, LookStep(m, l))
  {
    if p.back && p.count > p.i {
      StrideBack(l, s, lent, m, repr);
      p' := Stride(p.i, p.seen, p.at.prev, p.count - 1, true);
    } else if !p.back && p.count < p.i {
      StrideOn(l, s, lent, m, repr);
      p' := Stride(p.i, p.seen, p.at.next, p.count + 1, false);
    } else {
      p' := Found(p.i, p.seen, p.at);
    }
  }

  lemma StrideBack(l: Look, s: seq<Entry>, lent: Entry, m: Mem, repr: set<Entry>)
    requires |s| == m.n + 2 && In(s, repr) && lent in repr && LinksIn(s, lent, m, repr)
    requires l.Stride? && Sound(m, l) && l.back && l.count > l.i
    ensures var e := NodeAt(s, lent, l.at); e != null && e.prev == NodeAt(s, lent, PrevOf(m, l.at))
  {
    if l.at.Pos? && l.at.k < m.n { assert PrevAt(l.at.k, s, lent, m, repr); }
  }

  lemma StrideOn(l: Look, s: seq<Entry>, lent: Entry, m: Mem, repr: set<Entry>)
    requires |s| == m.n + 2 && In(s, repr) && lent in repr && LinksIn(s, lent, m, repr)
    requires l.Stride? && Sound(m, l) && !l.back && l.count < l.i
    ensures var e := NodeAt(s, lent, l.at); e != null && e.next == NodeAt(s, lent, NextOf(m, l.at))
  {
    assert NextAt(l.at.k, s, lent, m, repr);
  }

  /** An access to the fields of the list. */
  method FieldAccess(list: List, p: Lookup<Entry?>, ghost l: Look, ghost s: seq<Entry>, ghost lent: Entry, ghost m: Mem,
                     ghost repr: set<Entry>) returns (p': Lookup<Entry?>)
    requires InMemory(list, s, lent, m, repr) && Sound(m, l) && p == Real(s, lent, l)
    requires l.MidIndex? || l.MidNode? || l.TailIndex?
    ensures p' == Real(s, lent, LookStep(m, l))
  {
    match p {
      case MidIndex(i, seen, back) => p' := MidNode(i, seen, (list.numels - 1) / 2, back);
      case MidNode(i, seen, count, back) => p' := Stride(i, seen, list.mid, count, back);
      case TailIndex(i, seen) => p' := Stride(i, seen, list.tailSentinel, list.numels, true);
    }
  }

  /** One access of `list_findpos` on the fields as they stand. */
  method LookAccess(list: List, p: Lookup<Entry?>, ghost l: Look, ghost s: seq<Entry>, ghost lent: Entry, ghost m: Mem,
                    ghost repr: set<Entry>) returns (p': Lookup<Entry?>)
    requires InMemory(list, s, lent, m, repr) && Sound(m, l) && p == Real(s, lent, l)
    ensures p' == Real(s, lent, LookStep(m, l))
  {
    match p {
      case Check(i) => p' := if i < -1 || i > list.numels then Found(i, 0, null) else Choose(i);
      case Choose(i) => p' := ChooseAccess(list, i);
      case Stride(_, _, _, _, _) => p' := StrideAccess(p, l, s, lent, m, repr);
      case Found(_, _, _) => p' := p;
      case _ => p' := FieldAccess(list, p, l, s, lent, m, repr);
    }
  }
}

/** The doubly linked list on which the tables and client lists are built: sentinels at both ends, a pointer
    to the middle element kept up to date by every operation, and a small stock of spare nodes. */
module SimcList {
  import opened Bytes
  import opened Chains

  /** What `list_seek` finds. */
  function FirstMatch(v: seq<Pointer>, seeker: (Pointer, Pointer) -> bool, indicator: Pointer): Pointer
  {
    if v == [] then NULL else if seeker(v[0], indicator) then v[0] else FirstMatch(v[1..], seeker, indicator)
  }

  /** The comparator a list may have. */
  type Comparator = Option<(Pointer, Pointer) -> int>

  /** An element and some data are the same for the comparator, or, without one, as pointers. */
  predicate Same(comparator: Comparator, data: Pointer, el: Pointer)
  {
    if comparator.Some? then comparator.value(data, el) == 0 else el == data
  }

  /** The first position of an element that is the same as `data`, or -1. */
  function FirstSame(v: seq<Pointer>, comparator: Comparator, data: Pointer): (pos: int)
    ensures -1 <= pos < |v| && (pos >= 0 ==> Same(comparator, data, v[pos]))
    ensures forall k :: 0 <= k < (if pos < 0 then |v| else pos) ==> !Same(comparator, data, v[k])
  {
    if v == [] then -1
    else if Same(comparator, data, v[0]) then 0
    else
      var pos := FirstSame(v[1..], comparator, data);
      if pos < 0 then -1 else pos + 1
  }

  lemma FirstSameIs(v: seq<Pointer>, comparator: Comparator, data: Pointer, pos: nat)
    requires pos < |v| && Same(comparator, data, v[pos]) && forall k :: 0 <= k < pos ==> !Same(comparator, data, v[k])
    ensures FirstSame(v, comparator, data) == pos
  {
  }

  /** Without a comparator, deleting the first element that is the same is removing the first with this data. */
  lemma FirstSameIsRemoved(v: seq<Pointer>, data: Pointer)
    ensures var pos := FirstSame(v, None, data);
      RemoveFirst(v, data) == if pos < 0 then v else v[..pos] + v[pos + 1..]
  {
    var pos := FirstSame(v, None, data);
    if pos >= 0 { RemoveFirstIs(v, data, pos); } else { RemoveFirstMisses(v, data); }
  }

  lemma {:induction false} RemoveFirstMisses(v: seq<Pointer>, p: Pointer)
    requires forall k :: 0 <= k < |v| ==> v[k] != p
    ensures RemoveFirst(v, p) == v
  {
    if v != [] { RemoveFirstMisses(v[1..], p); }
  }

  /** `t` is `p` up to half a unit in the last place of a single-precision number, one part in 2^24. */
  predicate Rounds(t: real, p: real) { p - p / 16777216.0 <= t <= p + p / 16777216.0 }

  /** `x` is the single-precision quotient of `a` and `n`; quarters are represented exactly. */
  predicate Quotient(x: real, a: nat, n: nat)
  {
    && Rounds(x * n as real, a as real)
    && (4 * a == n ==> x == 0.25) && (2 * a == n ==> x == 0.5) && (4 * a == 3 * n ==> x == 0.75)
  }

  /** Up to two million elements the quarter chosen by the rounded quotient is the exact one. */
  lemma QuarterIsExact(x: real, a: nat, n: nat)
    requires 0 < n < 0x20_0000 && a <= n + 1 && Quotient(x, a, n)
    ensures (x <= 0.25 <==> 4 * a <= n) && (x < 0.5 <==> 2 * a < n) && (x <= 0.75 <==> 4 * a <= 3 * n)
  {
    var q := n as real;
    var t, quarter, half, most := x * q, 0.25 * q, 0.5 * q, 0.75 * q;
    RoundingIsSmall(t, a, n);
    Sides(t, a, n, quarter, half, most);
    ComparesWith(x, 0.25, q, t, quarter);
    ComparesWith(x, 0.5, q, t, half);
    ComparesWith(x, 0.75, q, t, most);
    SidesTell(x, a, n, t, quarter, half, most);
  }

  lemma SidesTell(x: real, a: nat, n: nat, t: real, quarter: real, half: real, most: real)
    requires (x < 0.25 <==> t < quarter) && (x > 0.25 <==> t > quarter)
    requires (x < 0.5 <==> t < half) && (x > 0.5 <==> t > half)
    requires (x < 0.75 <==> t < most) && (x > 0.75 <==> t > most)
    requires (4 * a < n ==> t < quarter) && (4 * a > n ==> t > quarter)
    requires (2 * a < n ==> t < half) && (2 * a > n ==> t > half)
    requires (4 * a < 3 * n ==> t < most) && (4 * a > 3 * n ==> t > most)
    requires (4 * a == n ==> x == 0.25) && (2 * a == n ==> x == 0.5) && (4 * a == 3 * n ==> x == 0.75)
    ensures (x <= 0.25 <==> 4 * a <= n) && (x < 0.5 <==> 2 * a < n) && (x <= 0.75 <==> 4 * a <= 3 * n)
  {
  }

  lemma Sides(t: real, a: nat, n: nat, quarter: real, half: real, most: real)
    requires a as real - 0.2 < t < a as real + 0.2
    requires 4.0 * quarter == n as real && 2.0 * half == n as real && 4.0 * most == 3.0 * n as real
    ensures (4 * a < n ==> t < quarter) && (4 * a > n ==> t > quarter)
    ensures (2 * a < n ==> t < half) && (2 * a > n ==> t > half)
    ensures (4 * a < 3 * n ==> t < most) && (4 * a > 3 * n ==> t > most)
  {
    Side(t, a, n, 4, quarter);
    Side(t, a, n, 2, half);
    Side(t, a, 3 * n, 4, most);
  }

  lemma Side(t: real, a: nat, n: nat, d: nat, y: real)
    requires a as real - 0.2 < t < a as real + 0.2 && (d == 2 || d == 4)
        && (if d == 2 then 2.0 * y else 4.0 * y) == n as real
    ensures (d * a < n ==> t < y) && (d * a > n ==> t > y)
  {
    var i := if d == 2 then 2 * a else 4 * a;
    assert i == d * a && i as real == if d == 2 then 2.0 * a as real else 4.0 * a as real;
    if i < n { assert i as real <= n as real - 1.0; }
    if i > n { assert i as real >= n as real + 1.0; }
  }

  lemma RoundingIsSmall(t: real, a: nat, n: nat)
    requires 0 < n < 0x20_0000 && a <= n + 1 && Rounds(t, a as real)
    ensures a as real - 0.2 < t < a as real + 0.2
  {
  }

  lemma ComparesWith(x: real, y: real, q: real, t: real, bound: real)
    requires q > 0.0 && t == x * q && bound == y * q
    ensures (x < y <==> t < bound) && (x > y <==> t > bound)
  {
    assert (y - x) * q == bound - t;
  }

  class List {
    var headSentinel: Entry
    var tailSentinel: Entry
    var mid: Entry?
    var numels: nat
    var spareels: seq<Entry>
    var iterActive: bool
    var iterPos: nat
    var iterCurentry: Entry?
    ghost var spine: seq<Entry>
    ghost var repr: set<Entry>

    /** What does not depend on the nodes' fields. */
    ghost predicate Shape()
      reads this
    {
      && |spine| == numels + 2 && spine[0] == headSentinel && spine[numels + 1] == tailSentinel
      && Apart(spine, spareels) && |spareels| <= MAX_SPARE_ELEMS
      && mid == MidOf(spine, numels)
      && (iterActive ==> iterPos <= numels + 1 && (iterPos <= numels ==> iterCurentry == spine[iterPos + 1]))
      && In(spine, repr) && In(spareels, repr)
    }

    ghost predicate Valid()
      reads this, repr
    {
      Shape() && Linked(spine, repr)
    }

    /** The data of the elements, in order. */
    ghost function Contents(): (v: seq<Pointer>)
      reads this, repr
      requires Valid()
      ensures |v| == numels && forall i :: 0 <= i < numels ==> v[i] == spine[i + 1].data
    {
      Values(spine, repr)[1..numels + 1]
    }

    /** `list_init`. */
    constructor ()
      ensures Valid() && fresh(repr) && Contents() == [] && !iterActive && spareels == []
    {
      var head := new Entry();
      var tail := new Entry();
      head.next := tail;
      tail.prev := head;
      headSentinel, tailSentinel, mid, numels, spareels := head, tail, null, 0, [];
      iterActive, iterPos, iterCurentry := false, 0, null;
      spine, repr := [head, tail], {head, tail};
      new;
      DistinctPair(head, tail);
    }

    /** `list_findpos`: the node at a position, sentinels included, reached from the nearest of the two
        ends and the middle. */
    method FindPos(posstart: int) returns (ptr: Entry?)
      requires Valid()
      ensures ptr == if -1 <= posstart <= numels then spine[posstart + 1] else null
    {
      if posstart < -1 || posstart > numels { return null; }
      if numels != 0 && 4 * (posstart + 1) <= numels {
        ptr := Forward(headSentinel, -1, posstart);
      } else if numels != 0 && 2 * (posstart + 1) < numels {
        ptr := Backward(mid, (numels - 1) / 2, posstart);
      } else if numels != 0 && 4 * (posstart + 1) <= 3 * numels {
        ptr := Forward(mid, (numels - 1) / 2, posstart);
      } else {
        ptr := Backward(tailSentinel, numels, posstart);
      }
    }

    method Forward(start: Entry, from: int, to: int) returns (ptr: Entry)
      requires Valid() && -1 <= from <= to <= numels && start == spine[from + 1]
      ensures ptr == spine[to + 1]
    {
      ptr := start;
      for i := from to to
        invariant ptr == spine[i + 1]
      {
        assert spine[i + 1].next == spine[i + 1 + 1];
        ptr := ptr.next;
      }
    }

    method Backward(start: Entry, from: int, to: int) returns (ptr: Entry)
      requires Valid() && -1 <= to <= from <= numels && start == spine[from + 1]
      ensures ptr == spine[to + 1]
    {
      ptr := start;
      for i := from downto to
        invariant ptr == spine[i + 1]
      {
        assert spine[i + 1 + 1].prev == spine[i + 1];
        ptr := ptr.prev;
      }
    }

    /** A node for a new element, from the stock if there is one. */
    method NewEntry() returns (lent: Entry)
      requires Valid()
      modifies this`spareels
      ensures Valid() && lent !in spine && lent !in spareels && Contents() == old(Contents())
      ensures lent in repr || fresh(lent)
    {
      if |spareels| > 0 {
        lent := spareels[|spareels| - 1];
        DistinctPrefix(spareels);
        spareels := spareels[..|spareels| - 1];
      } else {
        lent := new Entry();
      }
    }

    /** Moves the middle pointer after `lent` was put in at position `pos`. */
    method FixMidAfterInsert(pos: int, lent: Entry, ghost s: seq<Entry>)
      requires numels >= 1 && |s| == numels + 1 && 0 <= pos < numels && spine == Inserted(s, pos, lent)
      requires In(spine, repr) && Linked(spine, repr)
      requires mid == MidOf(s, numels - 1)
      modifies this`mid
      ensures mid == MidOf(spine, numels)
    {
      if numels == 1 {
        mid := lent;
      } else {
        ghost var k := (numels - 2) / 2 + 1;
        ghost var at := if k <= pos then k else k + 1;
        assert spine[at] == mid && spine[at].next == spine[at + 1] && spine[at - 1 + 1].prev == spine[at - 1];
        if numels % 2 == 1 {
          if pos >= (numels - 1) / 2 { mid := mid.next; }
        } else {
          if pos <= (numels - 1) / 2 { mid := mid.prev; }
        }
      }
    }

    /** Links `lent` in at position `pos`; the middle pointer is still to be moved. */
    method LinkIn(lent: Entry, pos: nat)
      requires Valid() && pos <= numels && lent !in spine && lent !in spareels && !iterActive
      modifies this`numels, this`spine, this`repr, repr + {lent}
      ensures repr == old(repr) + {lent} && numels == old(numels) + 1 && spine == Inserted(old(spine), pos, lent)
      ensures Apart(spine, spareels) && In(spine, repr) && Linked(spine, repr)
      ensures lent.data == old(lent.data)
      ensures forall i :: 0 <= i < |old(spine)| ==> old(spine)[i].data == old(spine[i].data)
    {
      var prec := FindPos(pos - 1);
      ghost var s := spine;
      assert s[pos].next == s[pos + 1];
      repr := repr + {lent};
      LinkBetween(prec, lent, prec.next, s, pos, repr);
      spine := Inserted(s, pos, lent);
      InsertApart(s, spareels, pos, lent);
      numels := numels + 1;
    }

    method PutIn(lent: Entry, pos: nat)
      requires Valid() && pos <= numels && lent !in spine && lent !in spareels && !iterActive
      modifies this`numels, this`mid, this`spine, this`repr, repr + {lent}
      ensures Valid() && repr == old(repr) + {lent}
      ensures spine == Inserted(old(spine), pos, lent)
      ensures lent.data == old(lent.data)
      ensures forall i :: 0 <= i < |old(spine)| ==> old(spine)[i].data == old(spine[i].data)
    {
      ghost var s := spine;
      LinkIn(lent, pos);
      FixMidAfterInsert(pos, lent, s);
    }

    /** `list_insert_at`. */
    method InsertAt(data: Pointer, pos: nat) returns (r: int)
      requires Valid()
      modifies this, repr
      ensures Valid() && fresh(repr - old(repr)) && iterActive == old(iterActive)
      ensures r == if old(iterActive) || pos > old(numels) then -1 else 1
      ensures Contents() == if r == 1 then old(Contents())[..pos] + [data] + old(Contents())[pos..] else old(Contents())
    {
      if iterActive || pos > numels { return -1; }
      Insert(data, pos);
      return 1;
    }

    method Insert(data: Pointer, pos: nat)
      requires Valid() && !iterActive && pos <= numels
      modifies this`spareels, this`numels, this`mid, this`spine, this`repr, repr
      ensures Valid() && fresh(repr - old(repr))
      ensures Contents() == old(Contents())[..pos] + [data] + old(Contents())[pos..]
    {
      ghost var was := Contents();
      var lent := NewEntry();
      PutData(lent, data, pos);
      assert Contents() == was[..pos] + [data] + was[pos..];
    }

    method PutData(lent: Entry, data: Pointer, pos: nat)
      requires Valid() && pos <= numels && lent !in spine && lent !in spareels && !iterActive
      modifies this`numels, this`mid, this`spine, this`repr, repr + {lent}
      ensures Valid() && spine == Inserted(old(spine), pos, lent) && repr == old(repr) + {lent}
      ensures Contents() == old(Contents())[..pos] + [data] + old(Contents())[pos..]
    {
      ghost var s, was := spine, Contents();
      lent.data := data;
      PutIn(lent, pos);
      InsertedValues(s, pos, lent, was, repr);
    }

    /** Moves the middle pointer before the element at `pos` goes. */
    method FixMidBeforeDrop(pos: nat)
      requires Valid() && pos < numels
      modifies this`mid
      ensures mid == MidOf(Cut(spine, pos, pos + 2), numels - 1)
    {
      ghost var k := (numels - 1) / 2 + 1;
      assert spine[k].next == spine[k + 1] && spine[k - 1 + 1].prev == spine[k - 1];
      if numels % 2 == 1 {
        if numels == 1 { mid := null; }
        else if pos >= numels / 2 { mid := mid.prev; }
      } else {
        if pos < numels / 2 { mid := mid.next; }
      }
    }

    /** Takes the element at `pos` out of the chain. */
    method TakeOut(tmp: Entry, pos: nat)
      requires Valid() && pos < numels && tmp == spine[pos + 1] && !iterActive
      modifies this`mid, this`numels, this`spine, repr
      ensures Valid() && spine == Cut(old(spine), pos, pos + 2)
      ensures Contents() == old(Contents())[..pos] + old(Contents())[pos + 1..]
    {
      ghost var was := Contents();
      FixMidBeforeDrop(pos);
      Neighbours(pos);
      CutApart(spine, spareels, pos, pos + 2);
      CutOut(tmp.prev, tmp.next, pos, pos, was);
    }

    lemma Neighbours(pos: nat)
      requires In(spine, repr) && Linked(spine, repr) && pos + 2 < |spine|
      ensures spine[pos + 1].prev == spine[pos] && spine[pos + 1].next == spine[pos + 2]
    {
      assert spine[pos].next == spine[pos + 1] && spine[pos + 1].next == spine[pos + 1 + 1];
    }

    /** `list_drop_elem`, with the decrement its callers do: the node is unlinked and stocked or freed. */
    method DropElem(tmp: Entry, pos: nat)
      requires Valid() && pos < numels && tmp == spine[pos + 1] && !iterActive
      modifies this`mid, this`numels, this`spareels, this`spine, repr
      ensures Valid() && spine == Cut(old(spine), pos, pos + 2)
      ensures spareels == if |old(spareels)| < MAX_SPARE_ELEMS then old(spareels) + [tmp] else old(spareels)
      ensures Contents() == old(Contents())[..pos] + old(Contents())[pos + 1..]
    {
      ghost var was := Contents();
      CutApart(spine, spareels, pos, pos + 2);
      TakeOut(tmp, pos);
      StockOrFree(tmp);
      assert Contents() == was[..pos] + was[pos + 1..];
    }

    /** Keeps a node for later while there is room. */
    method StockOrFree(tmp: Entry)
      requires Valid() && tmp in repr && tmp !in spine && tmp !in spareels
      modifies this`spareels
      ensures Valid() && Contents() == old(Contents())
      ensures spareels == if |old(spareels)| < MAX_SPARE_ELEMS then old(spareels) + [tmp] else old(spareels)
    {
      DistinctSnoc(spareels, tmp);
      if |spareels| < MAX_SPARE_ELEMS { spareels := spareels + [tmp]; }
    }

    /** `list_extract_at`; nothing is removed while an iteration is on. */
    method ExtractAt(pos: nat) returns (data: Pointer)
      requires Valid()
      modifies this, repr
      ensures Valid() && repr == old(repr) && iterActive == old(iterActive)
      ensures if old(iterActive) || pos >= old(numels) then data == NULL && Contents() == old(Contents())
              else data == old(Contents())[pos] && Contents() == old(Contents())[..pos] + old(Contents())[pos + 1..]
    {
      if iterActive || pos >= numels { return NULL; }
      var tmp := FindPos(pos);
      data := tmp.data;
      ClearAndDrop(tmp, pos);
    }

    method ClearAndDrop(tmp: Entry, pos: nat)
      requires Valid() && pos < numels && tmp == spine[pos + 1] && !iterActive
      modifies this`mid, this`numels, this`spareels, this`spine, repr
      ensures Valid()
      ensures Contents() == old(Contents())[..pos] + old(Contents())[pos + 1..]
    {
      ghost var was := Contents();
      DistinctIsPairwise(spine);
      tmp.data := NULL;
      assert Contents() == was[pos := NULL];
      DropElem(tmp, pos);
    }

    /** `list_delete_at`. */
    method DeleteAt(pos: nat) returns (r: int)
      requires Valid()
      modifies this, repr
      ensures Valid() && repr == old(repr) && iterActive == old(iterActive)
      ensures r == if old(iterActive) || pos >= old(numels) then -1 else 0
      ensures Contents() == if r == 0 then old(Contents())[..pos] + old(Contents())[pos + 1..] else old(Contents())
    {
      if iterActive || pos >= numels { return -1; }
      var delendo := FindPos(pos);
      DropElem(delendo, pos);
      return 0;
    }

    /** `list_locate`, with or without a comparator. */
    method Locate(comparator: Comparator, data: Pointer) returns (pos: int)
      requires Valid()
      ensures pos == FirstSame(Contents(), comparator, data)
    {
      var el := headSentinel.next;
      assert spine[0].next == spine[0 + 1];
      DistinctIsPairwise(spine);
      pos := 0;
      while el != tailSentinel
        invariant 0 <= pos <= numels && el == spine[pos + 1]
        invariant forall k :: 0 <= k < pos ==> !Same(comparator, data, Contents()[k])
        decreases numels - pos
      {
        if Same(comparator, data, el.data) {
          FirstSameIs(Contents(), comparator, data, pos);
          return;
        }
        assert spine[pos + 1].next == spine[pos + 1 + 1];
        el := el.next;
        pos := pos + 1;
      }
      return -1;
    }

    /** `list_delete`: the first element the same as this data goes. */
    method Delete(comparator: Comparator, data: Pointer) returns (r: int)
      requires Valid()
      modifies this, repr
      ensures Valid() && repr == old(repr) && iterActive == old(iterActive)
      ensures r == if old(iterActive) || FirstSame(old(Contents()), comparator, data) < 0 then -1 else 0
      ensures r != 0 ==> Contents() == old(Contents())
      ensures r == 0 ==>
        var pos := FirstSame(old(Contents()), comparator, data);
        Contents() == old(Contents())[..pos] + old(Contents())[pos + 1..]
    {
      var pos := Locate(comparator, data);
      if pos < 0 { return -1; }
      r := DeleteAt(pos);
    }

    /** Walks the middle pointer to position `to`. */
    method MoveMid(to: nat)
      requires Valid() && to < numels
      modifies this`mid
      ensures mid == spine[to + 1]
    {
      var movedx := to - (numels - 1) / 2;
      if movedx > 0 {
        mid := Forward(mid, (numels - 1) / 2, (numels - 1) / 2 + movedx);
      } else {
        mid := Backward(mid, (numels - 1) / 2, (numels - 1) / 2 + movedx);
      }
    }

    /** Moves the middle pointer to where it will be without the range. */
    method AimMid(posstart: nat, posend: nat)
      requires Valid() && numels < TWO_32 / 2 && posstart <= posend < numels && posend - posstart + 1 < numels
      modifies this`mid
      ensures mid == MidOf(Cut(spine, posstart, posend + 2), numels - (posend - posstart + 1))
    {
      MidAfterRange(spine, numels, posstart, posend);
      MoveMid(MidposAfter(numels, posstart, posend));
    }

    /** Walks from position `from` to `to`, stocking nodes while there is room and freeing the others. */
    method StockRange(first: Entry, from: nat, to: nat, ghost n: nat, ghost spares: seq<Entry>) returns (tmp: Entry)
      requires n == to - from && spares == spareels
      requires In(spine, repr) && Linked(spine, repr) && |spine| == numels + 2 && from <= to <= numels
      requires first == spine[from + 1] && |spareels| <= MAX_SPARE_ELEMS
      modifies this`spareels
      ensures tmp == spine[to + 1] && |spareels| <= MAX_SPARE_ELEMS
      ensures spareels == Restocked(spares, spine, from, n)
    {
      tmp := first;
      for i := from to to
        invariant tmp == spine[i + 1] && |spareels| <= MAX_SPARE_ELEMS
        invariant spareels == Restocked(spares, spine, from, i - from)
      {
        var tmp2 := tmp;
        assert spine[i + 1].next == spine[i + 1 + 1];
        tmp := tmp.next;
        if |spareels| < MAX_SPARE_ELEMS {
          spareels := spareels + [tmp2];
        }
      }
    }

    /** `list_delete_range`.  For the whole list the middle it computes is outside, and the signed offset to it
        takes the walk left to the missing predecessor of the head sentinel: `crashed`. */
    method DeleteRange(posstart: nat, posend: nat) returns (r: int, crashed: bool)
      requires Valid() && numels < TWO_32 / 2
      modifies this, repr
      ensures Valid() && repr == old(repr) && iterActive == old(iterActive)
      ensures crashed == (!old(iterActive) && posstart == 0 && posend == old(numels) - 1)
      ensures r == if old(iterActive) || posend < posstart || posend >= old(numels) || crashed then -1 else 0
      ensures Contents() == if r == 0 then old(Contents())[..posstart] + old(Contents())[posend + 1..]
          else old(Contents())
    {
      if iterActive || posend < posstart || posend >= numels { return -1, false; }
      MidposAfterIs(numels, posstart, posend);
      if MidposAfter(numels, posstart, posend) >= numels { return -1, true; }
      DropRange(posstart, posend);
      return 0, false;
    }

    method DropRange(posstart: nat, posend: nat)
      requires Valid() && numels < TWO_32 / 2 && !iterActive && posstart <= posend < numels
      requires posend - posstart + 1 < numels
      modifies this`mid, this`numels, this`spareels, this`spine, repr
      ensures Valid()
      ensures Contents() == old(Contents())[..posstart] + old(Contents())[posend + 1..]
    {
      ghost var was := Contents();
      var tmp := FindPos(posstart);
      assert spine[posstart].next == spine[posstart + 1] && spine[posstart + 1].prev == spine[posstart];
      var lastvalid := tmp.prev;
      tmp := StockAway(tmp, posstart, posend);
      CutOut(lastvalid, tmp, posstart, posend, was);
    }

    /** The middle is moved to where it will be and the nodes of the range, from `first` on, are stocked
        or freed. */
    method StockAway(first: Entry, posstart: nat, posend: nat) returns (tmp: Entry)
      requires Valid() && numels < TWO_32 / 2 && !iterActive && posstart <= posend < numels
      requires posend - posstart + 1 < numels
      requires first == spine[posstart + 1]
      modifies this`mid, this`spareels
      ensures tmp == spine[posend + 2]
      ensures Apart(Cut(spine, posstart, posend + 2), spareels) && |spareels| <= MAX_SPARE_ELEMS && In(spareels, repr)
      ensures mid == MidOf(Cut(spine, posstart, posend + 2), numels - (posend - posstart + 1))
    {
      ghost var s, spares := spine, spareels;
      AimMid(posstart, posend);
      ghost var n := posend - posstart + 1;
      tmp := StockRange(first, posstart, posend + 1, n, spares);
      CutStocked(s, spares, spareels, posstart, posend + 2, n);
    }

    /** Joins what is before and behind a range whose nodes are taken care of. */
    method Bridge(lastvalid: Entry, tmp: Entry, posstart: nat, posend: nat)
      requires In(spine, repr) && Linked(spine, repr) && Distinct(spine) && posstart <= posend < numels
      requires |spine| == numels + 2 && !iterActive
      requires spine[posstart] == lastvalid && spine[posend + 2] == tmp && spine[0] == headSentinel
      requires spine[numels + 1] == tailSentinel
      requires Apart(Cut(spine, posstart, posend + 2), spareels) && |spareels| <= MAX_SPARE_ELEMS && In(spareels, repr)
      requires mid == MidOf(Cut(spine, posstart, posend + 2), numels - (posend - posstart + 1))
      modifies this`numels, this`spine, lastvalid`next, tmp`prev
      ensures Valid() && spine == Cut(old(spine), posstart, posend + 2)
    {
      ghost var s := spine;
      Join(lastvalid, tmp, s, posstart, posend + 2, repr);
      spine := Cut(s, posstart, posend + 2);
      numels := numels - (posend - posstart + 1);
      assert spine[numels + 1] == tailSentinel;
    }

    lemma ValuesAfterCut(s: seq<Entry>, i: nat, j: nat, next: nat, was: seq<Pointer>)
      requires Valid() && |s| == |was| + 2 && i < j < |s| && next == j - 1 && spine == Cut(s, i, j)
      requires In(s, repr) && forall k :: 0 <= k < |was| ==> was[k] == s[k + 1].data
      ensures Contents() == was[..i] + was[next..]
    {
      CutValues(s, i, j, next, numels, was, repr);
    }

    method CutOut(lastvalid: Entry, tmp: Entry, posstart: nat, posend: nat, ghost was: seq<Pointer>)
      requires In(spine, repr) && Linked(spine, repr) && Distinct(spine) && posstart <= posend < numels
      requires |spine| == numels + 2 && !iterActive
      requires spine[posstart] == lastvalid && spine[posend + 2] == tmp && spine[0] == headSentinel
      requires spine[numels + 1] == tailSentinel
      requires Apart(Cut(spine, posstart, posend + 2), spareels) && |spareels| <= MAX_SPARE_ELEMS && In(spareels, repr)
      requires mid == MidOf(Cut(spine, posstart, posend + 2), numels - (posend - posstart + 1))
      requires |was| == numels && forall k :: 0 <= k < numels ==> was[k] == spine[k + 1].data
      modifies this`numels, this`spine, lastvalid`next, tmp`prev
      ensures Valid() && spine == Cut(old(spine), posstart, posend + 2)
      ensures Contents() == was[..posstart] + was[posend + 1..]
    {
      ghost var s := spine;
      Bridge(lastvalid, tmp, posstart, posend);
      ValuesAfterCut(s, posstart, posend + 2, posend + 1, was);
    }

    /** `list_clear`. */
    method Clear() returns (r: int)
      requires Valid()
      modifies this, repr
      ensures Valid() && repr == old(repr) && iterActive == old(iterActive)
      ensures r == if old(iterActive) then -1 else 0
      ensures Contents() == if r == 0 then [] else old(Contents())
      ensures spareels == if r == 0 then Restocked(old(spareels), old(spine), 0, old(numels)) else old(spareels)
    {
      if iterActive { return -1; }
      ghost var s, spares := spine, spareels;
      StockAll();
      CutStocked(s, spares, spareels, 0, numels + 1, numels);
      Empty();
      assert spine == Cut(s, 0, |s| - 1);
      return 0;
    }

    /** The two loops of `list_clear`: nodes are stocked while there is room, then freed. */
    method StockAll()
      requires Valid()
      modifies this`spareels
      ensures spareels == Restocked(old(spareels), spine, 0, numels) && |spareels| <= MAX_SPARE_ELEMS
    {
      assert spine[0].next == spine[0 + 1];
      var s := headSentinel.next;
      ghost var i := 0;
      DistinctIsPairwise(spine);
      while |spareels| < MAX_SPARE_ELEMS && s != tailSentinel
        invariant 0 <= i <= numels && s == spine[i + 1] && |spareels| <= MAX_SPARE_ELEMS
        invariant spareels == Restocked(old(spareels), spine, 0, i)
        decreases numels - i
      {
        assert spine[i + 1].next == spine[i + 1 + 1];
        spareels := spareels + [s];
        s := s.next;
        i := i + 1;
      }
      while s != tailSentinel
        invariant 0 <= i <= numels && s == spine[i + 1]
        invariant spareels == Restocked(old(spareels), spine, 0, i)
        invariant s != tailSentinel ==> |spareels| == MAX_SPARE_ELEMS
        decreases numels - i
      {
        assert spine[i + 1].next == spine[i + 1 + 1];
        s := s.next;
        i := i + 1;
      }
    }

    method Empty()
      requires In(spine, repr) && Linked(spine, repr) && Distinct(spine) && |spine| == numels + 2
      requires spine[0] == headSentinel && spine[numels + 1] == tailSentinel
      requires !iterActive
      modifies this`numels, this`mid, this`spine, headSentinel`next, tailSentinel`prev
      ensures numels == 0 && spine == [headSentinel, tailSentinel] && mid == null && In(spine, repr)
          && Linked(spine, repr)
    {
      Join(headSentinel, tailSentinel, spine, 0, numels + 1, repr);
      assert Cut(spine, 0, numels + 1) == [headSentinel, tailSentinel];
      spine := [headSentinel, tailSentinel];
      numels := 0;
      mid := null;
    }

    /** `list_get_at`. */
    method GetAt(pos: nat) returns (data: Pointer)
      requires Valid()
      ensures data == if pos < numels then Contents()[pos] else if pos == numels then tailSentinel.data else NULL
    {
      var tmp := FindPos(pos);
      data := if tmp != null then tmp.data else NULL;
    }

    /** `list_seek`. */
    method Seek(seeker: Option<(Pointer, Pointer) -> bool>, indicator: Pointer) returns (data: Pointer)
      requires Valid()
      ensures data == if seeker.None? then NULL else FirstMatch(Contents(), seeker.value, indicator)
    {
      if seeker.None? { return NULL; }
      assert spine[0].next == spine[0 + 1];
      var iter := headSentinel.next;
      ghost var i := 0;
      assert Contents()[0..] == Contents();
      DistinctIsPairwise(spine);
      while iter != tailSentinel
        invariant 0 <= i <= numels && iter == spine[i + 1]
        invariant FirstMatch(Contents()[i..], seeker.value, indicator)
            == FirstMatch(Contents(), seeker.value, indicator)
        decreases numels - i
      {
        if seeker.value(iter.data, indicator) { return iter.data; }
        assert spine[i + 1].next == spine[i + 1 + 1] && Contents()[i..][1..] == Contents()[i + 1..];
        iter := iter.next;
        i := i + 1;
      }
      return NULL;
    }

    /** `list_iterator_start`. */
    method IteratorStart() returns (ok: bool)
      requires Valid()
      modifies this`iterActive, this`iterPos, this`iterCurentry
      ensures Valid() && Contents() == old(Contents()) && iterActive
      ensures ok == !old(iterActive) && (ok ==> iterPos == 0) && (!ok ==> iterPos == old(iterPos))
    {
      if iterActive { return false; }
      assert spine[0].next == spine[0 + 1];
      iterPos, iterActive, iterCurentry := 0, true, headSentinel.next;
      return true;
    }

    /** `list_iterator_next`, which does not look for the end: there it answers from the tail sentinel, and
        behind that it has no node to look at. */
    method IteratorNext() returns (data: Pointer)
      requires Valid() && (iterActive ==> iterPos <= numels)
      modifies this`iterPos, this`iterCurentry
      ensures Valid() && Contents() == old(Contents())
      ensures if !iterActive then data == NULL && iterPos == old(iterPos)
              else data == (if old(iterPos) < numels then Contents()[old(iterPos)] else tailSentinel.data)
                   && iterPos == old(iterPos) + 1
    {
      if !iterActive { return NULL; }
      assert iterPos < numels ==> spine[iterPos + 1].next == spine[iterPos + 1 + 1];
      data := iterCurentry.data;
      iterCurentry := iterCurentry.next;
      iterPos := iterPos + 1;
    }

    method IteratorHasNext() returns (more: bool)
      ensures more == (iterActive && iterPos < numels)
    {
      more := iterActive && iterPos < numels;
    }

    method IteratorStop() returns (ok: bool)
      requires Valid()
      modifies this`iterActive, this`iterPos
      ensures Valid() && Contents() == old(Contents()) && !iterActive && ok == old(iterActive)
    {
      if !iterActive { return false; }
      iterPos, iterActive := 0, false;
      return true;
    }

    /** A whole iteration, from start to stop, gives the elements in order and leaves the list as it was. */
    method Elements() returns (v: seq<Pointer>)
      requires Valid() && !iterActive
      modifies this`iterActive, this`iterPos, this`iterCurentry
      ensures Valid() && !iterActive && Contents() == old(Contents()) && v == Contents()
    {
      ghost var c := Contents();
      var ok := IteratorStart();
      v := RestOfIteration(c);
      ok := IteratorStop();
    }

    method RestOfIteration(ghost c: seq<Pointer>) returns (v: seq<Pointer>)
      requires Valid() && iterActive && iterPos <= numels && Contents() == c
      modifies this`iterPos, this`iterCurentry
      ensures Valid() && iterPos == numels && Contents() == c && v == c[old(iterPos)..]
      decreases numels - iterPos
    {
      var more := IteratorHasNext();
      if !more { return []; }
      var data := IteratorNext();
      var rest := RestOfIteration(c);
      v := [data] + rest;
    }
  }
}

/** The list's quicksort: a pivot chosen at random, two iterators that meet at it, a phase that moves the
    pivot itself, and a selection sort for short stretches.  Only data is exchanged; links stay. */
module ListSort {
  import opened Bytes
  import opened Chains
  import opened Rearrange
  import opened SimcList

  const MINQUICKSORTELS := 24

  /** The nodes of a list with its sentinels; positions below are positions in it. */
  ghost predicate Block(s: seq<Entry>, repr: set<Entry>)
    reads repr
  {
    In(s, repr) && Linked(s, repr) && Distinct(s)
  }

  /** Stores into one node. */
  method SetData(e: Entry, x: Pointer, ghost s: seq<Entry>, ghost repr: set<Entry>, ghost i: int)
    requires Block(s, repr) && 0 <= i < |s| && s[i] == e
    modifies e`data
    ensures Block(s, repr) && Values(s, repr) == old(Values(s, repr))[i := x]
  {
    DistinctIsPairwise(s);
    e.data := x;
  }

  method Swap(x: Entry, y: Entry, ghost s: seq<Entry>, ghost repr: set<Entry>, ghost i: int, ghost j: int)
    requires Block(s, repr) && 0 <= i < |s| && 0 <= j < |s| && s[i] == x && s[j] == y
    modifies x`data, y`data
    ensures Block(s, repr) && Values(s, repr) == Exchanged(old(Values(s, repr)), i, j)
  {
    ghost var v := Values(s, repr);
    var tmpdata := x.data;
    SetData(x, y.data, s, repr, i);
    SetData(y, tmpdata, s, repr, j);
  }

  method SwapOther(x: Entry, y: Entry, ghost s: seq<Entry>, ghost repr: set<Entry>, ghost i: int, ghost j: int)
    requires Block(s, repr) && 0 <= i < |s| && 0 <= j < |s| && s[i] == x && s[j] == y
    modifies x`data, y`data
    ensures Block(s, repr) && Values(s, repr) == Exchanged(old(Values(s, repr)), i, j)
  {
    if x != y {
      Swap(x, y, s, repr, i, j);
    } else {
      DistinctIsPairwise(s);
      assert i == j;
    }
  }

  // ---------------------------------------------------------------- selection sort

  /** The first node of `from..to` in the order. */
  method FindFirst(firstunsorted: Entry, stop: Entry, key: Order, ghost s: seq<Entry>, ghost repr: set<Entry>,
      ghost i: int, ghost b: int)
    returns (toswap: Entry, ghost m: int)
    requires Block(s, repr) && Preorder(key) && 0 <= i < b < |s| && s[i] == firstunsorted && s[b] == stop
    ensures i <= m < b && toswap == s[m] && High(Values(s, repr), i, b, Values(s, repr)[m], key)
  {
    ghost var v, j := Values(s, repr), i + 1;
    assert s[i].next == s[i + 1];
    toswap, m := firstunsorted, i;
    Reversed(key, v[i], v[i]);
    var cursor := firstunsorted.next;
    while cursor != stop
      invariant i <= m < j <= b && toswap == s[m] && cursor == s[j]
      invariant High(v, i, j, v[m], key)
      decreases b - j
    {
      assert toswap.data == v[m] && cursor.data == v[j];
      if key(toswap.data, cursor.data) > 0 {
        HighMoves(v, i, j, m, key);
        toswap, m := cursor, j;
      }
      assert s[j].next == s[j + 1];
      cursor, j := cursor.next, j + 1;
    }
    DistinctIsPairwise(s);
  }

  lemma HighMoves(v: seq<Pointer>, i: int, j: int, m: int, key: Order)
    requires Preorder(key) && 0 <= i <= m < j < |v| && High(v, i, j, v[m], key) && key(v[m], v[j]) > 0
    ensures High(v, i, j, v[j], key) && key(v[j], v[j]) <= 0
  {
    Reversed(key, v[m], v[j]);
    Reversed(key, v[j], v[j]);
    assert PreorderAt(key, v[j]);
  }

  /** `v[a..i]` is sorted and nothing behind it belongs before. */
  ghost predicate Selected(v: seq<Pointer>, a: int, i: int, b: int, key: Order)
    requires 0 <= a && i <= b <= |v|
  {
    forall k :: a <= k < i ==> First(v, k, k, b, key)
  }

  lemma SelectOne(v: seq<Pointer>, a: int, i: int, m: int, b: int, key: Order)
    requires Preorder(key) && 0 <= a <= i <= m < b <= |v| && Selected(v, a, i, b, key) && High(v, i, b, v[m], key)
    ensures Selected(Exchanged(v, i, m), a, i + 1, b, key)
  {
    var w := Exchanged(v, i, m);
    Reversed(key, v[m], v[m]);
    forall k | a <= k < i + 1 ensures First(w, k, k, b, key) {
      if k < i { assert First(v, k, k, b, key); }
    }
  }

  lemma SelectTurn(v0: seq<Pointer>, v: seq<Pointer>, a: int, i: int, m: int, b: int, key: Order)
    requires Preorder(key) && 0 <= a <= i <= m < b <= |v| && |v0| == |v|
    requires Rearranged(v0, v, a, b) && Selected(v, a, i, b, key) && High(v, i, b, v[m], key)
    ensures Rearranged(v0, Exchanged(v, i, m), a, b) && Selected(Exchanged(v, i, m), a, i + 1, b, key)
  {
    SelectOne(v, a, i, m, b, key);
    ExchangedIsRearranged(v, i, m, a, b);
    RearrangedTwice(v0, v, Exchanged(v, i, m), a, b);
  }

  lemma SelectedIsSorted(v: seq<Pointer>, a: int, b: int, key: Order)
    requires Preorder(key) && 0 <= a < b <= |v| && Selected(v, a, b - 1, b, key)
    ensures Sorted(v, a, b, key)
  {
    Reversed(key, v[b - 1], v[b - 1]);
  }

  method SelectionSort(fel: Entry, lel: Entry, key: Order, ghost s: seq<Entry>, ghost repr: set<Entry>, ghost a: int,
      ghost b: int)
    requires Block(s, repr) && Preorder(key) && 0 <= a < b < |s| && s[a] == fel && s[b - 1] == lel
    modifies repr`data
    ensures Block(s, repr)
    ensures Rearranged(old(Values(s, repr)), Values(s, repr), a, b) && Sorted(Values(s, repr), a, b, key)
  {
    ghost var v0, i := Values(s, repr), a;
    assert s[b - 1].next == s[b - 1 + 1];
    var firstunsorted := fel;
    while firstunsorted != lel
      invariant Block(s, repr) && a <= i < b && firstunsorted == s[i]
      invariant Rearranged(v0, Values(s, repr), a, b) && Selected(Values(s, repr), a, i, b, key)
      decreases b - i
    {
      ghost var v := Values(s, repr);
      var toswap, m := FindFirst(firstunsorted, lel.next, key, s, repr, i, b);
      SelectTurn(v0, v, a, i, m, b, key);
      SwapOther(firstunsorted, toswap, s, repr, i, m);
      assert s[i].next == s[i + 1];
      firstunsorted, i := firstunsorted.next, i + 1;
    }
    DistinctIsPairwise(s);
    SelectedIsSorted(Values(s, repr), a, b, key);
  }

  // ---------------------------------------------------------------- quicksort

  /** The pivot is at `p`; what lies before `l` and behind `r` is on its proper side of it. */
  ghost predicate Parted(v0: seq<Pointer>, v: seq<Pointer>, a: int, l: int, p: int, r: int, b: int, key: Order)
  {
    && 0 <= a <= l <= p <= r < b <= |v0| && |v| == |v0|
    && Rearranged(v0, v, a, b) && Low(v, a, l, v[p], key) && High(v, r + 1, b, v[p], key)
  }

  /** Goes right past elements that belong left of the pivot. */
  method SkipLow(start: Entry, pivot: Entry, key: Order, ghost s: seq<Entry>, ghost repr: set<Entry>, ghost l0: int,
      ghost p: int)
    returns (left: Entry, ghost l: int)
    requires Block(s, repr) && 0 <= l0 <= p < |s| && start == s[l0] && pivot == s[p]
    ensures l0 <= l <= p && left == s[l] && Low(Values(s, repr), l0, l, Values(s, repr)[p], key)
    ensures left == pivot || key(left.data, pivot.data) > 0
  {
    left, l := start, l0;
    while left != pivot && key(left.data, pivot.data) <= 0
      invariant l0 <= l <= p && left == s[l] && Low(Values(s, repr), l0, l, Values(s, repr)[p], key)
      decreases p - l
    {
      assert s[l].next == s[l + 1];
      left, l := left.next, l + 1;
    }
  }

  method SkipHigh(start: Entry, pivot: Entry, key: Order, ghost s: seq<Entry>, ghost repr: set<Entry>, ghost p: int,
      ghost r0: int)
    returns (right: Entry, ghost r: int)
    requires Block(s, repr) && Preorder(key) && 0 <= p <= r0 < |s| && start == s[r0] && pivot == s[p]
    ensures p <= r <= r0 && right == s[r] && High(Values(s, repr), r + 1, r0 + 1, Values(s, repr)[p], key)
    ensures right == pivot || key(right.data, pivot.data) < 0
  {
    right, r := start, r0;
    while right != pivot && key(right.data, pivot.data) >= 0
      invariant p <= r <= r0 && right == s[r] && High(Values(s, repr), r + 1, r0 + 1, Values(s, repr)[p], key)
      decreases r - p
    {
      assert s[r - 1 + 1].prev == s[r - 1];
      Reversed(key, pivot.data, right.data);
      right, r := right.prev, r - 1;
    }
  }

  lemma PartedSkips(v0: seq<Pointer>, v: seq<Pointer>, a: int, l0: int, l: int, p: int, r: int, r0: int, b: int,
        key: Order)
    requires Parted(v0, v, a, l0, p, r0, b, key) && l0 <= l <= p <= r <= r0
    requires Low(v, l0, l, v[p], key) && High(v, r + 1, r0 + 1, v[p], key)
    ensures Parted(v0, v, a, l, p, r, b, key)
  {
  }

  lemma PartedExchanges(v0: seq<Pointer>, v: seq<Pointer>, a: int, l: int, p: int, r: int, b: int, key: Order)
    requires Preorder(key) && Parted(v0, v, a, l, p, r, b, key) && l < p < r && key(v[l], v[p]) > 0
        && key(v[r], v[p]) < 0
    ensures Parted(v0, Exchanged(v, l, r), a, l + 1, p, r - 1, b, key)
  {
    ExchangedIsRearranged(v, l, r, a, b);
    RearrangedTwice(v0, v, Exchanged(v, l, r), a, b);
    Reversed(key, v[p], v[l]);
  }

  /** One turn: both iterators skip what is on its proper side, then exchange what they stopped at. */
  method MeetTurn(left0: Entry, right0: Entry, pivot: Entry, key: Order, ghost s: seq<Entry>, ghost repr: set<Entry>,
                  ghost v0: seq<Pointer>, ghost a: int, ghost l0: int, ghost p: int, ghost r0: int, ghost b: int)
    returns (left: Entry, right: Entry, ghost l: int, ghost r: int)
    requires Block(s, repr) && Preorder(key) && Parted(v0, Values(s, repr), a, l0, p, r0, b, key)
    requires left0 == s[l0] && right0 == s[r0] && pivot == s[p] && left0 != pivot && right0 != pivot
    modifies repr`data
    ensures Block(s, repr) && Parted(v0, Values(s, repr), a, l, p, r, b, key) && left == s[l] && right == s[r]
    ensures r - l < r0 - l0
  {
    ghost var v := Values(s, repr);
    left, l := SkipLow(left0, pivot, key, s, repr, l0, p);
    right, r := SkipHigh(right0, pivot, key, s, repr, p, r0);
    PartedSkips(v0, v, a, l0, l, p, r, r0, b, key);
    if left != pivot && right != pivot {
      PartedExchanges(v0, v, a, l, p, r, b, key);
      Swap(left, right, s, repr, l, r);
      assert s[l].next == s[l + 1] && s[r - 1 + 1].prev == s[r - 1];
      left, right, l, r := left.next, right.prev, l + 1, r - 1;
    }
  }

  /** The iterators move towards the pivot, exchanging what is on the wrong side, until one reaches it. */
  method Meet(fel: Entry, lel: Entry, pivot: Entry, key: Order, ghost s: seq<Entry>, ghost repr: set<Entry>,
        ghost a: int,
      ghost p: int, ghost b: int)
    returns (left: Entry, right: Entry, ghost l: int, ghost r: int)
    requires Block(s, repr) && Preorder(key) && 0 <= a <= p < b <= |s| && fel == s[a] && lel == s[b - 1]
        && pivot == s[p]
    modifies repr`data
    ensures Block(s, repr) && Parted(old(Values(s, repr)), Values(s, repr), a, l, p, r, b, key)
    ensures left == s[l] && right == s[r] && (if right == pivot then r == p else l == p)
  {
    left, right, l, r := fel, lel, a, b - 1;
    ghost var v0 := Values(s, repr);
    while left != pivot && right != pivot
      invariant Block(s, repr) && Parted(v0, Values(s, repr), a, l, p, r, b, key) && left == s[l] && right == s[r]
      decreases r - l
    {
      left, right, l, r := MeetTurn(left, right, pivot, key, s, repr, v0, a, l, p, r, b);
    }
    DistinctIsPairwise(s);
  }

  // ---------------------------------------------------------------- the moving pivot

  /** The three assignments that put the element at `l` behind the pivot, which moves one to the left. */
  function RotatedLeft(v: seq<Pointer>, l: int, p: int): seq<Pointer>
    requires 0 <= l < p < |v|
  {
    Exchanged(Exchanged(v, l, p - 1), p - 1, p)
  }

  lemma PartedRotatesLeft(v0: seq<Pointer>, v: seq<Pointer>, a: int, l: int, p: int, b: int, key: Order)
    requires Preorder(key) && Parted(v0, v, a, l, p, p, b, key) && l < p && key(v[l], v[p]) > 0
    ensures Parted(v0, RotatedLeft(v, l, p), a, l, p - 1, p - 1, b, key)
  {
    ExchangedTwice(v0, v, l, p - 1, p - 1, p, a, b);
    Reversed(key, v[p], v[l]);
    RotatedLeftSides(v, a, l, p, b, key);
  }

  lemma ExchangedTwice(v0: seq<Pointer>, v: seq<Pointer>, i: int, j: int, i': int, j': int, a: int, b: int)
    requires 0 <= a <= i <= j < b <= |v| == |v0| && a <= i' <= j' < b && Rearranged(v0, v, a, b)
    ensures Rearranged(v0, Exchanged(Exchanged(v, i, j), i', j'), a, b)
  {
    var w := Exchanged(v, i, j);
    ExchangedIsRearranged(v, i, j, a, b);
    ExchangedIsRearranged(w, i', j', a, b);
    RearrangedTwice(v0, v, w, a, b);
    RearrangedTwice(v0, w, Exchanged(w, i', j'), a, b);
  }

  lemma RotatedLeftSides(v: seq<Pointer>, a: int, l: int, p: int, b: int, key: Order)
    requires 0 <= a <= l < p < b <= |v| && Low(v, a, l, v[p], key) && High(v, p + 1, b, v[p], key)
        && key(v[p], v[l]) <= 0
    ensures var w := RotatedLeft(v, l, p); |w| == |v| && Low(w, a, l, w[p - 1], key) && High(w, p, b, w[p - 1], key)
  {
  }

  method RotateLeft(left: Entry, pivot: Entry, ghost s: seq<Entry>, ghost repr: set<Entry>, ghost l: int, ghost p: int)
    returns (pivot': Entry)
    requires Block(s, repr) && 0 <= l < p < |s| && left == s[l] && pivot == s[p]
    modifies repr`data
    ensures Block(s, repr) && Values(s, repr) == RotatedLeft(old(Values(s, repr)), l, p) && pivot' == s[p - 1]
  {
    assert s[p - 1 + 1].prev == s[p - 1];
    pivot' := pivot.prev;
    var tmpdata := left.data;
    SetData(left, pivot'.data, s, repr, l);
    SetData(pivot', pivot.data, s, repr, p - 1);
    SetData(pivot, tmpdata, s, repr, p);
  }

  /** The left part is longer: elements of it that belong behind the pivot go there. */
  method MoveLeft(left0: Entry, pivot0: Entry, pivotid0: int, key: Order, ghost s: seq<Entry>, ghost repr: set<Entry>,
                  ghost v0: seq<Pointer>, ghost a: int, ghost l0: int, ghost p0: int, ghost b: int)
    returns (pivot: Entry, pivotid: int, ghost p: int)
    requires Block(s, repr) && Preorder(key) && |v0| == |s| && Parted(v0, Values(s, repr), a, l0, p0, p0, b, key)
    requires left0 == s[l0] && pivot0 == s[p0] && pivotid0 == p0 - a
    modifies repr`data
    ensures Block(s, repr) && Parted(v0, Values(s, repr), a, p, p, p, b, key) && pivot == s[p] && pivotid == p - a
  {
    var left := left0;
    ghost var l := l0;
    pivot, pivotid, p := pivot0, pivotid0, p0;
    while left != pivot
      invariant Block(s, repr) && Parted(v0, Values(s, repr), a, l, p, p, b, key)
      invariant left == s[l] && pivot == s[p] && pivotid == p - a
      decreases p - l
    {
      left, pivot, pivotid, l, p := LeftTurn(left, pivot, pivotid, key, s, repr, v0, a, l, p, b);
    }
    DistinctIsPairwise(s);
  }

  /** One turn: the element goes behind the pivot, or the iterator goes on. */
  method LeftTurn(left0: Entry, pivot0: Entry, pivotid0: int, key: Order, ghost s: seq<Entry>, ghost repr: set<Entry>,
                  ghost v0: seq<Pointer>, ghost a: int, ghost l0: int, ghost p0: int, ghost b: int)
    returns (left: Entry, pivot: Entry, pivotid: int, ghost l: int, ghost p: int)
    requires Block(s, repr) && Preorder(key) && |v0| == |s| && Parted(v0, Values(s, repr), a, l0, p0, p0, b, key)
    requires left0 == s[l0] && pivot0 == s[p0] && pivotid0 == p0 - a && left0 != pivot0
    modifies repr`data
    ensures Block(s, repr) && Parted(v0, Values(s, repr), a, l, p, p, b, key)
    ensures left == s[l] && pivot == s[p] && pivotid == p - a && p - l < p0 - l0
  {
    left, pivot, pivotid, l, p := left0, pivot0, pivotid0, l0, p0;
    if key(left.data, pivot.data) > 0 {
      PartedRotatesLeft(v0, Values(s, repr), a, l, p, b, key);
      pivot := RotateLeft(left, pivot, s, repr, l, p);
      pivotid, p := pivotid - 1, p - 1;
    } else {
      assert s[l].next == s[l + 1];
      left, l := left.next, l + 1;
    }
  }

  function RotatedRight(v: seq<Pointer>, p: int, r: int): seq<Pointer>
    requires 0 <= p < r < |v|
  {
    Exchanged(Exchanged(v, p + 1, r), p, p + 1)
  }

  lemma PartedRotatesRight(v0: seq<Pointer>, v: seq<Pointer>, a: int, p: int, r: int, b: int, key: Order)
    requires Preorder(key) && Parted(v0, v, a, p, p, r, b, key) && p < r && key(v[r], v[p]) < 0
    ensures Parted(v0, RotatedRight(v, p, r), a, p + 1, p + 1, r, b, key)
  {
    ExchangedTwice(v0, v, p + 1, r, p, p + 1, a, b);
    RotatedRightSides(v, a, p, r, b, key);
  }

  lemma RotatedRightSides(v: seq<Pointer>, a: int, p: int, r: int, b: int, key: Order)
    requires 0 <= a <= p < r < b <= |v| && Low(v, a, p, v[p], key) && High(v, r + 1, b, v[p], key)
        && key(v[r], v[p]) <= 0
    ensures var w := RotatedRight(v, p, r);
      |w| == |v| && Low(w, a, p + 1, w[p + 1], key) && High(w, r + 1, b, w[p + 1], key)
  {
  }

  method RotateRight(right: Entry, pivot: Entry, ghost s: seq<Entry>, ghost repr: set<Entry>, ghost p: int,
        ghost r: int)
    returns (pivot': Entry)
    requires Block(s, repr) && 0 <= p < r < |s| && right == s[r] && pivot == s[p]
    modifies repr`data
    ensures Block(s, repr) && Values(s, repr) == RotatedRight(old(Values(s, repr)), p, r) && pivot' == s[p + 1]
  {
    assert s[p].next == s[p + 1];
    pivot' := pivot.next;
    var tmpdata := right.data;
    SetData(right, pivot'.data, s, repr, r);
    SetData(pivot', pivot.data, s, repr, p + 1);
    SetData(pivot, tmpdata, s, repr, p);
  }

  /** The right part is longer: elements of it that belong before the pivot go there. */
  method MoveRight(right0: Entry, pivot0: Entry, pivotid0: int, key: Order, ghost s: seq<Entry>, ghost repr: set<Entry>,
                   ghost v0: seq<Pointer>, ghost a: int, ghost p0: int, ghost r0: int, ghost b: int)
    returns (pivot: Entry, pivotid: int, ghost p: int)
    requires Block(s, repr) && Preorder(key) && |v0| == |s| && Parted(v0, Values(s, repr), a, p0, p0, r0, b, key)
    requires right0 == s[r0] && pivot0 == s[p0] && pivotid0 == p0 - a
    modifies repr`data
    ensures Block(s, repr) && Parted(v0, Values(s, repr), a, p, p, p, b, key) && pivot == s[p] && pivotid == p - a
  {
    var right := right0;
    ghost var r := r0;
    pivot, pivotid, p := pivot0, pivotid0, p0;
    while right != pivot
      invariant Block(s, repr) && Parted(v0, Values(s, repr), a, p, p, r, b, key)
      invariant right == s[r] && pivot == s[p] && pivotid == p - a
      decreases r - p
    {
      right, pivot, pivotid, p, r := RightTurn(right, pivot, pivotid, key, s, repr, v0, a, p, r, b);
    }
    DistinctIsPairwise(s);
  }

  method RightTurn(right0: Entry, pivot0: Entry, pivotid0: int, key: Order, ghost s: seq<Entry>, ghost repr: set<Entry>,
                   ghost v0: seq<Pointer>, ghost a: int, ghost p0: int, ghost r0: int, ghost b: int)
    returns (right: Entry, pivot: Entry, pivotid: int, ghost p: int, ghost r: int)
    requires Block(s, repr) && Preorder(key) && |v0| == |s| && Parted(v0, Values(s, repr), a, p0, p0, r0, b, key)
    requires right0 == s[r0] && pivot0 == s[p0] && pivotid0 == p0 - a && right0 != pivot0
    modifies repr`data
    ensures Block(s, repr) && Parted(v0, Values(s, repr), a, p, p, r, b, key)
    ensures right == s[r] && pivot == s[p] && pivotid == p - a && r - p < r0 - p0
  {
    right, pivot, pivotid, p, r := right0, pivot0, pivotid0, p0, r0;
    if key(right.data, pivot.data) < 0 {
      PartedRotatesRight(v0, Values(s, repr), a, p, r, b, key);
      pivot := RotateRight(right, pivot, s, repr, p, r);
      pivotid, p := pivotid + 1, p + 1;
    } else {
      Reversed(key, pivot.data, right.data);
      assert s[r - 1 + 1].prev == s[r - 1];
      right, r := right.prev, r - 1;
    }
  }

  // ---------------------------------------------------------------- the recursion

  /** Walks to the pivot from the nearer end. */
  method FindPivot(fel: Entry, lel: Entry, n: nat, pivotid: nat, ghost s: seq<Entry>, ghost repr: set<Entry>,
        ghost a: int)
    returns (pivot: Entry)
    requires Block(s, repr) && 0 <= a && a + n <= |s| && pivotid < n && fel == s[a] && lel == s[a + n - 1]
    ensures pivot == s[a + pivotid]
  {
    if pivotid < n / 2 {
      pivot := fel;
      for i := 0 to pivotid
        invariant pivot == s[a + i]
      {
        assert s[a + i].next == s[a + i + 1];
        pivot := pivot.next;
      }
    } else {
      pivot := lel;
      for i := n - 1 downto pivotid
        invariant pivot == s[a + i]
      {
        assert s[a + i + 1].prev == s[a + i];
        pivot := pivot.prev;
      }
    }
  }

  /** All of a partition, around a pivot chosen anywhere. */
  method Partition(fel: Entry, lel: Entry, n: nat, key: Order, ghost s: seq<Entry>, ghost repr: set<Entry>,
        ghost a: int)
    returns (pivot: Entry, pivotid: int, ghost p: int)
    requires Block(s, repr) && Preorder(key) && 0 <= a && 0 < n && a + n <= |s| && fel == s[a] && lel == s[a + n - 1]
    modifies repr`data
    ensures Block(s, repr) && 0 <= pivotid < n && p == a + pivotid && pivot == s[p]
    ensures Parted(old(Values(s, repr)), Values(s, repr), a, p, p, p, a + n, key)
  {
    pivotid :| 0 <= pivotid < n;
    pivot := FindPivot(fel, lel, n, pivotid, s, repr, a);
    pivot, pivotid, p := PartitionAround(fel, lel, pivot, pivotid, key, s, repr, a, a + pivotid, a + n);
  }

  method PartitionAround(fel: Entry, lel: Entry, pivot0: Entry, pivotid0: int, key: Order, ghost s: seq<Entry>,
      ghost repr: set<Entry>,
                         ghost a: int, ghost p0: int, ghost b: int)
    returns (pivot: Entry, pivotid: int, ghost p: int)
    requires Block(s, repr) && Preorder(key) && 0 <= a <= p0 < b <= |s| && pivotid0 == p0 - a
    requires fel == s[a] && lel == s[b - 1] && pivot0 == s[p0]
    modifies repr`data
    ensures Block(s, repr) && a <= p < b && pivotid == p - a && pivot == s[p]
    ensures Parted(old(Values(s, repr)), Values(s, repr), a, p, p, p, b, key)
  {
    ghost var v0 := Values(s, repr);
    var left, right, l, r := Meet(fel, lel, pivot0, key, s, repr, a, p0, b);
    if right == pivot0 {
      pivot, pivotid, p := MoveLeft(left, pivot0, pivotid0, key, s, repr, v0, a, l, p0, b);
    } else {
      pivot, pivotid, p := MoveRight(right, pivot0, pivotid0, key, s, repr, v0, a, p0, r, b);
    }
  }

  lemma PartsSorted(v0: seq<Pointer>, v1: seq<Pointer>, v2: seq<Pointer>, v3: seq<Pointer>, a: int, p: int, b: int,
      key: Order)
    requires Preorder(key) && Parted(v0, v1, a, p, p, p, b, key)
    requires Rearranged(v1, v2, a, p) && Sorted(v2, a, p, key) && Rearranged(v2, v3, p + 1, b)
        && Sorted(v3, p + 1, b, key)
    ensures Rearranged(v0, v3, a, b) && Sorted(v3, a, b, key)
  {
    RearrangedLow(v1, v2, a, p, v1[p], key);
    RearrangedLow(v2, v3, p + 1, b, v1[p], key);
    RearrangedWider(v1, v2, a, p, a, b);
    RearrangedWider(v2, v3, p + 1, b, a, b);
    RearrangedTwice(v0, v1, v2, a, b);
    RearrangedTwice(v0, v2, v3, a, b);
    SortedThere(v2, v3, a, p, key);
    SortedAround(v3, a, p, b, key);
  }

  lemma SortedThere(v: seq<Pointer>, w: seq<Pointer>, a: int, p: int, key: Order)
    requires 0 <= a <= p <= |v| && |w| == |v| && Sorted(v, a, p, key) && forall k :: a <= k < p ==> w[k] == v[k]
    ensures Sorted(w, a, p, key)
  {
    forall k | a <= k < p ensures First(w, k, k, p, key) { assert First(v, k, k, p, key); }
  }

  /** `list_sort_quicksort` on the elements at positions `first` to `last`. */
  method QuickSort(first: nat, fel: Entry, last: nat, lel: Entry, key: Order, ghost s: seq<Entry>,
        ghost repr: set<Entry>)
    requires Block(s, repr) && Preorder(key) && first <= last <= |s| - 2 && fel == s[first + 1] && lel == s[last + 1]
    requires last + 2 < |s|
    modifies repr`data
    ensures Block(s, repr)
    ensures Rearranged(old(Values(s, repr)), Values(s, repr), first + 1, last + 2)
    ensures Sorted(Values(s, repr), first + 1, last + 2, key)
    decreases last - first, 3
  {
    ghost var a, b, v0 := first + 1, last + 2, Values(s, repr);
    if last <= first {
      Reversed(key, v0[a], v0[a]);
      return;
    }
    if last - first + 1 <= MINQUICKSORTELS {
      SelectionSort(fel, lel, key, s, repr, a, b);
      return;
    }
    Divide(first, fel, last, lel, key, s, repr);
  }

  /** A partition, and the sorting of its two sides. */
  method Divide(first: nat, fel: Entry, last: nat, lel: Entry, key: Order, ghost s: seq<Entry>, ghost repr: set<Entry>)
    requires Block(s, repr) && Preorder(key) && first < last && last + 2 < |s| && fel == s[first + 1]
        && lel == s[last + 1]
    modifies repr`data
    ensures Block(s, repr)
    ensures Rearranged(old(Values(s, repr)), Values(s, repr), first + 1, last + 2)
    ensures Sorted(Values(s, repr), first + 1, last + 2, key)
    decreases last - first, 2
  {
    ghost var v0 := Values(s, repr);
    var pivot, pivotid, p := Partition(fel, lel, last - first + 1, key, s, repr, first + 1);
    SortSides(first, fel, last, lel, pivot, pivotid, key, s, repr, v0, p);
  }

  method SortSides(first: nat, fel: Entry, last: nat, lel: Entry, pivot: Entry, pivotid: nat, key: Order,
      ghost s: seq<Entry>, ghost repr: set<Entry>, ghost v0: seq<Pointer>, ghost p: int)
    requires Block(s, repr) && Preorder(key) && first < last && last + 2 < |s| == |v0|
    requires fel == s[first + 1] && lel == s[last + 1] && p == first + 1 + pivotid <= last + 1 && pivot == s[p]
    requires Parted(v0, Values(s, repr), first + 1, p, p, p, last + 2, key)
    modifies repr`data
    ensures Block(s, repr) && Rearranged(v0, Values(s, repr), first + 1, last + 2)
    ensures Sorted(Values(s, repr), first + 1, last + 2, key)
    decreases last - first, 1
  {
    ghost var v1 := Values(s, repr);
    SortLeft(first, fel, last, pivot, pivotid, key, s, repr, p);
    ghost var v2 := Values(s, repr);
    SortRight(first, last, lel, pivot, pivotid, key, s, repr, p);
    PartsSorted(v0, v1, v2, Values(s, repr), first + 1, p, last + 2, key);
  }

  method SortLeft(first: nat, fel: Entry, ghost last: nat, pivot: Entry, pivotid: nat, key: Order, ghost s: seq<Entry>,
      ghost repr: set<Entry>, ghost p: int)
    requires Block(s, repr) && Preorder(key) && p == first + 1 + pivotid && p <= last + 1 && last + 2 < |s|
    requires fel == s[first + 1] && pivot == s[p]
    modifies repr`data
    ensures Block(s, repr)
    ensures Rearranged(old(Values(s, repr)), Values(s, repr), first + 1, p)
        && Sorted(Values(s, repr), first + 1, p, key)
    decreases last - first, 0
  {
    if pivotid > 0 {
      assert s[p - 1 + 1].prev == s[p - 1];
      QuickSort(first, fel, first + pivotid - 1, pivot.prev, key, s, repr);
    }
  }

  method SortRight(first: nat, last: nat, lel: Entry, pivot: Entry, pivotid: nat, key: Order, ghost s: seq<Entry>,
      ghost repr: set<Entry>, ghost p: int)
    requires Block(s, repr) && Preorder(key) && p == first + 1 + pivotid && p <= last + 1 && last + 2 < |s|
    requires lel == s[last + 1] && pivot == s[p]
    modifies repr`data
    ensures Block(s, repr)
    ensures Rearranged(old(Values(s, repr)), Values(s, repr), p + 1, last + 2)
    ensures Sorted(Values(s, repr), p + 1, last + 2, key)
    decreases last - first, 0
  {
    if first + pivotid < last {
      assert s[p].next == s[p + 1];
      QuickSort(first + pivotid + 1, pivot.next, last, lel, key, s, repr);
    }
  }

  // ---------------------------------------------------------------- the list

  /** The comparator as the sort uses it: positive `versus` sorts small to big. */
  function Directed(cmp: Order, versus: int): Order { (a: Pointer, b: Pointer) => cmp(a, b) * -versus }

  lemma DirectedIsPreorder(cmp: Order, versus: int)
    requires Preorder(cmp) && versus != 0
    ensures Preorder(Directed(cmp, versus))
  {
    var key := Directed(cmp, versus);
    forall a ensures PreorderAt(key, a) {
      forall b ensures key(a, b) <= 0 <==> key(b, a) >= 0 {
        Reversed(cmp, a, b);
        Reversed(cmp, b, a);
        SignOfProduct(cmp(a, b), versus);
        SignOfProduct(cmp(b, a), versus);
      }
      forall b, c | key(a, b) <= 0 && key(b, c) <= 0 ensures key(a, c) <= 0 {
        DirectedTransitive(cmp, versus, a, b, c);
      }
    }
  }

  lemma DirectedTransitive(cmp: Order, versus: int, a: Pointer, b: Pointer, c: Pointer)
    requires Preorder(cmp) && versus != 0 && cmp(a, b) * -versus <= 0 && cmp(b, c) * -versus <= 0
    ensures cmp(a, c) * -versus <= 0
  {
    SignOfProduct(cmp(a, b), versus);
    SignOfProduct(cmp(b, c), versus);
    SignOfProduct(cmp(a, c), versus);
    Reversed(cmp, a, b);
    Reversed(cmp, b, c);
    Reversed(cmp, a, c);
    Reversed(cmp, b, a);
    Reversed(cmp, c, b);
    Reversed(cmp, c, a);
    if versus > 0 { Transitive(cmp, c, b, a); } else { Transitive(cmp, a, b, c); }
  }

  lemma SignOfProduct(x: int, versus: int)
    requires versus != 0
    ensures x * -versus <= 0 <==> (if versus > 0 then x >= 0 else x <= 0)
    ensures x * -versus >= 0 <==> (if versus > 0 then x <= 0 else x >= 0)
  {
  }

  /** In the order `versus` asks for. */
  ghost predicate Ascending(c: seq<Pointer>, cmp: Order, versus: int)
  {
    forall i, j :: 0 <= i <= j < |c| ==> cmp(c[i], c[j]) * -versus <= 0
  }

  /** `list_sort`: the list is rearranged into the order of the comparator; its nodes and its middle stay. */
  method Sort(l: List, cmp: Option<Order>, versus: int) returns (r: int)
    requires l.Valid() && versus != 0 && (cmp.Some? ==> Preorder(cmp.value))
    modifies l.repr`data
    ensures l.Valid() && r == if l.iterActive || cmp.None? then -1 else 0
    ensures if r < 0 then l.Contents() == old(l.Contents())
            else multiset(l.Contents()) == multiset(old(l.Contents())) && Ascending(l.Contents(), cmp.value, versus)
  {
    if l.iterActive || cmp.None? { return -1; }
    DirectedIsPreorder(cmp.value, versus);
    if l.numels <= 1 {
      OneIsAscending(l.Contents(), cmp.value, versus);
      return 0;
    }
    SortAll(l, cmp.value, versus);
    return 0;
  }

  method SortAll(l: List, cmp: Order, versus: int)
    requires l.Valid() && Preorder(Directed(cmp, versus)) && l.numels > 1
    modifies l.repr`data
    ensures l.Valid() && multiset(l.Contents()) == multiset(old(l.Contents())) && Ascending(l.Contents(), cmp, versus)
  {
    ghost var v0, c0 := Values(l.spine, l.repr), l.Contents();
    SortElements(l, Directed(cmp, versus));
    SortedContents(v0, Values(l.spine, l.repr), l.numels, c0, l.Contents(), cmp, versus);
  }

  /** The elements between the sentinels are sorted. */
  method SortElements(l: List, key: Order)
    requires l.Valid() && Preorder(key) && l.numels > 1
    modifies l.repr`data
    ensures l.Valid() && Rearranged(old(Values(l.spine, l.repr)), Values(l.spine, l.repr), 1, l.numels + 1)
    ensures Sorted(Values(l.spine, l.repr), 1, l.numels + 1, key)
  {
    assert l.spine[0].next == l.spine[0 + 1] && l.spine[l.numels + 1].prev == l.spine[l.numels];
    QuickSort(0, l.headSentinel.next, l.numels - 1, l.tailSentinel.prev, key, l.spine, l.repr);
  }

  lemma OneIsAscending(c: seq<Pointer>, cmp: Order, versus: int)
    requires Preorder(Directed(cmp, versus)) && |c| <= 1
    ensures Ascending(c, cmp, versus)
  {
    if |c| == 1 { Reversed(Directed(cmp, versus), c[0], c[0]); }
  }

  lemma SortedContents(v0: seq<Pointer>, v: seq<Pointer>, n: nat, c0: seq<Pointer>, c: seq<Pointer>, cmp: Order,
      versus: int)
    requires |v0| == n + 2 && Rearranged(v0, v, 1, n + 1) && Sorted(v, 1, n + 1, Directed(cmp, versus))
    requires c0 == v0[1..n + 1] && c == v[1..n + 1]
    ensures multiset(c) == multiset(c0) && Ascending(c, cmp, versus)
  {
    forall i, j | 0 <= i <= j < n ensures cmp(c[i], c[j]) * -versus <= 0 {
      assert First(v, i + 1, i + 1, n + 1, Directed(cmp, versus));
      assert Directed(cmp, versus)(v[i + 1], v[j + 1]) <= 0;
    }
  }
}

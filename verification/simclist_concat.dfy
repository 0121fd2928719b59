/** `list_concat`: a third list with the elements of two others. */
module ListConcat {
  import opened Chains
  import opened SimcList

  /** Division as C does it, towards zero. */
  function TDiv(a: int, b: int): int
    requires b > 0
  {
    if a >= 0 then a / b else -((-a) / b)
  }

  /** A chain of nodes not yet closed by its tail sentinel. */
  ghost predicate Chain(s: seq<Entry>, cells: set<Entry>)
    reads cells
  {
    s != [] && Distinct(s) && In(s, cells) && Linked(s, cells)
  }

  /** One turn of the copying loops. */
  method AppendCopy(el: Entry, data: Pointer, ghost s: seq<Entry>, ghost cells: set<Entry>) returns (e: Entry)
    requires Chain(s, cells) && el == s[|s| - 1]
    modifies el`next
    ensures fresh(e) && e.data == data && Chain(s + [e], cells + {e})
  {
    e := new Entry();
    assert e !in s;
    DistinctIsPairwise(s);
    DistinctSnoc(s, e);
    el.next := e;
    e.prev := el;
    e.data := data;
  }

  /** `c` continues `s` with new nodes holding the first `k` of `v`. */
  ghost predicate Copied(s: seq<Entry>, c: seq<Entry>, v: seq<Pointer>, k: int)
    reads c
  {
    && 0 <= k <= |v| && |c| == |s| + k
    && (forall i :: 0 <= i < |s| ==> c[i] == s[i])
    && (forall i :: 0 <= i < k ==> c[|s| + i].data == v[i])
  }

  lemma CopiedSnoc(s: seq<Entry>, c: seq<Entry>, v: seq<Pointer>, k: int, e: Entry)
    requires Copied(s, c, v, k) && k < |v| && e.data == v[k]
    ensures Copied(s, c + [e], v, k + 1)
  {
  }

  /** Copies the elements of `src` behind `el`, the last node of the chain `s`. */
  method CopyOnto(el: Entry, src: List, ghost s: seq<Entry>, ghost cells: set<Entry>)
    returns (last: Entry, ghost c: seq<Entry>, ghost all: set<Entry>)
    requires src.Valid() && Chain(s, cells) && el == s[|s| - 1] && cells !! src.repr
    modifies el`next
    ensures cells <= all && fresh(all - cells) && Chain(c, all) && last == c[|c| - 1]
    ensures Copied(s, c, old(src.Contents()), src.numels)
    ensures forall i :: |s| <= i < |c| ==> fresh(c[i])
  {
    last, c, all := el, s, cells;
    assert src.spine[0].next == src.spine[0 + 1];
    var srcel := src.headSentinel.next;
    ghost var k, v, more := 0, src.Contents(), {};
    while srcel != src.tailSentinel
      invariant src.Valid() && src.Contents() == v && 0 <= k <= src.numels && srcel == src.spine[k + 1]
      invariant fresh(more) && all == cells + more && Chain(c, all) && last == c[|c| - 1]
      invariant Copied(s, c, v, k)
      invariant forall i :: |s| <= i < |c| ==> fresh(c[i])
      decreases src.numels - k
    {
      assert src.spine[k + 1].next == src.spine[k + 1 + 1] && srcel.data == v[k];
      assert last == el || fresh(last);
      last := AppendCopy(last, srcel.data, c, all);
      srcel := srcel.next;
      CopiedSnoc(s, c, v, k, last);
      c, all, more, k := c + [last], all + {last}, more + {last}, k + 1;
    }
    DistinctIsPairwise(src.spine);
  }

  /** Where the middle pointer ends up: it starts at the last element of the first list, or at the head
      sentinel, and moves by half the difference of the sizes. */
  function Moves(n1: nat, n2: nat): int
  {
    var err := n2 - n1;
    if TDiv(err + 1, 2) > 0 then TDiv(err + 1, 2) else if TDiv(err, 2) < 0 then -TDiv(-err, 2) else 0
  }

  /** Whatever the parities and the difference, that is the middle of the new list. */
  lemma MovesToMid(n1: nat, n2: nat)
    requires n1 + n2 > 0
    ensures n1 + Moves(n1, n2) == (n1 + n2 - 1) / 2 + 1
  {
  }

  /** The loops that correct the middle pointer, on a closed chain. */
  method CorrectMid(from: Entry, n1: nat, n2: nat, ghost s: seq<Entry>, ghost cells: set<Entry>) returns (mid: Entry)
    requires In(s, cells) && Linked(s, cells) && |s| == n1 + n2 + 2 && n1 + n2 > 0 && from == s[n1]
    ensures mid == MidOf(s, n1 + n2)
  {
    MovesToMid(n1, n2);
    mid := from;
    var err := n2 - n1;
    if TDiv(err + 1, 2) > 0 {
      err := TDiv(err + 1, 2);
      for cnt := 0 to err
        invariant mid == s[n1 + cnt]
      {
        assert s[n1 + cnt].next == s[n1 + cnt + 1];
        mid := mid.next;
      }
    } else if TDiv(err, 2) < 0 {
      err := TDiv(-err, 2);
      for cnt := 0 to err
        invariant mid == s[n1 - cnt]
      {
        assert s[n1 - cnt - 1 + 1].prev == s[n1 - cnt - 1];
        mid := mid.prev;
      }
    }
  }

  /** `list_concat`; the two lists may be the same. */
  method Concat(l1: List, l2: List) returns (dest: List)
    requires l1.Valid() && l2.Valid()
    ensures fresh(dest) && fresh(dest.repr) && dest.Valid()
    ensures dest.Contents() == l1.Contents() + l2.Contents() && !dest.iterActive
  {
    dest := new List();
    assert dest.headSentinel == dest.spine[0] && dest.tailSentinel == dest.spine[dest.numels + 1];
    if l1.numels + l2.numels > 0 {
      Fill(dest, l1, l2);
    }
  }

  /** The two copying loops. */
  method CopyBoth(head: Entry, l1: List, l2: List, ghost v: seq<Pointer>)
    returns (el: Entry, last: Entry, ghost d: seq<Entry>, ghost all: set<Entry>)
    requires l1.Valid() && l2.Valid() && head !in l1.repr && head !in l2.repr && v == l1.Contents() + l2.Contents()
    modifies head`next
    ensures Chain(d, all) && |d| == l1.numels + l2.numels + 1 && d[0] == head && el == d[l1.numels]
        && last == d[|d| - 1]
    ensures fresh(all - {head}) && head in all && forall i :: 1 <= i < |d| ==> fresh(d[i])
    ensures forall i :: 1 <= i < |d| ==> d[i].data == v[i - 1]
  {
    ghost var c, cells;
    ghost var v1 := l1.Contents();
    assert In([head], {head});
    el, c, cells := CopyOnto(head, l1, [head], {head});
    last, d, all := CopyOnto(el, l2, c, cells);
    assert forall i :: 0 <= i < |v1| ==> c[1 + i].data == v1[i];
  }

  /** Closes the chain. */
  method Close(last: Entry, tail: Entry, ghost d: seq<Entry>, ghost all: set<Entry>)
    requires Chain(d, all) && last == d[|d| - 1] && tail !in d
    modifies last`next, tail`prev
    ensures Chain(d + [tail], all + {tail})
  {
    DistinctIsPairwise(d);
    DistinctSnoc(d, tail);
    last.next := tail;
    tail.prev := last;
  }

  /** The chain from sentinel to sentinel. */
  method BuildChain(head: Entry, tail: Entry, l1: List, l2: List, ghost v: seq<Pointer>)
    returns (el: Entry, ghost s: seq<Entry>, ghost cells: set<Entry>)
    requires l1.Valid() && l2.Valid() && v == l1.Contents() + l2.Contents()
    requires head !in l1.repr && head !in l2.repr && head != tail
    modifies head`next, tail`prev
    ensures Chain(s, cells) && |s| == |v| + 2 && s[0] == head && s[|v| + 1] == tail && el == s[old(l1.numels)]
    ensures fresh(cells - {head, tail}) && forall i :: 1 <= i <= |v| ==> s[i].data == v[i - 1]
  {
    var last;
    ghost var d, all;
    el, last, d, all := CopyBoth(head, l1, l2, v);
    Close(last, tail, d, all);
    s, cells := d + [tail], all + {tail};
  }

  /** The finished chain becomes the list. */
  method Adopt(dest: List, n: nat, mid: Entry?, ghost s: seq<Entry>, ghost cells: set<Entry>, ghost v: seq<Pointer>)
    requires Chain(s, cells) && |s| == n + 2 && s[0] == dest.headSentinel && s[n + 1] == dest.tailSentinel
    requires mid == MidOf(s, n) && |v| == n && forall i :: 1 <= i <= n ==> s[i].data == v[i - 1]
    requires dest.spareels == [] && !dest.iterActive
    modifies dest`numels, dest`mid, dest`spine, dest`repr
    ensures dest.Valid() && dest.repr == cells && dest.Contents() == v
  {
    dest.numels, dest.mid, dest.spine, dest.repr := n, mid, s, cells;
    SpinesContents(dest, v);
  }

  lemma SpinesContents(l: List, v: seq<Pointer>)
    requires l.Valid() && |v| == l.numels && forall i :: 1 <= i <= |v| ==> l.spine[i].data == v[i - 1]
    ensures l.Contents() == v
  {
  }

  method Fill(dest: List, l1: List, l2: List)
    requires l1.Valid() && l2.Valid() && dest.Valid() && dest.numels == 0 && !dest.iterActive
        && l1.numels + l2.numels > 0
    requires dest.repr !! l1.repr && dest.repr !! l2.repr && dest != l1 && dest != l2 && dest.spareels == []
    modifies dest, dest.repr
    ensures dest.Valid() && fresh(dest.repr - old({dest.headSentinel, dest.tailSentinel})) && !dest.iterActive
    ensures dest.Contents() == old(l1.Contents()) + old(l2.Contents())
  {
    ghost var v := l1.Contents() + l2.Contents();
    var n1, n2 := l1.numels, l2.numels;
    DistinctIsPairwise(dest.spine);
    assert dest.headSentinel == dest.spine[0] && dest.tailSentinel == dest.spine[1];
    var el, s, cells := BuildChain(dest.headSentinel, dest.tailSentinel, l1, l2, v);
    var mid := CorrectMid(el, n1, n2, s, cells);
    Adopt(dest, n1 + n2, mid, s, cells, v);
  }
}

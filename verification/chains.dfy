/** Chains of doubly linked nodes: what linking, unlinking and cutting do to the sequence of nodes and to
    the node in the middle of it. */
module Chains {

  /** A `void *`; the list never looks behind it. */
  type Pointer = nat
  const NULL: Pointer := 0

  const MAX_SPARE_ELEMS := 5

  class Entry {
    var data: Pointer
    var next: Entry?
    var prev: Entry?

    constructor ()
      ensures data == NULL && next == null && prev == null
    {
      data, next, prev := NULL, null, null;
    }
  }

  // ---------------------------------------------------------------- chains of nodes

  ghost predicate In(s: seq<Entry>, repr: set<Entry>) { forall i :: 0 <= i < |s| ==> s[i] in repr }

  /** No node occurs twice. */
  ghost predicate Distinct(s: seq<Entry>) { forall i :: 0 <= i < |s| ==> OnlyAt(s, i) }

  ghost predicate OnlyAt(s: seq<Entry>, i: int)
    requires 0 <= i < |s|
  {
    forall j :: i < j < |s| ==> s[j] != s[i]
  }

  ghost predicate Pairwise(s: seq<Entry>) { forall i, j :: 0 <= i < j < |s| ==> s[i] != s[j] }

  lemma DistinctIsPairwise(s: seq<Entry>)
    ensures Distinct(s) <==> Pairwise(s)
  {
    if Distinct(s) {
      forall i, j | 0 <= i < j < |s| ensures s[i] != s[j] { assert OnlyAt(s, i); }
    }
  }

  lemma DistinctPrefix(s: seq<Entry>)
    requires Distinct(s) && |s| > 0
    ensures var k := |s| - 1; Distinct(s[..k]) && s[k] !in s[..k]
  {
    DistinctIsPairwise(s);
    DistinctIsPairwise(s[..|s| - 1]);
  }

  lemma DistinctPair(a: Entry, b: Entry)
    requires a != b
    ensures Distinct([a, b])
  {
    DistinctIsPairwise([a, b]);
  }

  lemma DistinctSnoc(s: seq<Entry>, e: Entry)
    requires Distinct(s) && e !in s
    ensures Distinct(s + [e])
  {
    DistinctIsPairwise(s);
    DistinctIsPairwise(s + [e]);
  }

  /** The chain and the stock use different nodes, each once. */
  ghost predicate Apart(s: seq<Entry>, spares: seq<Entry>)
  {
    Distinct(s) && Distinct(spares) && forall e :: e in spares ==> e !in s
  }

  /** Neighbours in `s` point at each other. */
  ghost predicate Linked(s: seq<Entry>, repr: set<Entry>)
    requires In(s, repr)
    reads repr
  {
    forall i :: 0 <= i < |s| - 1 ==> s[i].next == s[i + 1] && s[i + 1].prev == s[i]
  }

  /** The data of the nodes of `s`, in order. */
  ghost function Values(s: seq<Entry>, repr: set<Entry>): (v: seq<Pointer>)
    requires In(s, repr)
    reads repr
    ensures |v| == |s| && forall i :: 0 <= i < |s| ==> v[i] == s[i].data
  {
    seq(|s|, i requires 0 <= i < |s| reads repr => s[i].data)
  }

  /** Makes `a` and `b` neighbours. */
  method Join(a: Entry, b: Entry, ghost s: seq<Entry>, ghost i: int, ghost j: int, ghost repr: set<Entry>)
    requires 0 <= i < j < |s| && s[i] == a && s[j] == b && Distinct(s) && In(s, repr) && Linked(s, repr)
    modifies a`next, b`prev
    ensures In(Cut(s, i, j), repr) && Linked(Cut(s, i, j), repr)
  {
    DistinctIsPairwise(s);
    a.next := b;
    b.prev := a;
  }

  /** Puts `lent` between two neighbours. */
  method LinkBetween(prec: Entry, lent: Entry, succ: Entry, ghost s: seq<Entry>, ghost p: int, ghost repr: set<Entry>)
    requires 0 <= p < |s| - 1 && s[p] == prec && s[p + 1] == succ && lent !in s && Distinct(s)
    requires In(s, repr) && Linked(s, repr) && lent in repr
    modifies prec`next, lent`prev, lent`next, succ`prev
    ensures In(Inserted(s, p, lent), repr) && Linked(Inserted(s, p, lent), repr)
  {
    DistinctIsPairwise(s);
    prec.next := lent;
    lent.prev := prec;
    lent.next := succ;
    succ.prev := lent;
  }

  ghost function Inserted(s: seq<Entry>, p: int, e: Entry): seq<Entry>
    requires 0 <= p < |s|
  {
    s[..p + 1] + [e] + s[p + 1..]
  }

  /** `s` without the nodes strictly between positions `i` and `j`. */
  ghost function Cut(s: seq<Entry>, i: int, j: int): seq<Entry>
    requires 0 <= i < j < |s|
  {
    s[..i + 1] + s[j..]
  }

  /** The middle node of a chain with sentinels around `n` nodes. */
  ghost function MidOf(s: seq<Entry>, n: nat): Entry?
    requires |s| == n + 2
  {
    if n == 0 then null else s[(n - 1) / 2 + 1]
  }

  const TWO_32 := 0x1_0000_0000

  /** Where the middle will be, as an index into the list before the range goes; `numels - 1 - numdel` is unsigned. */
  function MidposAfter(numels: nat, posstart: nat, posend: nat): (m: int)
    requires posstart <= posend
  {
    var numdel := posend - posstart + 1;
    var m := (numels - 1 - numdel) % TWO_32 / 2;
    if m < posstart then m else m + numdel
  }

  /** The middle is found right if and only if the range leaves an element. */
  lemma MidposAfterIs(numels: nat, posstart: nat, posend: nat)
    requires posstart <= posend < numels < TWO_32 / 2
    ensures var numdel := posend - posstart + 1;
      var m := MidposAfter(numels, posstart, posend);
      && (numdel < numels <==> m < numels)
      && (numdel < numels ==> var k := (numels - numdel - 1) / 2; m == if k < posstart then k else k + numdel)
  {
  }

  lemma MidAfterRange(s: seq<Entry>, numels: nat, posstart: nat, posend: nat)
    requires posstart <= posend < numels < TWO_32 / 2 && posend - posstart + 1 < numels && |s| == numels + 2
    ensures var m := MidposAfter(numels, posstart, posend);
      0 <= m < numels && s[m + 1] == MidOf(Cut(s, posstart, posend + 2), numels - (posend - posstart + 1))
  {
    MidposAfterIs(numels, posstart, posend);
  }

  /** How many of `n` nodes the stock has room for. */
  function Room(spares: seq<Entry>, n: nat): (k: nat)
    requires |spares| <= MAX_SPARE_ELEMS
    ensures k <= n
  {
    if n <= MAX_SPARE_ELEMS - |spares| then n else MAX_SPARE_ELEMS - |spares|
  }

  /** The stock after `n` nodes of `s` behind position `i` were offered to it. */
  ghost function Restocked(spares: seq<Entry>, s: seq<Entry>, i: nat, n: nat): seq<Entry>
    requires |spares| <= MAX_SPARE_ELEMS && i + 1 + n <= |s|
  {
    spares + s[i + 1..i + 1 + Room(spares, n)]
  }

  /** The nodes of a cut-out stretch may go into the stock. */
  lemma CutStocked(s: seq<Entry>, spares: seq<Entry>, spares': seq<Entry>, i: nat, j: nat, n: nat)
    requires Apart(s, spares) && i < j < |s| && n == j - i - 1
    requires |spares| <= MAX_SPARE_ELEMS && spares' == Restocked(spares, s, i, n)
    ensures Apart(Cut(s, i, j), spares')
  {
    CutApart(s, spares, i, j);
    var more := s[i + 1..i + 1 + Room(spares, n)];
    DistinctIsPairwise(s);
    DistinctIsPairwise(spares);
    DistinctIsPairwise(spares');
    assert forall k :: 0 <= k < |more| ==> more[k] == s[i + 1 + k];
  }

  lemma CutApart(s: seq<Entry>, spares: seq<Entry>, i: int, j: int)
    requires Apart(s, spares) && 0 <= i < j < |s|
    ensures Apart(Cut(s, i, j), spares)
    ensures forall k :: i < k < j ==> s[k] !in Cut(s, i, j) && s[k] !in spares
  {
    var r := Cut(s, i, j);
    DistinctIsPairwise(s);
    DistinctIsPairwise(r);
    assert forall k :: 0 <= k < |r| ==> r[k] == if k <= i then s[k] else s[k + (j - i - 1)];
    assert forall k :: 0 <= k < |s| ==> s[k] in s;
  }

  /** `v` without the first `d`. */
  function RemoveFirst(v: seq<Pointer>, d: Pointer): seq<Pointer>
  {
    if v == [] then [] else if v[0] == d then v[1..] else [v[0]] + RemoveFirst(v[1..], d)
  }

  lemma {:induction false} RemoveFirstIs(v: seq<Pointer>, d: Pointer, pos: nat)
    requires pos < |v| && v[pos] == d && d !in v[..pos]
    ensures RemoveFirst(v, d) == v[..pos] + v[pos + 1..]
  {
    if pos > 0 {
      assert v[0] == v[..pos][0];
      assert v[1..][..pos - 1] == v[..pos][1..];
      RemoveFirstIs(v[1..], d, pos - 1);
    }
  }

  lemma CutValues(s: seq<Entry>, i: nat, j: nat, next: nat, n: nat, was: seq<Pointer>, repr: set<Entry>)
    requires In(s, repr) && |s| == |was| + 2 && i < j < |s| && next == j - 1 && n == |s| - (j - i) - 1
    requires forall k :: 0 <= k < |was| ==> was[k] == s[k + 1].data
    ensures In(Cut(s, i, j), repr) && Values(Cut(s, i, j), repr)[1..n + 1] == was[..i] + was[next..]
  {
    var r := Cut(s, i, j);
    assert forall k :: 0 <= k < |r| ==> r[k] == if k <= i then s[k] else s[k + (j - i - 1)];
    var v, w := Values(r, repr)[1..n + 1], was[..i] + was[next..];
    forall k | 0 <= k < n ensures v[k] == w[k] { assert v[k] == r[k + 1].data; }
  }

  lemma InsertedValues(s: seq<Entry>, pos: nat, e: Entry, was: seq<Pointer>, repr: set<Entry>)
    requires In(s, repr) && e in repr && |s| == |was| + 2 && pos <= |was|
        && forall i :: 0 <= i < |was| ==> was[i] == s[i + 1].data
    ensures In(Inserted(s, pos, e), repr)
    ensures Values(Inserted(s, pos, e), repr)[1..|was| + 2] == was[..pos] + [e.data] + was[pos..]
  {
    var r := Inserted(s, pos, e);
    assert forall k :: 0 <= k < |r| ==> r[k] == if k <= pos then s[k] else if k == pos + 1 then e else s[k - 1];
    var v, w := Values(r, repr)[1..|was| + 2], was[..pos] + [e.data] + was[pos..];
    forall k | 0 <= k < |was| + 1 ensures v[k] == w[k] { assert v[k] == r[k + 1].data; }
  }

  lemma InsertApart(s: seq<Entry>, spares: seq<Entry>, p: int, e: Entry)
    requires Apart(s, spares) && 0 <= p < |s| && e !in s && e !in spares
    ensures Apart(Inserted(s, p, e), spares)
  {
    var r := Inserted(s, p, e);
    DistinctIsPairwise(s);
    DistinctIsPairwise(r);
    assert forall i :: 0 <= i < |r| ==> r[i] == if i <= p then s[i] else if i == p + 1 then e else s[i - 1];
  }
}

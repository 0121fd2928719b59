/** Rearranging a stretch of a sequence, and what it means for it to be sorted by a comparator. */
module Rearrange {
  import opened Chains

  type Order = (Pointer, Pointer) -> int

  /** A comparator: a sign consistent with its reverse, and transitive. */
  ghost predicate Preorder(key: Order) { forall a :: PreorderAt(key, a) }

  ghost predicate PreorderAt(key: Order, a: Pointer)
  {
    && (forall b :: key(a, b) <= 0 <==> key(b, a) >= 0)
    && (forall b, c :: key(a, b) <= 0 && key(b, c) <= 0 ==> key(a, c) <= 0)
  }

  lemma Reversed(key: Order, a: Pointer, b: Pointer)
    requires Preorder(key)
    ensures (key(a, b) <= 0 <==> key(b, a) >= 0) && key(a, a) == 0
  {
    assert PreorderAt(key, a);
  }

  lemma Transitive(key: Order, a: Pointer, b: Pointer, c: Pointer)
    requires Preorder(key) && key(a, b) <= 0 && key(b, c) <= 0
    ensures key(a, c) <= 0
  {
    assert PreorderAt(key, a);
  }

  /** Only `v[a..b]` differs, and only in its order. */
  ghost predicate Rearranged(v: seq<Pointer>, w: seq<Pointer>, a: int, b: int)
    requires 0 <= a <= b <= |v|
  {
    && |w| == |v| && (forall k :: 0 <= k < a || b <= k < |v| ==> w[k] == v[k])
    && multiset(v[a..b]) == multiset(w[a..b])
  }

  ghost predicate Low(v: seq<Pointer>, a: int, b: int, x: Pointer, key: Order)
    requires 0 <= a && b <= |v|
  {
    forall k :: a <= k < b ==> key(v[k], x) <= 0
  }

  ghost predicate High(v: seq<Pointer>, a: int, b: int, x: Pointer, key: Order)
    requires 0 <= a && b <= |v|
  {
    forall k :: a <= k < b ==> key(x, v[k]) <= 0
  }

  /** Nothing in `v[i..b]` comes before `v[k]`. */
  ghost predicate First(v: seq<Pointer>, k: int, i: int, b: int, key: Order)
    requires 0 <= k < |v| && 0 <= i && b <= |v|
  {
    forall j :: i <= j < b ==> key(v[k], v[j]) <= 0
  }

  ghost predicate Sorted(v: seq<Pointer>, a: int, b: int, key: Order)
    requires 0 <= a && b <= |v|
  {
    forall k :: a <= k < b ==> First(v, k, k, b, key)
  }

  lemma RearrangedTwice(u: seq<Pointer>, v: seq<Pointer>, w: seq<Pointer>, a: int, b: int)
    requires 0 <= a <= b <= |u| && Rearranged(u, v, a, b) && Rearranged(v, w, a, b)
    ensures Rearranged(u, w, a, b)
  {
  }

  /** Rearranging part of a stretch rearranges the stretch. */
  lemma RearrangedWider(v: seq<Pointer>, w: seq<Pointer>, a: int, b: int, a': int, b': int)
    requires 0 <= a' <= a <= b <= b' <= |v| && Rearranged(v, w, a, b)
    ensures Rearranged(v, w, a', b')
  {
    assert v[a'..b'] == v[a'..a] + v[a..b] + v[b..b'];
    assert v[a'..a] == w[a'..a] && v[b..b'] == w[b..b'];
    assert w[a'..b'] == w[a'..a] + w[a..b] + w[b..b'];
  }

  function Exchanged(v: seq<Pointer>, i: int, j: int): seq<Pointer>
    requires 0 <= i < |v| && 0 <= j < |v|
  {
    v[i := v[j]][j := v[i]]
  }

  lemma ExchangedEnds(v: seq<Pointer>, i: int, j: int)
    requires 0 <= i < j < |v|
    ensures Rearranged(v, Exchanged(v, i, j), i, j + 1)
  {
    var w, m := Exchanged(v, i, j), v[i + 1..j];
    assert v[i..j + 1] == [v[i]] + m + [v[j]];
    assert w[i + 1..j] == m;
    assert w[i..j + 1] == [w[i]] + m + [w[j]];
  }

  lemma ExchangedIsRearranged(v: seq<Pointer>, i: int, j: int, a: int, b: int)
    requires 0 <= a <= i <= j < b <= |v|
    ensures Rearranged(v, Exchanged(v, i, j), a, b)
  {
    var w := Exchanged(v, i, j);
    if i < j {
      ExchangedEnds(v, i, j);
      RearrangedWider(v, w, i, j + 1, a, b);
    } else {
      assert w == v;
    }
  }

  /** What holds of all of a stretch still holds after it was rearranged. */
  lemma RearrangedLow(v: seq<Pointer>, w: seq<Pointer>, a: int, b: int, x: Pointer, key: Order)
    requires 0 <= a <= b <= |v| && Rearranged(v, w, a, b)
    ensures Low(v, a, b, x, key) ==> Low(w, a, b, x, key)
    ensures High(v, a, b, x, key) ==> High(w, a, b, x, key)
  {
    forall k | a <= k < b ensures exists m :: a <= m < b && v[m] == w[k] {
      assert w[k] in w[a..b];
      assert w[k] in multiset(w[a..b]);
      assert w[k] in v[a..b];
    }
  }

  /** Sorted parts around a pivot make a sorted whole. */
  lemma SortedAround(v: seq<Pointer>, a: int, p: int, b: int, key: Order)
    requires Preorder(key) && 0 <= a <= p < b <= |v|
    requires Sorted(v, a, p, key) && Sorted(v, p + 1, b, key) && Low(v, a, p, v[p], key) && High(v, p + 1, b, v[p], key)
    ensures Sorted(v, a, b, key)
  {
    Reversed(key, v[p], v[p]);
    forall i | a <= i < b ensures First(v, i, i, b, key) {
      forall j | i <= j < b ensures key(v[i], v[j]) <= 0 {
        if i <= p <= j {
          assert key(v[i], v[p]) <= 0 && key(v[p], v[j]) <= 0;
          Transitive(key, v[i], v[p], v[j]);
        } else if j < p {
          assert First(v, i, i, p, key);
        } else {
          assert First(v, i, i, b, key);
        }
      }
    }
  }
}

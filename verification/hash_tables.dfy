/** The two bucketed tables, of SIP sessions by Call-ID and of stream nodes by device, channel and stream.
    Both keep one list per hash value, search it with a seeker, append what is missing, and delete through
    the hash value stored in the node.  What a table stands for is what a search of it finds. */
module HashTables {
  import opened Chains
  import opened SimcList

  /** A node: its key as it reads there, the bucket noted in it when it was made, and whatever else it holds. */
  datatype Node<K, D> = Node(key: K, bucket: nat, data: D)

  /** The seeker with its key: a node of this key. */
  function HasKey<K(==), D>(nodes: map<Pointer, Node<K, D>>, key: K): (Pointer, Pointer) -> bool
  {
    (el: Pointer, indicator: Pointer) => el in nodes && nodes[el].key == key
  }

  class Table<K(==,!new), D> {
    const length: nat
    const hash: K -> nat
    /** Every node ever made, by its address. */
    var nodes: map<Pointer, Node<K, D>>
    /** The contents of the bucket lists. */
    var buckets: seq<seq<Pointer>>
    var nextAddress: Pointer

    ghost predicate Valid()
      reads this
    {
      && length > 0 && |buckets| == length && nextAddress > 0
      && (forall p :: p in nodes ==> 0 < p < nextAddress && nodes[p].bucket < length)
      && (forall b :: 0 <= b < length ==> BucketValid(b))
    }

    /** Listed nodes are in the bucket noted in them, once. */
    ghost predicate BucketValid(b: nat)
      reads this
      requires b < |buckets|
    {
      && (forall p :: p in buckets[b] ==> p in nodes && nodes[p].bucket == b)
      && (forall i, j :: 0 <= i < j < |buckets[b]| ==> buckets[b][i] != buckets[b][j])
    }

    function BucketOf(key: K): (b: nat)
      requires length > 0
      ensures b < length
    {
      hash(key) % length
    }

    /** What a search for `key` finds. */
    function Lookup(key: K): Pointer
      reads this
      requires length > 0 && |buckets| == length
    {
      FirstMatch(buckets[BucketOf(key)], HasKey(nodes, key), NULL)
    }

    predicate Listed(p: Pointer)
      reads this
      requires |buckets| == length
    {
      p in nodes && nodes[p].bucket < length && p in buckets[nodes[p].bucket]
    }

    /** The table is a finite map: a listed node is the one that a search for its key finds. */
    ghost predicate Exact()
      reads this
      requires length > 0 && |buckets| == length
    {
      forall p :: Listed(p) ==> Lookup(nodes[p].key) == p
    }

    constructor (length: nat, hash: K -> nat)
      requires length > 0
      ensures Valid() && Exact() && this.hash == hash && this.length == length && nodes == map[]
      ensures forall k :: Lookup(k) == NULL
    {
      this.length, this.hash := length, hash;
      nodes, nextAddress := map[], 1;
      buckets := seq(length, i => []);
    }

    /** A search finds a node of the key in its bucket, or there is none there. */
    lemma LookupIs(key: K)
      requires Valid()
      ensures var p := Lookup(key);
        if p != NULL then Listed(p) && nodes[p].key == key && nodes[p].bucket == BucketOf(key)
        else forall q :: Listed(q) && nodes[q].bucket == BucketOf(key) ==> nodes[q].key != key
    {
      assert BucketValid(BucketOf(key));
      MatchIs(buckets[BucketOf(key)], HasKey(nodes, key));
    }

    /** The search both lookups and insertions begin with. */
    method Find(key: K) returns (p: Pointer)
      requires Valid()
      ensures p == Lookup(key)
      ensures p != NULL ==> Listed(p) && nodes[p].key == key && nodes[p].bucket == BucketOf(key)
      ensures p == NULL ==> forall q :: Listed(q) && nodes[q].bucket == BucketOf(key) ==> nodes[q].key != key
    {
      p := FirstMatch(buckets[BucketOf(key)], HasKey(nodes, key), NULL);
      LookupIs(key);
    }

    /** The table after a node with key `stored` was put in the bucket of `asked`: searches that found something
        find it still, and of the others only that for `stored`, if it looks in this bucket, finds the new node. */
    ghost predicate Found(k: K, before: Pointer, asked: K, stored: K, p: Pointer)
      reads this
      requires length > 0 && |buckets| == length
    {
      Lookup(k) == if before != NULL then before else if k == stored && BucketOf(k) == BucketOf(asked) then p else NULL
    }

    /** A node is searched for by the key as it reads in the request, `asked`; if there is none, one is made in
        which the key reads as `stored`. */
    method Insert(asked: K, stored: K, data: D) returns (p: Pointer)
      requires Valid()
      modifies this
      ensures Valid() && p in nodes && p != NULL
      ensures old(Lookup(asked)) != NULL ==> p == old(Lookup(asked)) && nodes == old(nodes) && buckets == old(buckets)
      ensures old(Lookup(asked)) == NULL ==>
        && p !in old(nodes) && nodes == old(nodes)[p := Node(stored, BucketOf(asked), data)]
        && (forall q :: Listed(q) <==> q == p || old(Listed(q)))
        && forall k :: Found(k, old(Lookup(k)), asked, stored, p)
    {
      p := Find(asked);
      if p == NULL {
        p := nextAddress;
        label before:
        Append(p, asked, stored, data);
        forall k ensures Found(k, old(Lookup(k)), asked, stored, p) {
          assert old@before(Lookup(k)) == old(Lookup(k)) && Found(k, old@before(Lookup(k)), asked, stored, p);
        }
      } else {
        assert BucketValid(BucketOf(asked));
      }
    }

    method Append(p: Pointer, asked: K, stored: K, data: D)
      requires Valid() && p == nextAddress
      modifies this
      ensures Valid() && nodes == old(nodes)[p := Node(stored, BucketOf(asked), data)]
      ensures forall q :: Listed(q) <==> q == p || old(Listed(q))
      ensures forall k :: Found(k, old(Lookup(k)), asked, stored, p)
    {
      var b := BucketOf(asked);
      assert BucketValid(b);
      assert p !in buckets[b];
      nextAddress := nextAddress + 1;
      nodes := nodes[p := Node(stored, b, data)];
      buckets := buckets[b := buckets[b] + [p]];
      forall c | 0 <= c < length ensures BucketValid(c) { assert old(BucketValid(c)); }
      forall k ensures Found(k, old(Lookup(k)), asked, stored, p) {
        assert old(BucketValid(BucketOf(k)));
        SameMatch(old(buckets)[BucketOf(k)], old(HasKey(nodes, k)), HasKey(nodes, k));
        if BucketOf(k) == b { MatchSnoc(old(buckets)[b], p, HasKey(nodes, k)); }
      }
    }

    /** A table that is a finite map stays one when the key reads the same in the node as in the request. */
    method InsertExact(key: K, data: D) returns (p: Pointer)
      requires Valid() && Exact()
      modifies this
      ensures Valid() && Exact() && Lookup(key) == p && Listed(p) && nodes[p].key == key
      ensures forall k :: k != key ==> Lookup(k) == old(Lookup(k))
    {
      p := Insert(key, key, data);
      if old(Lookup(key)) == NULL {
        forall k ensures Lookup(k) == if k == key then p else old(Lookup(k)) {
          assert Found(k, old(Lookup(k)), key, key, p);
        }
        forall q | Listed(q) ensures Lookup(nodes[q].key) == q { assert q == p || old(Listed(q)); }
      }
      LookupIs(key);
    }

    /** The node is taken out through the bucket stored in it; a node that is not listed leaves the table as it
        is.  In a table that is a finite map its key is then not found, and nothing else changes. */
    method Delete(p: Pointer)
      requires Valid() && p in nodes
      modifies this`buckets
      ensures Valid() && !Listed(p)
      ensures forall k :: k != nodes[p].key ==> Lookup(k) == old(Lookup(k))
      ensures old(Exact()) ==>
        Exact() && Lookup(nodes[p].key) == if old(Listed(p)) then NULL else old(Lookup(nodes[p].key))
    {
      var b := nodes[p].bucket;
      assert BucketValid(b);
      if p in buckets[b] {
        TakeOff(p, b);
      } else {
        RemoveFirstMisses(buckets[b], p);
        buckets := buckets[b := RemoveFirst(buckets[b], p)];
        assert buckets == old(buckets);
      }
    }

    method TakeOff(p: Pointer, b: nat)
      requires Valid() && Listed(p) && nodes[p].bucket == b
      modifies this`buckets
      ensures Valid() && buckets == old(buckets)[b := RemoveFirst(old(buckets)[b], p)] && !Listed(p)
      ensures forall k :: k != nodes[p].key ==> Lookup(k) == old(Lookup(k))
      ensures old(Exact()) ==> Exact() && Lookup(nodes[p].key) == NULL
    {
      var v, key := buckets[b], nodes[p].key;
      assert BucketValid(b);
      RemoveFirstRemoves(v, p);
      buckets := buckets[b := RemoveFirst(v, p)];
      forall c | 0 <= c < length ensures BucketValid(c) { assert old(BucketValid(c)); }
      forall k | k != key ensures Lookup(k) == old(Lookup(k)) { MatchWithout(v, p, HasKey(nodes, k)); }
      if old(Exact()) {
        assert old(Lookup(key)) == p;
        forall q | Listed(q) ensures Lookup(nodes[q].key) == q && nodes[q].key != key {
          assert old(Listed(q)) && old(Lookup(nodes[q].key)) == q;
        }
        LookupIs(key);
      }
    }
  }

  /** The first match, if any, is in the list and matches. */
  lemma {:induction false} MatchIs(v: seq<Pointer>, seeker: (Pointer, Pointer) -> bool)
    requires NULL !in v
    ensures var p := FirstMatch(v, seeker, NULL);
      if p == NULL then forall q :: q in v ==> !seeker(q, NULL) else p in v && seeker(p, NULL)
  {
    if v != [] && !seeker(v[0], NULL) {
      assert v == [v[0]] + v[1..];
      MatchIs(v[1..], seeker);
    }
  }

  /** Only what a seeker says of the list's members matters. */
  lemma {:induction false} SameMatch(v: seq<Pointer>, f: (Pointer, Pointer) -> bool, g: (Pointer, Pointer) -> bool)
    requires forall q :: q in v ==> f(q, NULL) == g(q, NULL)
    ensures FirstMatch(v, f, NULL) == FirstMatch(v, g, NULL)
  {
    if v != [] { SameMatch(v[1..], f, g); }
  }

  lemma {:induction false} MatchSnoc(v: seq<Pointer>, p: Pointer, seeker: (Pointer, Pointer) -> bool)
    requires NULL !in v
    ensures FirstMatch(v + [p], seeker, NULL)
         == if FirstMatch(v, seeker, NULL) != NULL then FirstMatch(v, seeker, NULL)
            else if seeker(p, NULL) then p else NULL
  {
    if v == [] {
      assert v + [p] == [p] && [p][1..] == [];
    } else {
      assert (v + [p])[1..] == v[1..] + [p];
      MatchSnoc(v[1..], p, seeker);
    }
  }

  lemma {:induction false} RemoveFirstRemoves(v: seq<Pointer>, p: Pointer)
    requires forall i, j :: 0 <= i < j < |v| ==> v[i] != v[j]
    ensures var r := RemoveFirst(v, p);
      (forall q :: q in r <==> q in v && q != p) && forall i, j :: 0 <= i < j < |r| ==> r[i] != r[j]
  {
    if v != [] {
      assert v == [v[0]] + v[1..] && v[0] !in v[1..];
      RemoveFirstRemoves(v[1..], p);
    }
  }

  /** Taking off an element that does not match changes no match. */
  lemma {:induction false} MatchWithout(v: seq<Pointer>, p: Pointer, seeker: (Pointer, Pointer) -> bool)
    requires !seeker(p, NULL)
    ensures FirstMatch(RemoveFirst(v, p), seeker, NULL) == FirstMatch(v, seeker, NULL)
  {
    if v != [] && v[0] != p {
      assert ([v[0]] + RemoveFirst(v[1..], p))[1..] == RemoveFirst(v[1..], p);
      MatchWithout(v[1..], p, seeker);
    }
  }
}

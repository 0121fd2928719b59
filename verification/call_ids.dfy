/** Call-IDs as the program keeps them: a field of 32 characters, filled by `strncpy`, which leaves a long
    Call-ID without a terminator, so that comparisons read on into the fields behind it. */
module CallIds {
  import opened Chains
  import opened HashTables

  const NUL: char := '\0'
  const CALL_ID_SIZE := 32

  /** What a C string at the beginning of `s` reads. */
  function CString(s: string): string
  {
    if s == [] || s[0] == NUL then [] else [s[0]] + CString(s[1..])
  }

  predicate NoNul(s: string) { forall i :: 0 <= i < |s| ==> s[i] != NUL }

  /** `strncpy` into a field of `n` characters. */
  function Strncpy(src: string, n: nat): (field: string)
    ensures |field| == n
  {
    if n == 0 then [] else if src == [] then [NUL] + Strncpy([], n - 1) else [src[0]] + Strncpy(src[1..], n - 1)
  }

  /** A Call-ID as it reads in its field, with what is stored behind the field. */
  function Reads(id: string, behind: string): string { CString(Strncpy(id, CALL_ID_SIZE) + behind) }

  lemma {:induction false} CopyReads(id: string, n: nat, behind: string)
    requires NoNul(id)
    ensures CString(Strncpy(id, n) + behind) == if |id| < n then id else id[..n] + CString(behind)
  {
    var s := Strncpy(id, n) + behind;
    if n == 0 {
      assert s == behind && id[..0] + CString(behind) == CString(behind);
    } else if id != [] {
      assert s[0] == id[0] && s[1..] == Strncpy(id[1..], n - 1) + behind;
      CopyReads(id[1..], n - 1, behind);
      FirstAndRest(id, n);
    }
  }

  lemma FirstAndRest(id: string, n: nat)
    requires n > 0 && id != []
    ensures id == [id[0]] + id[1..] && (|id| >= n ==> id[..n] == [id[0]] + id[1..][..n - 1])
  {
  }

  /** A copy of the field is a copy of the Call-ID. */
  lemma {:induction false} CopyOfCopy(id: string, n: nat, tail: string)
    ensures Strncpy(if |id| < n then id else id[..n] + tail, n) == Strncpy(id, n)
  {
    if n > 0 && id != [] {
      if |id| >= n { assert (id[..n] + tail)[1..] == id[1..][..n - 1] + tail; }
      CopyOfCopy(id[1..], n - 1, tail);
    }
  }

  /** A Call-ID reads the same in the request, `asked` being behind its field there, and in the node, where `kept`
      is behind it, if and only if it is shorter than the field or the same is read behind both. */
  lemma ReadsTheSame(id: string, asked: string, kept: string)
    requires NoNul(id)
    ensures Reads(Reads(id, asked), kept) == Reads(id, asked)
       <==> |id| < CALL_ID_SIZE || CString(asked) == CString(kept)
  {
    CopyReads(id, CALL_ID_SIZE, asked);
    CopyReads(id, CALL_ID_SIZE, kept);
    CopyOfCopy(id, CALL_ID_SIZE, CString(asked));
    if |id| >= CALL_ID_SIZE {
      var front := id[..CALL_ID_SIZE];
      assert (front + CString(asked))[CALL_ID_SIZE..] == CString(asked);
      assert (front + CString(kept))[CALL_ID_SIZE..] == CString(kept);
    }
  }

  /** The session of an INVITE, asked for twice: the second request gets the node of the first if and only if there
      was one already, or the Call-ID is shorter than its field, or the same is read behind both fields. */
  method InsertTwice<D>(table: Table<string, D>, id: string, asked: string, kept: string, data: D)
    returns (p: Pointer, q: Pointer)
    requires table.Valid() && NoNul(id)
    modifies table
    ensures table.Valid()
    ensures p == q <==>
      old(table.Lookup(Reads(id, asked))) != NULL || |id| < CALL_ID_SIZE || CString(asked) == CString(kept)
  {
    ReadsTheSame(id, asked, kept);
    var key, stored := Reads(id, asked), Reads(Reads(id, asked), kept);
    p := table.Insert(key, stored, data);
    assert old(table.Lookup(key)) == NULL ==> table.Found(key, NULL, key, stored, p);
    q := table.Insert(key, stored, data);
  }

  /** A 32-character Call-ID, in a request of the user "d" for channel 0, for which there are two nodes. */
  lemma LongCallIdReadsOn()
    ensures var id := seq(CALL_ID_SIZE, i => 'a'); NoNul(id) && Reads(Reads(id, "d\0"), "\0\0\0\0") != Reads(id, "d\0")
  {
    ReadsTheSame(seq(CALL_ID_SIZE, i => 'a'), "d\0", "\0\0\0\0");
    assert CString("d\0") == ['d'] + CString("d\0"[1..]) && CString("\0\0\0\0") == [];
  }
}

/** `sdp_parse` as it runs: a cursor over a copy of the text, tokens kept as positions in the copy, and a
    NUL written behind each token once its line is accepted. */
module SdpParser {
  import opened Bytes
  import opened SdpText
  import opened SdpAnswer
  import opened SdpLines

  /** A token: where it starts and how long it is. */
  datatype Span = Span(pos: nat, len: nat)

  function Positions(ps: seq<Span>): (r: seq<nat>)
    ensures |r| == |ps| && forall k :: 0 <= k < |ps| ==> r[k] == ps[k].pos
  {
    if ps == [] then [] else [ps[0].pos] + Positions(ps[1..])
  }

  class Parser {
    const raw: array<char>
    var offset: nat
    /** What the description structure points at. */
    var recs: seq<Rec<nat>>
    /** The tokens of the line being parsed, and what they read. */
    var pend: seq<Span>
    ghost var words: seq<string>

    ghost const text: string
    /** Where the line being parsed starts. */
    ghost var start: nat
    /** What the records read. */
    ghost var done: seq<Rec<string>>

    /** `w` stands at `p` with a NUL behind it, at or before `limit`. */
    ghost predicate Held(p: nat, w: string, limit: nat)
      reads raw
    {
      && p + |w| <= limit < raw.Length
      && (forall i :: 0 <= i < |w| ==> raw[p + i] == w[i] && w[i] != NUL)
      && raw[p + |w|] == NUL
    }

    ghost predicate RecHeld(r: Rec<nat>, d: Rec<string>, limit: nat)
      reads raw
    {
      && r.kind == d.kind && r.num == d.num && |r.fields| == |d.fields|
      && forall f :: 0 <= f < |r.fields| ==> Held(r.fields[f], d.fields[f], limit)
    }

    ghost predicate AllHeld(rs: seq<Rec<nat>>, ds: seq<Rec<string>>, limit: nat)
      reads raw
    {
      |rs| == |ds| && forall k :: 0 <= k < |rs| ==> RecHeld(rs[k], ds[k], limit)
    }

    /** From `from` on the copy is still the text. */
    ghost predicate Clean(from: nat)
      reads raw
    {
      && raw.Length == |text| + 1 && raw[|text|] == NUL
      && forall i :: from <= i < |text| ==> raw[i] == text[i]
    }

    ghost predicate NoNul() { forall i :: 0 <= i < |text| ==> text[i] != NUL }

    ghost predicate Valid()
      reads this, raw
    {
      start <= offset <= |text| && NoNul() && Clean(start) && AllHeld(recs, done, start)
    }

    ghost function Unread(): string
      reads this
      requires offset <= |text|
    {
      text[offset..]
    }

    // ---------------------------------------------------------------- the token helpers

    /** `sdp_skip_space`. */
    method SkipSpace()
      requires Valid()
      modifies this`offset
      ensures Valid() && Unread() == Skip(old(Unread())) && old(offset) <= offset
      ensures offset < |text| ==> !Blank(text[offset])
    {
      while Blank(raw[offset])
        invariant Valid() && old(offset) <= offset && Skip(Unread()) == Skip(old(Unread()))
        decreases |text| - offset
      {
        assert Unread()[1..] == text[offset + 1..];
        offset := offset + 1;
      }
    }

    /** `sdp_token_word`. */
    method TokenWord(k: Stop) returns (n: nat)
      requires Valid()
      modifies this`offset
      ensures Valid() && offset == old(offset) + n && n == |WordOf(old(Unread()), k)|
      ensures Unread() == RestOf(old(Unread()), k)
      ensures offset < |text| ==> Stops(k, text[offset])
    {
      n := 0;
      ghost var s := Unread();
      while raw[offset] != NUL && !Stops(k, raw[offset])
        invariant Valid() && offset == old(offset) + n && n + |WordOf(Unread(), k)| == |WordOf(s, k)|
        decreases |text| - offset
      {
        assert Unread()[1..] == text[offset + 1..];
        offset := offset + 1;
        n := n + 1;
      }
      assert s[n..] == text[offset..];
    }

    /** `sdp_token_crlf`. */
    method TokenCrlf() returns (ok: bool)
      requires Valid()
      modifies this`offset
      ensures Valid() && ok == Eol(old(Unread())).Some? && (ok ==> Unread() == Eol(old(Unread())).value)
      ensures ok ==> offset > old(offset) || offset == |text|
    {
      if raw[offset] == '\r' {
        assert Unread()[1..] == text[offset + 1..];
        offset := offset + 1;
      }
      if raw[offset] == '\n' {
        assert Unread()[1..] == text[offset + 1..];
        offset := offset + 1;
        return true;
      }
      return raw[offset] == NUL;
    }

    // ---------------------------------------------------------------- the tokens of one line

    /** The tokens lie in the line, one behind the other, and read `ws`. */
    ghost predicate Tokens(ps: seq<Span>, ws: seq<string>, limit: nat)
      reads this
    {
      && |ws| == |ps| && limit <= |text|
      && (forall k :: 0 <= k < |ps| ==> Token(ps[k], ws[k], limit))
      && (forall j, k {:trigger Behind(ps[j], ps[k])} :: 0 <= j < k < |ps| ==> Behind(ps[j], ps[k]))
    }

    ghost predicate Token(p: Span, w: string, limit: nat)
      reads this
    {
      start <= p.pos && p.pos + p.len <= limit <= |text| && text[p.pos..p.pos + p.len] == w
    }

    /** A token that starts where another ends is empty. */
    ghost predicate Behind(a: Span, b: Span)
    {
      a.pos + a.len <= b.pos && (a.pos + a.len == b.pos ==> b.len == 0)
    }

    /** No token ends at `limit` with more text for a token there. */
    ghost predicate Settled(ps: seq<Span>, limit: nat)
      reads this
    {
      limit < |text| && !Stops(AtSpace, text[limit]) ==> forall k :: 0 <= k < |ps| ==> EndsBefore(ps[k], limit)
    }

    ghost predicate EndsAt(p: Span, limit: nat) { p.pos + p.len == limit }

    ghost predicate EndsBefore(p: Span, limit: nat) { p.pos + p.len < limit }

    /** What every method below keeps while a line is being read. */
    ghost predicate InLine()
      reads this, raw
    {
      Valid() && Tokens(pend, words, offset) && Settled(pend, offset)
    }

    /** A further token, which starts at or behind `from`. */
    lemma Placed(ps: seq<Span>, ws: seq<string>, from: nat, p: Span, w: string, limit: nat)
      requires Tokens(ps, ws, from) && from <= p.pos && Token(p, w, limit)
      requires p.pos == from && p.len > 0 ==> forall k :: 0 <= k < |ps| ==> EndsBefore(ps[k], from)
      ensures Tokens(ps + [p], ws + [w], limit)
    {
      var qs := ps + [p];
      forall j, k | 0 <= j < k < |qs| ensures Behind(qs[j], qs[k]) {
        assert Token(ps[j], ws[j], from);
        if k == |ps| && p.pos == from && p.len > 0 { assert EndsBefore(ps[j], from); }
      }
      forall k | 0 <= k < |qs| ensures Token(qs[k], (ws + [w])[k], limit) {
        if k < |ps| { assert Token(ps[k], ws[k], from); }
      }
    }

    /** `s`, the text at `at`, starts with a token of `n` characters, which goes behind the others. */
    method AddToken(at: nat, n: nat, ghost w: string, ghost from: nat)
      requires Valid() && Tokens(pend, words, from) && Settled(pend, from) && from <= at && at + n <= offset
      requires start <= from && w == text[at..at + n]
      requires at == from && n > 0 ==> pend == [] || (from < |text| && !Stops(AtSpace, text[from]))
      modifies this`pend, this`words
      ensures Valid() && pend == old(pend) + [Span(at, n)] && words == old(words) + [w] && Tokens(pend, words, offset)
    {
      Placed(pend, words, from, Span(at, n), w, offset);
      pend := pend + [Span(at, n)];
      words := words + [w];
    }

    /** A token word, and that it is text and does not start with what ends it. */
    method WholeToken(k: Stop) returns (n: nat)
      requires Valid()
      modifies this`offset
      ensures Valid() && offset == old(offset) + n && Unread() == RestOf(old(Unread()), k)
      ensures text[old(offset)..offset] == WordOf(old(Unread()), k)
      ensures offset < |text| ==> Stops(k, text[offset])
      ensures n > 0 ==> old(offset) < |text| && !Stops(k, text[old(offset)])
    {
      ghost var s := Unread();
      WordIs(s, k);
      n := TokenWord(k);
      assert s[..n] == text[old(offset)..offset];
    }

    /** The next blank-separated word. */
    method NextWord()
      requires InLine()
      modifies this`offset, this`pend, this`words
      ensures InLine()
      ensures var s := Skip(old(Unread())); words == old(words) + [WordOf(s, AtSpace)] && Unread() == RestOf(s, AtSpace)
      ensures pend != [] && EndsAt(pend[|pend| - 1], offset)
    {
      ghost var from := offset;
      SkipSpace();
      var p := offset;
      ghost var s := Unread();
      var n := WholeToken(AtSpace);
      AddToken(p, n, WordOf(s, AtSpace), from);
    }

    /** `n` words. */
    method NextWords(n: nat)
      requires InLine() && words == []
      modifies this`offset, this`pend, this`words
      ensures InLine() && words == Words(old(Unread()), n).words && Unread() == Words(old(Unread()), n).rest
      ensures n > 0 ==> pend != [] && EndsAt(pend[|pend| - 1], offset)
    {
      ghost var all := Words(Unread(), n);
      ghost var more := all;
      for i := 0 to n
        invariant InLine() && more == Words(Unread(), n - i) && words + more.words == all.words && more.rest == all.rest
        invariant i > 0 ==> pend != [] && EndsAt(pend[|pend| - 1], offset)
      {
        ghost var was, s := words, Unread();
        NextWord();
        WordsStep(s, n - i);
        more := Words(Unread(), n - i - 1);
        WordsTurn(was, WordOf(Skip(s), AtSpace), more.words);
      }
    }

    lemma WordsStep(s: string, n: nat)
      requires n > 0
      ensures var t := Skip(s); var more := Words(RestOf(t, AtSpace), n - 1);
        Words(s, n) == Split([WordOf(t, AtSpace)] + more.words, more.rest)
    {
    }

    lemma WordsTurn(a: seq<string>, w: string, b: seq<string>)
      ensures a + [w] + b == a + ([w] + b)
    {
    }

    /** `trim_right`. */
    method TrimRight(p: nat, n0: nat) returns (n: nat)
      requires Valid() && start <= p && p + n0 <= |text|
      ensures n <= n0 && text[p..p + n] == Trim(text[p..p + n0])
    {
      n := n0;
      while n > 0 && raw[p + n - 1] == ' '
        invariant n <= n0 && Trim(text[p..p + n]) == Trim(text[p..p + n0])
      {
        assert text[p..p + n][n - 1] == text[p + n - 1] && text[p..p + n][..n - 1] == text[p..p + n - 1];
        n := n - 1;
      }
      assert n > 0 ==> text[p..p + n][n - 1] == text[p + n - 1];
    }

    /** A token from `p` to the cursor, without blanks at its end if `trim`. */
    method AddTrimmed(p: nat, n0: nat, trim: bool, ghost w: string, ghost from: nat)
      requires Valid() && start <= from && Tokens(pend, words, from) && Settled(pend, from) && from <= p
          && p + n0 == offset
      requires w == text[p..p + n0]
      requires p == from && n0 > 0 ==> pend == [] || (from < |text| && !Stops(AtSpace, text[from]))
      modifies this`pend, this`words
      ensures Valid() && words == old(words) + [if trim then Trim(w) else w] && Tokens(pend, words, offset)
    {
      var n := n0;
      if trim { n := TrimRight(p, n0); }
      AddToken(p, n, text[p..p + n], from);
    }

    /** What is left of the line. */
    method NextRest(skip: bool, trim: bool)
      requires InLine() && (!skip ==> pend == [])
      modifies this`offset, this`pend, this`words
      ensures InLine()
      ensures var s := if skip then Skip(old(Unread())) else old(Unread());
        words == old(words) + [if trim then Trim(WordOf(s, AtEol)) else WordOf(s, AtEol)]
            && Unread() == RestOf(s, AtEol)
    {
      ghost var from := offset;
      if skip { SkipSpace(); }
      var p := offset;
      ghost var s := Unread();
      var n := WholeToken(AtEol);
      AddTrimmed(p, n, trim, WordOf(s, AtEol), from);
    }

    /** The name of a `b=`, `k=` or `a=` line, and the colon behind it. */
    method NextName()
      requires InLine() && pend == [] && words == []
      modifies this`offset, this`pend, this`words
      ensures InLine()
      ensures var s := Skip(old(Unread())); var r := RestOf(s, AtColon);
        words == [Trim(WordOf(s, AtColon))] && Unread() == if r != [] && r[0] == ':' then r[1..] else r
    {
      ghost var from := offset;
      SkipSpace();
      var p := offset;
      ghost var s := Unread();
      var n := WholeToken(AtColon);
      AddTrimmed(p, n, true, WordOf(s, AtColon), from);
      SkipColon();
    }

    method SkipColon()
      requires Valid() && Tokens(pend, words, offset) && (offset < |text| ==> Stops(AtColon, text[offset]))
      modifies this`offset
      ensures InLine()
      ensures var r := old(Unread()); Unread() == if r != [] && r[0] == ':' then r[1..] else r
    {
      if raw[offset] == ':' {
        assert Unread()[1..] == text[offset + 1..];
        TokensGrow(pend, words, offset, offset + 1);
        offset := offset + 1;
      }
    }

    lemma TokensGrow(ps: seq<Span>, ws: seq<string>, limit: nat, more: nat)
      requires Tokens(ps, ws, limit) && limit <= more <= |text|
      ensures Tokens(ps, ws, more)
      ensures limit < more ==> forall k :: 0 <= k < |ps| ==> EndsBefore(ps[k], more)
    {
      forall k | 0 <= k < |ps| ensures Token(ps[k], ws[k], more) && (limit < more ==> EndsBefore(ps[k], more)) {
        assert Token(ps[k], ws[k], limit);
      }
    }

    // ---------------------------------------------------------------- accepting the line

    /** `w` still stands at `p`. */
    ghost predicate Stands(p: Span, w: string)
      reads raw
    {
      p.pos + p.len < raw.Length && |w| == p.len && forall i :: 0 <= i < p.len ==> raw[p.pos + i] == w[i]
    }

    ghost predicate Ended(p: Span)
      reads raw
    {
      p.pos + p.len < raw.Length && raw[p.pos + p.len] == NUL
    }

    /** Writes one NUL, behind the tokens of all earlier lines. */
    method WriteNul(e: nat)
      requires start <= e <= |text| && raw.Length == |text| + 1 && AllHeld(recs, done, start)
      modifies raw
      ensures raw[e] == NUL && forall i :: 0 <= i < raw.Length && i != e ==> raw[i] == old(raw[i])
      ensures AllHeld(recs, done, start)
    {
      raw[e] := NUL;
      forall k | 0 <= k < |recs| ensures RecHeld(recs[k], done[k], start) {
        assert old(RecHeld(recs[k], done[k], start));
        forall f | 0 <= f < |recs[k].fields| ensures Held(recs[k].fields[f], done[k].fields[f], start) {
          assert old(Held(recs[k].fields[f], done[k].fields[f], start));
        }
      }
    }

    /** The tokens of the line stand where they were found, the first `m` of them ended. */
    ghost predicate Marked(m: nat, limit: nat)
      reads this, raw
    {
      && raw.Length == |text| + 1 && AllHeld(recs, done, start) && Tokens(pend, words, limit) && m <= |pend|
      && (forall k :: 0 <= k < |pend| ==> Stands(pend[k], words[k]))
      && (forall k :: 0 <= k < m ==> Ended(pend[k]))
      && (forall i :: limit < i < |text| ==> raw[i] == text[i]) && raw[|text|] == NUL
    }

    /** The NUL behind token `m` touches no other token and nothing unread. */
    method MarkOne(m: nat, ghost limit: nat)
      requires Marked(m, limit) && m < |pend|
      modifies raw
      ensures Marked(m + 1, limit)
    {
      ghost var e := pend[m].pos + pend[m].len;
      assert Token(pend[m], words[m], limit);
      WriteNul(pend[m].pos + pend[m].len);
      forall k | 0 <= k < |pend| ensures Stands(pend[k], words[k]) {
        assert old(Stands(pend[k], words[k]));
        if k < m { assert Behind(pend[k], pend[m]); }
        if m < k { assert Behind(pend[m], pend[k]); }
      }
      forall k | 0 <= k < m + 1 ensures Ended(pend[k]) {
        assert k < m ==> old(Ended(pend[k]));
      }
    }

    lemma StandAtFirst(limit: nat)
      requires Valid() && Tokens(pend, words, limit) && start <= limit
      ensures Marked(0, limit)
    {
      forall k | 0 <= k < |pend| ensures Stands(pend[k], words[k]) {
        assert Token(pend[k], words[k], limit);
        var s := text[pend[k].pos..pend[k].pos + pend[k].len];
        assert forall i :: 0 <= i < pend[k].len ==> s[i] == text[pend[k].pos + i];
      }
    }

    /** Writes the NULs of an accepted line and enters its record. */
    method MarkAndRecord(kind: char, num: int, ghost limit: nat)
      requires Valid() && Tokens(pend, words, limit) && start <= limit <= offset
      modifies raw, this`recs, this`done
      ensures AllHeld(recs, done, offset) && done == old(done) + [Rec(kind, words, num)]
      ensures (forall i :: limit < i < |text| ==> raw[i] == text[i]) && raw.Length == |text| + 1 && raw[|text|] == NUL
      ensures forall k :: 0 <= k < |pend| ==> Ended(pend[k])
    {
      StandAtFirst(limit);
      for m := 0 to |pend|
        invariant Marked(m, limit) && start <= limit <= offset <= |text| && done == old(done)
      {
        MarkOne(m, limit);
      }
      NewRecordHeld(Rec(kind, Positions(pend), num), Rec(kind, words, num), limit);
      recs := recs + [Rec(kind, Positions(pend), num)];
      done := done + [Rec(kind, words, num)];
    }

    /** The same, the line's end having been passed: the text behind the cursor is not touched. */
    method Enter(kind: char, num: int, ghost limit: nat)
      requires Valid() && Tokens(pend, words, limit) && start <= limit <= offset && (limit < offset || offset == |text|)
      modifies raw, this`recs, this`done, this`start
      ensures Valid() && start == offset && done == old(done) + [Rec(kind, words, num)]
    {
      MarkAndRecord(kind, num, limit);
      start := offset;
    }

    lemma NewRecordHeld(r: Rec<nat>, d: Rec<string>, limit: nat)
      requires Marked(|pend|, limit) && start <= limit <= offset <= |text| && NoNul()
      requires r.kind == d.kind && r.num == d.num && d.fields == words && |r.fields| == |pend|
      requires forall k :: 0 <= k < |pend| ==> r.fields[k] == pend[k].pos
      ensures AllHeld(recs + [r], done + [d], offset)
    {
      forall f | 0 <= f < |pend| ensures Held(r.fields[f], d.fields[f], offset) {
        assert Stands(pend[f], words[f]) && Ended(pend[f]) && Token(pend[f], words[f], limit);
        assert forall i :: 0 <= i < |words[f]| ==> words[f][i] == text[pend[f].pos + i];
      }
      HeldLater(offset);
    }

    lemma HeldLater(limit: nat)
      requires AllHeld(recs, done, start) && start <= limit < raw.Length
      ensures AllHeld(recs, done, limit)
    {
      forall k | 0 <= k < |recs| ensures RecHeld(recs[k], done[k], limit) {
        assert RecHeld(recs[k], done[k], start);
        forall f | 0 <= f < |recs[k].fields| ensures Held(recs[k].fields[f], done[k].fields[f], limit) {
          assert Held(recs[k].fields[f], done[k].fields[f], start);
        }
      }
    }

    // ---------------------------------------------------------------- the line types

    /** What the line methods promise: the line is taken just when the text says so, with the same fields,
        and the cursor stands where the text goes on. */
    ghost predicate Took(ok: bool, l: Line, before: seq<Rec<string>>)
      reads this, raw
    {
      ok == l.Good? && (ok ==> Valid() && start == offset && done == before + [l.rec] && Unread() == l.rest)
    }

    /** The end of a line type: the line must end here, and `enough` says that its fields are there. */
    method Finish(kind: char, enough: bool) returns (ok: bool)
      requires InLine()
      modifies raw, this`offset, this`recs, this`done, this`start
      ensures Took(ok, SdpText.Ended(kind, words, old(Unread()), enough), old(done))
    {
      ghost var limit := offset;
      ok := TokenCrlf();
      if !ok || !enough { return false; }
      Enter(kind, 0, limit);
    }

    method NoneEmpty() returns (all: bool)
      requires InLine()
      ensures all == AllNonempty(words)
    {
      for k := 0 to |pend|
        invariant forall j :: 0 <= j < k ==> words[j] != []
      {
        assert Token(pend[k], words[k], offset);
        if pend[k].len == 0 { return false; }
      }
      return true;
    }

    ghost predicate Starting()
      reads this, raw
    {
      Valid() && start == offset && pend == [] && words == []
    }

    method ParseOrigin() returns (ok: bool)
      requires Starting()
      modifies this, raw
      ensures Took(ok, OriginLine(old(Unread())), old(done))
    {
      NextWords(6);
      var enough := NoneEmpty();
      ok := Finish('o', enough);
    }

    method ParseConnection() returns (ok: bool)
      requires Starting()
      modifies this, raw
      ensures Took(ok, ConnectionLine(old(Unread())), old(done))
    {
      NextWords(2);
      NextRest(true, true);
      var enough := NoneEmpty();
      ok := Finish('c', enough);
    }

    method ParseTiming() returns (ok: bool)
      requires Starting()
      modifies this, raw
      ensures Took(ok, TimingLine(old(Unread())), old(done))
    {
      NextWords(1);
      NextRest(true, true);
      ok := Finish('t', true);
    }

    /** Session name, information, URI, e-mail and y, and, trimmed, the phone number. */
    method ParseRest(kind: char, trim: bool) returns (ok: bool)
      requires Starting()
      modifies this, raw
      ensures Took(ok, RestLine(kind, old(Unread()), trim), old(done))
    {
      ghost var w := WordOf(Unread(), AtEol);
      NextRest(false, trim);
      assert words == [if trim then Trim(w) else w];
      ok := Finish(kind, true);
    }

    /** Bandwidth, encryption key and attribute. */
    method ParsePair(kind: char) returns (ok: bool)
      requires Starting()
      modifies this, raw
      ensures Took(ok, PairLine(kind, old(Unread())), old(done))
    {
      ghost var t := Skip(Unread());
      NextName();
      ghost var u := Skip(Unread());
      NextRest(true, true);
      assert words == [Trim(WordOf(t, AtColon)), Trim(WordOf(u, AtEol))];
      ok := Finish(kind, true);
    }

    method ParseVersion() returns (ok: bool)
      requires Starting()
      modifies this, raw
      ensures Took(ok, VersionLine(old(Unread())), old(done))
    {
      SkipSpace();
      ghost var s := Unread();
      var v := ReadNumber();
      ghost var limit := offset;
      ok := TokenCrlf();
      if ok { Enter('v', v, limit); }
    }

    method ReadNumber() returns (v: int)
      requires Valid() && start <= offset
      modifies this`offset
      ensures Valid() && old(offset) <= offset && Unread() == old(Unread())[|Digits(old(Unread()))|..]
      ensures v == Number(Digits(old(Unread())), 0)
    {
      v := 0;
      ghost var s, from := Unread(), offset;
      while '0' <= raw[offset] <= '9'
        invariant Valid() && from <= offset && Number(Digits(Unread()), v) == Number(Digits(s), 0)
        invariant |Digits(Unread())| + (offset - from) == |Digits(s)|
        decreases |text| - offset
      {
        assert Unread()[1..] == text[offset + 1..] && Unread()[0] == raw[offset];
        DigitsStep(Unread(), v);
        v := v * 10 + (raw[offset] as int - '0' as int);
        offset := offset + 1;
      }
      assert s[offset - from..] == text[offset..];
    }

    lemma DigitsStep(s: string, v: int)
      requires s != [] && '0' <= s[0] <= '9'
      ensures |Digits(s)| == |Digits(s[1..])| + 1
      ensures Number(Digits(s), v) == Number(Digits(s[1..]), v * 10 + (s[0] as int - '0' as int))
    {
    }

    /** Three words and thirteen formats.  If more follow, the NUL behind the thirteenth stops the parser. */
    method ParseMedia() returns (ok: bool, stopped: bool)
      requires Starting()
      modifies this, raw
      ensures stopped == (MediaLine(old(Unread())).Good? && MediaLine(old(Unread())).last)
      ensures stopped ==> ok && AllHeld(recs, done, offset) && done == old(done) + [MediaLine(old(Unread())).rec]
      ensures stopped ==> offset < raw.Length && raw[offset] == NUL
      ensures !stopped ==> Took(ok, MediaLine(old(Unread())), old(done))
    {
      NextWords(MEDIA_WORDS);
      if Blank(raw[offset]) {
        KeepFormats(true);
        assert EndsAt(pend[3], offset);
        MarkAndRecord('m', 0, offset);
        assert Ended(pend[3]);
        return true, true;
      }
      KeepFormats(pend[15].len > 0);
      ok := Finish('m', true);
      stopped := false;
    }

    method KeepFormats(format: bool)
      requires InLine() && |pend| == MEDIA_WORDS
      modifies this`pend, this`words
      ensures InLine() && words == old(words)[..3] + (if format then [old(words)[15]] else [])
      ensures pend == old(pend)[..3] + (if format then [old(pend)[15]] else [])
    {
      pend, words := pend[..3] + (if format then [pend[15]] else []), words[..3] + (if format then [words[15]] else []);
    }

    // ---------------------------------------------------------------- the loop

    method ParseKnown(c: char) returns (ok: bool, stopped: bool)
      requires Starting() && Known(c)
      modifies this, raw
      ensures stopped == (ParseLine(c, old(Unread())).Good? && ParseLine(c, old(Unread())).last)
      ensures stopped ==> ok && AllHeld(recs, done, offset) && done == old(done) + [ParseLine(c, old(Unread())).rec]
      ensures stopped ==> offset < raw.Length && raw[offset] == NUL
      ensures !stopped ==> Took(ok, ParseLine(c, old(Unread())), old(done))
    {
      if c == 'm' {
        ok, stopped := ParseMedia();
      } else {
        OnlyMediaStops(c, Unread());
        ok := ParsePlain(c);
        stopped := false;
      }
    }

    /** Lines of all other kinds. */
    method ParsePlain(c: char) returns (ok: bool)
      requires Starting() && Known(c) && c != 'm'
      modifies this, raw
      ensures Took(ok, ParseLine(c, old(Unread())), old(done))
    {
      match c {
        case 'v' => ok := ParseVersion();
        case 'o' => ok := ParseOrigin();
        case 'c' => ok := ParseConnection();
        case 't' => ok := ParseTiming();
        case 'p' => ok := ParseRest(c, true);
        case 'b' => ok := ParsePair(c);
        case 'k' => ok := ParsePair(c);
        case 'a' => ok := ParsePair(c);
        case _ => ok := ParseRest(c, false);
      }
    }

    lemma OnlyMediaStops(c: char, s: string)
      requires c != 'm'
      ensures ParseLine(c, s).Good? ==> !ParseLine(c, s).last
    {
    }

    /** How a call ends. */
    static ghost predicate Matches(e: Ending, o: Outcome)
    {
      match o
      case Parsed(_) => e == Done
      case Failed => e == Rejected
      case Overrun => e == OverTheEnd
      case Aborted => e == AssertionFailed
      case NotModelled => e == OutOfScope
    }

    lemma KindsAgree(c: char)
      requires AllHeld(recs, done, start)
      ensures HasKind(recs, c) == HasKind(done, c)
    {
      forall k | 0 <= k < |recs| ensures recs[k].kind == done[k].kind { assert RecHeld(recs[k], done[k], start); }
    }

    /** The type letter and the equals sign. */
    method TakeEquals() returns (ok: bool)
      requires Valid() && start == offset && Unread() != []
      modifies this`offset, this`start
      ensures ok == AfterEquals(old(Unread())).Some?
      ensures ok ==> Valid() && start == offset && Unread() == AfterEquals(old(Unread())).value
    {
      ghost var s := Unread();
      assert s[1..] == text[offset + 1..];
      offset := offset + 1;
      SkipSpace();
      if raw[offset] != '=' { return false; }
      assert Unread()[1..] == text[offset + 1..];
      offset := offset + 1;
      SkipSpace();
      HeldLater(offset);
      start := offset;
      return true;
    }

    /** One turn of the loop of `sdp_parse`. */
    method ParseTurn() returns (end: Option<Ending>)
      requires Valid() && start == offset
      modifies this, raw
      ensures match StepOf(old(Unread()), old(done))
        case Go(rec, rest) => end.None? && Valid() && start == offset && done == old(done) + [rec] && Unread() == rest
        case Stop(o) =>
          end.Some? && Matches(end.value, o) && (o.Parsed? ==> done == o.recs && AllHeld(recs, done, offset))
    {
      if raw[offset] == NUL || raw[offset] == '\r' || raw[offset] == '\n' { return Some(Done); }
      SkipSpace();
      HeldLater(offset);
      start := offset;
      if raw[offset] == NUL {
        return Some(OverTheEnd);
      }
      var c := raw[offset];
      var ok := TakeEquals();
      if !ok { return Some(Rejected); }
      if c == 'r' || c == 'z' { return Some(OutOfScope); }
      KindsAgree('u');
      if !Known(c) || (c == 'u' && HasKind(recs, 'u')) { return Some(AssertionFailed); }
      pend, words := [], [];
      var stopped;
      ok, stopped := ParseKnown(c);
      if !ok { return Some(Rejected); }
      return if stopped then Some(Done) else None;
    }

    /** `sdp_parse` on a C string: the call ends as the reference does, and every pointer of the description
        reads, up to the NUL behind it, what the reference found. */
    method Parse() returns (end: Ending)
      requires Valid() && start == offset && offset == 0 && recs == [] && done == []
      modifies this, raw
      ensures Matches(end, SdpText.Parse(text, []))
      ensures end == Done ==> ReadsAs(recs, SdpText.Parse(text, []).recs)
      ensures end == OverTheEnd <==> Overruns(text)
    {
      assert Unread() == text;
      var e: Option<Ending> := None;
      while e == None
        invariant e == None ==> Valid() && start == offset && SdpText.Parse(Unread(), done) == SdpText.Parse(text, [])
        invariant e.Some? ==> Matches(e.value, SdpText.Parse(text, []))
        invariant e == Some(Done) ==> AllHeld(recs, SdpText.Parse(text, []).recs, offset)
        decreases e == None, if e == None then |Unread()| else 0
      {
        e := ParseTurn();
      }
      end := e.value;
      OverrunsExactly(text);
      if end == Done { HeldReads(recs, SdpText.Parse(text, []).recs, offset); }
    }

    /** The C string at `p`. */
    function StringAt(p: nat): string
      reads raw
      requires p < raw.Length
      decreases raw.Length - p
    {
      if raw[p] == NUL || p + 1 == raw.Length then [] else [raw[p]] + StringAt(p + 1)
    }

    /** The records read as `ds`. */
    ghost predicate ReadsAs(rs: seq<Rec<nat>>, ds: seq<Rec<string>>)
      reads raw
    {
      |rs| == |ds| && forall k :: 0 <= k < |rs| ==> RecReadsAs(rs[k], ds[k])
    }

    ghost predicate RecReadsAs(r: Rec<nat>, d: Rec<string>)
      reads raw
    {
      && r.kind == d.kind && r.num == d.num && |r.fields| == |d.fields|
      && forall f :: 0 <= f < |r.fields| ==> r.fields[f] < raw.Length && StringAt(r.fields[f]) == d.fields[f]
    }

    lemma HeldReads(rs: seq<Rec<nat>>, ds: seq<Rec<string>>, limit: nat)
      requires AllHeld(rs, ds, limit)
      ensures ReadsAs(rs, ds)
    {
      forall k | 0 <= k < |rs| ensures RecReadsAs(rs[k], ds[k]) {
        assert RecHeld(rs[k], ds[k], limit);
        forall f | 0 <= f < |rs[k].fields|
          ensures rs[k].fields[f] < raw.Length && StringAt(rs[k].fields[f]) == ds[k].fields[f]
        {
          assert Held(rs[k].fields[f], ds[k].fields[f], limit);
          HeldReadsOne(rs[k].fields[f], ds[k].fields[f], limit);
        }
      }
    }

    lemma {:induction false} HeldReadsOne(p: nat, w: string, limit: nat)
      requires Held(p, w, limit)
      ensures StringAt(p) == w
      decreases |w|
    {
      if w != [] {
        assert raw[p + 0] == w[0];
        assert forall i :: 0 <= i < |w| - 1 ==> raw[p + 1 + i] == raw[p + (i + 1)] == w[1..][i];
        HeldReadsOne(p + 1, w[1..], limit);
      }
    }

    /** `strdup` of a C string. */
    constructor (s: string)
      requires forall i :: 0 <= i < |s| ==> s[i] != NUL
      ensures Valid() && text == s && fresh(raw) && offset == 0 && start == 0 && recs == [] && done == []
    {
      var copy := new char[|s| + 1](i requires 0 <= i < |s| + 1 => if i < |s| then s[i] else NUL);
      raw, offset, recs, pend := copy, 0, [], [];
      text, words, start, done := s, [], 0, [];
    }
  }

  datatype Ending = Done | Rejected | OverTheEnd | AssertionFailed | OutOfScope

  /** Parsing the printed answer recovers everything printed, through the pointers the parser left. */
  method ReadAnswer(a: Answer) returns (p: Parser, end: Ending)
    requires Printable(a)
    ensures end == Done && p.ReadsAs(p.recs, Records(a))
  {
    AnswerReadsBack(a);
    PrintHasNoNul(a);
    p := new Parser(Print(a));
    end := p.Parse();
  }
}

/** Lines of SDP text: what a line comes to does not depend on what follows it.  From this follow two exact
    conditions: when the parser reads behind the end of its text, and what it keeps of a media line. */
module SdpLines {
  import opened Bytes
  import opened SdpText

  // ---------------------------------------------------------------- text behind a line

  /** Whole lines, at least one. */
  predicate Whole(p: string) { p != [] && p[|p| - 1] == '\n' }

  /** A parsed line when `b` follows the text; a line that stops the parser loses it. */
  function More(l: Line, b: string): Line
  {
    if l.Good? && !l.last then l.(rest := l.rest + b) else l
  }

  /** Nothing or whole lines are left. */
  predicate LeavesWhole(l: Line) { l.Good? && !l.last ==> l.rest == [] || Whole(l.rest) }

  lemma {:induction false} SkipMore(p: string, b: string)
    requires Whole(p)
    ensures Whole(Skip(p)) && Skip(p + b) == Skip(p) + b
  {
    assert (p + b)[0] == p[0] && (p + b)[1..] == p[1..] + b;
    if Blank(p[0]) { SkipMore(p[1..], b); }
  }

  lemma {:induction false} WordMore(p: string, b: string, k: Stop)
    requires Whole(p)
    ensures WordOf(p + b, k) == WordOf(p, k) && RestOf(p + b, k) == RestOf(p, k) + b && Whole(RestOf(p, k))
  {
    assert (p + b)[0] == p[0] && (p + b)[1..] == p[1..] + b;
    if !Stops(k, p[0]) {
      WordMore(p[1..], b, k);
      assert RestOf(p, k) == RestOf(p[1..], k) && RestOf(p + b, k) == RestOf(p[1..] + b, k);
    }
  }

  lemma {:induction false} WordsMore(p: string, b: string, n: nat)
    requires Whole(p)
    ensures var w := Words(p, n); Words(p + b, n) == Split(w.words, w.rest + b) && Whole(w.rest)
    decreases n
  {
    if n > 0 {
      SkipMore(p, b);
      WordMore(Skip(p), b, AtSpace);
      WordsMore(RestOf(Skip(p), AtSpace), b, n - 1);
    }
  }

  lemma EolMore(p: string, b: string)
    requires Whole(p)
    ensures Eol(p).None? ==> Eol(p + b).None?
    ensures Eol(p).Some? ==> Eol(p + b) == Some(Eol(p).value + b) && (Eol(p).value == [] || Whole(Eol(p).value))
  {
    assert (p + b)[0] == p[0] && (p + b)[1..] == p[1..] + b;
    if p[0] == '\r' {
      assert (p[1..] + b)[0] == p[1..][0] && (p[1..] + b)[1..] == p[1..][1..] + b;
    }
  }

  lemma EndedMore(kind: char, fields: seq<string>, p: string, b: string, enough: bool)
    requires Whole(p)
    ensures Ended(kind, fields, p + b, enough) == More(Ended(kind, fields, p, enough), b)
    ensures LeavesWhole(Ended(kind, fields, p, enough))
  {
    EolMore(p, b);
  }

  lemma {:induction false} DigitsMore(p: string, b: string)
    requires Whole(p)
    ensures Digits(p + b) == Digits(p) && |Digits(p)| < |p| && Whole(p[|Digits(p)|..])
    ensures (p + b)[|Digits(p)|..] == p[|Digits(p)|..] + b
  {
    assert (p + b)[0] == p[0] && (p + b)[1..] == p[1..] + b;
    if '0' <= p[0] <= '9' { DigitsMore(p[1..], b); }
  }

  lemma VersionMore(p: string, b: string)
    requires Whole(p)
    ensures VersionLine(p + b) == More(VersionLine(p), b) && LeavesWhole(VersionLine(p))
  {
    SkipMore(p, b);
    DigitsMore(Skip(p), b);
    EolMore(Skip(p)[|Digits(Skip(p))|..], b);
  }

  lemma OriginMore(p: string, b: string)
    requires Whole(p)
    ensures OriginLine(p + b) == More(OriginLine(p), b) && LeavesWhole(OriginLine(p))
  {
    WordsMore(p, b, 6);
    var w := Words(p, 6);
    EndedMore('o', w.words, w.rest, b, AllNonempty(w.words));
  }

  lemma ConnectionMore(p: string, b: string)
    requires Whole(p)
    ensures ConnectionLine(p + b) == More(ConnectionLine(p), b) && LeavesWhole(ConnectionLine(p))
  {
    WordsMore(p, b, 2);
    var w := Words(p, 2);
    SkipMore(w.rest, b);
    var t := Skip(w.rest);
    WordMore(t, b, AtEol);
    var fields := w.words + [Trim(WordOf(t, AtEol))];
    EndedMore('c', fields, RestOf(t, AtEol), b, AllNonempty(fields));
  }

  lemma TimingMore(p: string, b: string)
    requires Whole(p)
    ensures TimingLine(p + b) == More(TimingLine(p), b) && LeavesWhole(TimingLine(p))
  {
    WordsMore(p, b, 1);
    var w := Words(p, 1);
    SkipMore(w.rest, b);
    var t := Skip(w.rest);
    WordMore(t, b, AtEol);
    EndedMore('t', w.words + [Trim(WordOf(t, AtEol))], RestOf(t, AtEol), b, true);
  }

  lemma RestMore(kind: char, p: string, b: string, trim: bool)
    requires Whole(p)
    ensures RestLine(kind, p + b, trim) == More(RestLine(kind, p, trim), b) && LeavesWhole(RestLine(kind, p, trim))
  {
    WordMore(p, b, AtEol);
    var w := WordOf(p, AtEol);
    EndedMore(kind, [if trim then Trim(w) else w], RestOf(p, AtEol), b, true);
  }

  lemma PairMore(kind: char, p: string, b: string)
    requires Whole(p)
    ensures PairLine(kind, p + b) == More(PairLine(kind, p), b) && LeavesWhole(PairLine(kind, p))
  {
    SkipMore(p, b);
    var t := Skip(p);
    WordMore(t, b, AtColon);
    var r := RestOf(t, AtColon);
    assert (r + b)[0] == r[0] && (r + b)[1..] == r[1..] + b;
    var r' := if r[0] == ':' then r[1..] else r;
    SkipMore(r', b);
    var u := Skip(r');
    WordMore(u, b, AtEol);
    EndedMore(kind, [Trim(WordOf(t, AtColon)), Trim(WordOf(u, AtEol))], RestOf(u, AtEol), b, true);
  }

  lemma MediaMore(p: string, b: string)
    requires Whole(p)
    ensures MediaLine(p + b) == More(MediaLine(p), b) && LeavesWhole(MediaLine(p))
  {
    WordsMore(p, b, MEDIA_WORDS);
    MediaOfMore(Words(p, MEDIA_WORDS), b);
  }

  lemma MediaOfMore(w: Split, b: string)
    requires |w.words| == MEDIA_WORDS && Whole(w.rest)
    ensures MediaOf(Split(w.words, w.rest + b)) == More(MediaOf(w), b) && LeavesWhole(MediaOf(w))
  {
    var format := w.words[15];
    EndedMore('m', w.words[..3] + (if format == [] then [] else [format]), w.rest, b, true);
  }

  /** What a line comes to, and that whole lines are left, does not depend on the text behind its end. */
  lemma LineMore(c: char, p: string, b: string)
    requires Whole(p)
    ensures ParseLine(c, p + b) == More(ParseLine(c, p), b) && LeavesWhole(ParseLine(c, p))
  {
    match c
    case 'v' => VersionMore(p, b);
    case 'o' => OriginMore(p, b);
    case 'c' => ConnectionMore(p, b);
    case 't' => TimingMore(p, b);
    case 'b' => PairMore(c, p, b);
    case 'k' => PairMore(c, p, b);
    case 'a' => PairMore(c, p, b);
    case 'm' => MediaMore(p, b);
    case _ => RestMore(c, p, b, c == 'p');
  }

  lemma AfterEqualsMore(t: string, b: string)
    requires Whole(t) && |t| > 1
    ensures AfterEquals(t).None? <==> AfterEquals(t + b).None?
    ensures AfterEquals(t).Some? ==> AfterEquals(t + b) == Some(AfterEquals(t).value + b) && Whole(AfterEquals(t).value)
  {
    assert (t + b)[1..] == t[1..] + b;
    SkipMore(t[1..], b);
    var u := Skip(t[1..]);
    assert (u + b)[0] == u[0] && (u + b)[1..] == u[1..] + b;
    if u[0] == '=' { SkipMore(u[1..], b); }
  }

  /** The step that `r` is on `p` is, on `p + b`, the step `q`: the same one, or both stop inside the text. */
  predicate SameStep(r: Step, q: Step, b: string)
  {
    match r
    case Go(rec, rest) => q == Go(rec, rest + b) && (rest == [] || Whole(rest))
    case Stop(o) => q.Stop? && o != Overrun && q.outcome != Overrun
  }

  lemma TakenMore(l: Line, b: string, recs: seq<Rec<string>>)
    requires LeavesWhole(l)
    ensures SameStep(Taken(l, recs), Taken(More(l, b), recs), b)
  {
  }

  lemma LineStepMore(c: char, after: string, b: string, recs: seq<Rec<string>>)
    requires Whole(after)
    ensures SameStep(LineStep(c, after, recs), LineStep(c, after + b, recs), b)
  {
    LineMore(c, after, b);
    TakenMore(ParseLine(c, after), b, recs);
  }

  lemma StepIs(s: string, recs: seq<Rec<string>>)
    requires s != [] && s[0] != '\r' && s[0] != '\n' && Skip(s) != []
    ensures var t := Skip(s);
      StepOf(s, recs) == if AfterEquals(t).None? then Stop(Failed) else LineStep(t[0], AfterEquals(t).value, recs)
  {
  }

  /** A step on whole lines is the same whatever follows them, or stops without running over the end. */
  lemma StepMore(p: string, b: string, recs: seq<Rec<string>>)
    requires Whole(p)
    ensures SameStep(StepOf(p, recs), StepOf(p + b, recs), b)
  {
    assert (p + b)[0] == p[0];
    SkipMore(p, b);
    var t := Skip(p);
    assert (t + b)[0] == t[0];
    if p[0] != '\r' && p[0] != '\n' {
      StepIs(p, recs);
      StepIs(p + b, recs);
      if |t| == 1 {
        assert t[0] == '\n' && t[1..] == [];
      } else {
        AfterEqualsMore(t, b);
        if AfterEquals(t).Some? { LineStepMore(t[0], AfterEquals(t).value, b, recs); }
      }
    }
  }

  // ---------------------------------------------------------------- the last line

  predicate NoLf(s: string) { forall i :: 0 <= i < |s| ==> s[i] != '\n' }

  predicate AllBlank(s: string) { forall i :: 0 <= i < |s| ==> Blank(s[i]) }

  lemma {:induction false} SkipNoLf(s: string)
    requires NoLf(s)
    ensures NoLf(Skip(s))
  {
    if s != [] && Blank(s[0]) { SkipNoLf(s[1..]); }
  }

  lemma {:induction false} SkipsAll(s: string)
    ensures Skip(s) == [] <==> AllBlank(s)
  {
    if s != [] && Blank(s[0]) { SkipsAll(s[1..]); }
  }

  lemma {:induction false} WordsNoLf(s: string, n: nat)
    requires NoLf(s)
    ensures NoLf(Words(s, n).rest)
    decreases n
  {
    if n > 0 {
      SkipNoLf(s);
      WordsNoLf(RestOf(Skip(s), AtSpace), n - 1);
    }
  }

  /** Behind a line without a newline nothing is left. */
  lemma LineLast(c: char, s: string)
    requires NoLf(s)
    ensures ParseLine(c, s).Good? ==> ParseLine(c, s).rest == []
  {
    match c
    case 'v' => VersionLast(s);
    case 'o' => OriginLast(s);
    case 'c' => ConnectionLast(s);
    case 't' => TimingLast(s);
    case 'm' => MediaLast(s);
    case 'b' => PairLast(c, s);
    case 'k' => PairLast(c, s);
    case 'a' => PairLast(c, s);
    case _ => RestLast(c, s, c == 'p');
  }

  lemma VersionLast(s: string)
    requires NoLf(s)
    ensures VersionLine(s).Good? ==> VersionLine(s).rest == []
  {
    SkipNoLf(s);
  }

  lemma OriginLast(s: string)
    requires NoLf(s)
    ensures OriginLine(s).Good? ==> OriginLine(s).rest == []
  {
    WordsNoLf(s, 6);
  }

  lemma RestLast(c: char, s: string, trim: bool)
    requires NoLf(s)
    ensures RestLine(c, s, trim).Good? ==> RestLine(c, s, trim).rest == []
  {
  }

  lemma ConnectionLast(s: string)
    requires NoLf(s)
    ensures ConnectionLine(s).Good? ==> ConnectionLine(s).rest == []
  {
    WordsNoLf(s, 2);
    SkipNoLf(Words(s, 2).rest);
  }

  lemma TimingLast(s: string)
    requires NoLf(s)
    ensures TimingLine(s).Good? ==> TimingLine(s).rest == []
  {
    WordsNoLf(s, 1);
    SkipNoLf(Words(s, 1).rest);
  }

  lemma MediaLast(s: string)
    requires NoLf(s)
    ensures MediaLine(s).Good? ==> MediaLine(s).rest == []
  {
    WordsNoLf(s, MEDIA_WORDS);
  }

  lemma PairLast(c: char, s: string)
    requires NoLf(s)
    ensures PairLine(c, s).Good? ==> PairLine(c, s).rest == []
  {
    SkipNoLf(s);
    var r := RestOf(Skip(s), AtColon);
    SkipNoLf(if r != [] && r[0] == ':' then r[1..] else r);
  }

  /** A text without a newline makes the parser run over its end if and only if it is blanks and nothing else. */
  lemma LastLine(b: string, recs: seq<Rec<string>>)
    requires NoLf(b)
    ensures Parse(b, recs) == Overrun <==> b != [] && AllBlank(b)
  {
    SkipsAll(b);
    var t := Skip(b);
    if b != [] && t != [] && AfterEquals(t).Some? {
      SkipNoLf(b);
      SkipNoLf(t[1..]);
      SkipNoLf(Skip(t[1..])[1..]);
      LineLast(t[0], AfterEquals(t).value);
    }
  }

  // ---------------------------------------------------------------- running over the end

  /** The parser takes every line of `p` and then has nothing left. */
  predicate TakesAll(p: string, recs: seq<Rec<string>>)
    decreases |p|
  {
    p == [] || (StepOf(p, recs).Go? && TakesAll(StepOf(p, recs).rest, recs + [StepOf(p, recs).rec]))
  }

  /** Where the last line starts. */
  function LineStart(text: string): (n: nat)
    ensures n <= |text| && NoLf(text[n..]) && (n > 0 ==> text[n - 1] == '\n')
    decreases |text|
  {
    if text == [] || text[|text| - 1] == '\n' then |text| else LineStart(text[..|text| - 1])
  }

  /** The last line is not empty and all blanks, and every line before it is taken. */
  predicate Overruns(text: string)
  {
    var n := LineStart(text);
    n < |text| && AllBlank(text[n..]) && TakesAll(text[..n], [])
  }

  lemma {:induction false} OverrunBehind(p: string, b: string, recs: seq<Rec<string>>)
    requires (p == [] || Whole(p)) && NoLf(b)
    ensures Parse(p + b, recs) == Overrun <==> b != [] && AllBlank(b) && TakesAll(p, recs)
    decreases |p|
  {
    if p == [] {
      assert p + b == b;
      LastLine(b, recs);
    } else {
      StepMore(p, b, recs);
      match StepOf(p, recs) {
        case Stop(_) =>
        case Go(rec, rest) => OverrunBehind(rest, b, recs + [rec]);
      }
    }
  }

  /** The parser reads behind the end of its text if and only if the last line is not empty and holds nothing but
      blanks, and every line before it is taken. */
  lemma OverrunsExactly(text: string)
    ensures Parse(text, []) == Overrun <==> Overruns(text)
  {
    var n := LineStart(text);
    assert text == text[..n] + text[n..];
    OverrunBehind(text[..n], text[n..], []);
  }

  // ---------------------------------------------------------------- the formats of a media line

  /** The words of a line. */
  function Tokens(l: string): seq<string>
    decreases |l|
  {
    var t := Skip(l);
    if t == [] || WordOf(t, AtSpace) == [] then [] else [WordOf(t, AtSpace)] + Tokens(RestOf(t, AtSpace))
  }

  /** The first `n` of some words, empty ones behind the last. */
  function Padded(ts: seq<string>, n: nat): (r: seq<string>)
    ensures |r| == n && forall i :: 0 <= i < n ==> r[i] == if i < |ts| then ts[i] else []
    decreases n + |ts|
  {
    if n == 0 then [] else if ts == [] then [[]] + Padded([], n - 1) else [ts[0]] + Padded(ts[1..], n - 1)
  }

  /** What `n` words leave of a line. */
  function Left(l: string, n: nat): string
    decreases n + |l|
  {
    if n == 0 then l else Left(RestOf(Skip(l), AtSpace), n - 1)
  }

  predicate NoEol(l: string) { forall i :: 0 <= i < |l| ==> l[i] != '\r' && l[i] != '\n' }

  predicate AtEnd(e: string) { e == [] || e[0] == '\r' || e[0] == '\n' }

  predicate EndsBlank(s: string) { s != [] && Blank(s[|s| - 1]) }

  lemma {:induction false} SkipInLine(l: string, e: string)
    requires NoEol(l) && AtEnd(e)
    ensures Skip(l + e) == Skip(l) + e && NoEol(Skip(l)) && (Skip(l) != [] ==> EndsBlank(Skip(l)) == EndsBlank(l))
    ensures Skip(l) == [] && l != [] ==> EndsBlank(l)
  {
    if l == [] {
      assert l + e == e;
    } else {
      assert (l + e)[0] == l[0] && (l + e)[1..] == l[1..] + e;
      if Blank(l[0]) { SkipInLine(l[1..], e); }
    }
  }

  lemma {:induction false} WordInLine(l: string, e: string)
    requires NoEol(l) && AtEnd(e)
    ensures WordOf(l + e, AtSpace) == WordOf(l, AtSpace) && RestOf(l + e, AtSpace) == RestOf(l, AtSpace) + e
    ensures NoEol(RestOf(l, AtSpace)) && (RestOf(l, AtSpace) != [] ==> Blank(RestOf(l, AtSpace)[0]))
  {
    if l == [] {
      assert l + e == e;
    } else {
      assert (l + e)[0] == l[0] && (l + e)[1..] == l[1..] + e;
      if !Stops(AtSpace, l[0]) {
        WordInLine(l[1..], e);
        assert RestOf(l, AtSpace) == RestOf(l[1..], AtSpace) && RestOf(l + e, AtSpace) == RestOf(l[1..] + e, AtSpace);
      }
    }
  }

  lemma PaddedFront(ts: seq<string>, n: nat, k: nat)
    requires k <= n
    ensures Padded(ts, n)[..k] == Padded(ts, k) && (k <= |ts| ==> Padded(ts, k) == ts[..k])
  {
  }

  lemma {:induction false} WordsOfLine(l: string, e: string, n: nat)
    requires NoEol(l) && AtEnd(e)
    ensures Words(l + e, n) == Split(Padded(Tokens(l), n), if n == 0 then l + e else Left(l, n) + e)
    decreases n
  {
    if n > 0 {
      var t := Skip(l);
      SkipInLine(l, e);
      WordInLine(t, e);
      SkipStops(l);
      WordsOfLine(RestOf(t, AtSpace), e, n - 1);
      if t == [] { assert Tokens(RestOf(t, AtSpace)) == []; }
    }
  }

  lemma {:induction false} SkipStops(l: string)
    requires NoEol(l)
    ensures Skip(l) != [] ==> WordOf(Skip(l), AtSpace) != []
  {
    if l != [] && Blank(l[0]) { SkipStops(l[1..]); }
  }

  /** A word that reaches the end of the line does not end in a blank. */
  lemma WordReachesEnd(t: string)
    requires NoEol(t) && t != [] && RestOf(t, AtSpace) == []
    ensures !EndsBlank(t)
  {
    WordIs(t, AtSpace);
  }

  /** After `n` words a blank follows if and only if the line has more of them, or just as many and a blank at its
      end; else the line is used up. */
  lemma {:induction false} LeftIs(l: string, n: nat)
    requires NoEol(l) && n > 0
    ensures Left(l, n) == [] <==> !(|Tokens(l)| > n || (|Tokens(l)| == n && EndsBlank(l)))
    ensures Left(l, n) != [] ==> Blank(Left(l, n)[0])
    decreases n
  {
    var t := Skip(l);
    var r := RestOf(t, AtSpace);
    SkipInLine(l, []);
    WordInLine(t, []);
    SkipStops(l);
    if t == [] {
      LeftOfNone(t, n);
    } else if r == [] {
      WordReachesEnd(t);
      LeftOfNone(r, n - 1);
    } else if n > 1 {
      LeftIs(r, n - 1);
    } else {
      SkipInLine(r, []);
      SkipStops(r);
    }
  }

  lemma {:induction false} LeftOfNone(l: string, n: nat)
    requires l == []
    ensures Left(l, n) == [] && Tokens(l) == []
    decreases n
  {
    assert Skip(l) == l && RestOf(l, AtSpace) == l;
    if n > 0 { LeftOfNone(l, n - 1); }
  }

  lemma {:induction false} TokensAreWords(l: string)
    ensures forall i :: 0 <= i < |Tokens(l)| ==> Tokens(l)[i] != []
    decreases |l|
  {
    var t := Skip(l);
    if t != [] && WordOf(t, AtSpace) != [] { TokensAreWords(RestOf(t, AtSpace)); }
  }

  lemma MediaOfLine(w: Split, ts: seq<string>, left: string, e: string)
    requires |w.words| == MEDIA_WORDS && w.rest == left + e && w.words[15] == (if |ts| >= 16 then ts[15] else [])
    requires AtEnd(e) && (|ts| >= 16 ==> ts[15] != [])
    requires if left == [] then |ts| <= 16 else Blank(left[0]) && |ts| >= 16
    ensures MediaOf(w) ==
      if left != [] then Good(Rec('m', w.words[..3] + [ts[15]], 0), [], true)
      else Ended('m', w.words[..3] + (if |ts| == 16 then [ts[15]] else []), e, true)
  {
    if left != [] { assert (left + e)[0] == left[0]; } else { assert left + e == e; }
  }

  /** What is kept of a media line, for every text `s`: three words and, if there are sixteen, the last of them.
      The parsing ends, and all text behind the line is lost, if and only if a blank follows the sixteenth word. */
  lemma FormatsKept(s: string)
    ensures var l, e := WordOf(s, AtEol), RestOf(s, AtEol);
      var ts := Tokens(l);
      MediaLine(s) ==
      if |ts| > 16 || (|ts| == 16 && EndsBlank(l)) then Good(Rec('m', ts[..3] + [ts[15]], 0), [], true)
      else Ended('m', Padded(ts, 3) + (if |ts| == 16 then [ts[15]] else []), e, true)
  {
    var l, e := WordOf(s, AtEol), RestOf(s, AtEol);
    WordIs(s, AtEol);
    assert s == l + e;
    WordsOfLine(l, e, MEDIA_WORDS);
    LeftIs(l, MEDIA_WORDS);
    TokensAreWords(l);
    PaddedFront(Tokens(l), MEDIA_WORDS, 3);
    MediaOfLine(Words(s, MEDIA_WORDS), Tokens(l), Left(l, MEDIA_WORDS), e);
  }
}

/** What each kind of SDP line gives, said on its characters: whatever was read before and whatever follows. */
module SdpKinds {
  import opened Bytes
  import opened SdpText
  import opened SdpLines
  import opened SdpAnswer

  predicate AllSpaces(s: string) { forall i :: 0 <= i < |s| ==> s[i] == ' ' }

  predicate NoEol(s: string) { forall i :: 0 <= i < |s| ==> s[i] != '\r' && s[i] != '\n' }

  /** Neither blanks in front nor spaces behind. */
  predicate Bare(s: string) { s == [] || (s[0] != ' ' && s[0] != '\t' && s[|s| - 1] != ' ') }

  // ---------------------------------------------------------------- blanks

  lemma {:induction false} SkipBlanks(b: string, s: string)
    requires AllBlank(b) && (s == [] || !Blank(s[0]))
    ensures Skip(b + s) == s
  {
    if b == [] {
      assert b + s == s;
    } else {
      assert (b + s)[1..] == b[1..] + s;
      SkipBlanks(b[1..], s);
    }
  }

  lemma {:induction false} TrimSpaces(w: string, sp: string)
    requires AllSpaces(sp) && (w == [] || w[|w| - 1] != ' ')
    ensures Trim(w + sp) == w
    decreases |sp|
  {
    if sp == [] {
      assert w + sp == w;
    } else {
      assert (w + sp)[..|w + sp| - 1] == w + sp[..|sp| - 1];
      TrimSpaces(w, sp[..|sp| - 1]);
    }
  }

  /** The text behind the equals sign. */
  lemma Behind(kind: char, blanks: string, t: string)
    requires AllBlank(blanks) && !Blank(kind) && (t == [] || !Blank(t[0]))
    ensures var s := [kind, '='] + (blanks + t); s[0] == kind && Skip(s) == s && AfterEquals(s) == Some(t)
  {
    var s := [kind, '='] + (blanks + t);
    assert s[1..][0] == '=' && s[1..][1..] == blanks + t && Skip(s[1..]) == s[1..];
    SkipBlanks(blanks, t);
  }

  /** A line that is taken. */
  lemma LineTaken(kind: char, blanks: string, t: string, rest: string, fields: seq<string>, num: int,
      recs: seq<Rec<string>>)
    requires Known(kind) && AllBlank(blanks) && (t == [] || !Blank(t[0])) && (kind == 'u' ==> !HasKind(recs, 'u'))
    requires ParseLine(kind, t) == Good(Rec(kind, fields, num), rest, false)
    ensures Parse([kind, '='] + (blanks + t), recs) == Parse(rest, recs + [Rec(kind, fields, num)])
  {
    var s := [kind, '='] + (blanks + t);
    StepIs(kind, blanks, t, recs);
    LineGoes(kind, t, rest, Rec(kind, fields, num), recs);
    assert Parse(s, recs) == Parse(rest, recs + [Rec(kind, fields, num)]);
  }

  lemma StepIs(kind: char, blanks: string, t: string, recs: seq<Rec<string>>)
    requires Known(kind) && AllBlank(blanks) && (t == [] || !Blank(t[0]))
    ensures StepOf([kind, '='] + (blanks + t), recs) == LineStep(kind, t, recs)
  {
    Behind(kind, blanks, t);
  }

  lemma LineGoes(kind: char, t: string, rest: string, rec: Rec<string>, recs: seq<Rec<string>>)
    requires Known(kind) && (kind == 'u' ==> !HasKind(recs, 'u')) && ParseLine(kind, t) == Good(rec, rest, false)
    ensures LineStep(kind, t, recs) == Go(rec, rest)
  {
  }

  // ---------------------------------------------------------------- lines that are one text

  lemma UpToEol(body: string, rest: string)
    requires NoEol(body)
    ensures WordOf(body + (CRLF + rest), AtEol) == body && RestOf(body + (CRLF + rest), AtEol) == CRLF + rest
    ensures Eol(CRLF + rest) == Some(rest)
  {
    EndOfLine(rest);
    WordStops(body, CRLF + rest, AtEol);
  }

  lemma FrontOf(body: string, r: string)
    requires (body == [] || !Blank(body[0])) && EndsLine(r)
    ensures !Blank((body + r)[0])
  {
    if body == [] { assert (body + r)[0] == '\r'; } else { assert (body + r)[0] == body[0]; }
  }

  /** A text at the end of a line, with spaces behind it. */
  lemma TextAtEnd(text: string, spaces: string, rest: string)
    requires NoEol(text) && Bare(text) && AllSpaces(spaces) && (text == [] ==> spaces == [])
    ensures var t := text + (spaces + (CRLF + rest));
      && t != [] && !Blank(t[0]) && Trim(WordOf(t, AtEol)) == text && RestOf(t, AtEol) == CRLF + rest
      && Eol(CRLF + rest) == Some(rest)
  {
    var t := text + (spaces + (CRLF + rest));
    assert t == text + spaces + (CRLF + rest);
    assert t[0] == if text == [] then '\r' else text[0];
    UpToEol(text + spaces, rest);
    TrimSpaces(text, spaces);
  }

  /** The session name, the information, the URI, the e-mail address and the y line are kept whole. */
  lemma OneTextKept(kind: char, blanks: string, body: string, rest: string, recs: seq<Rec<string>>)
    requires kind in {'s', 'i', 'u', 'e', 'y'} && (kind == 'u' ==> forall r <- recs :: r.kind != 'u')
    requires AllBlank(blanks) && NoEol(body) && (body == [] || !Blank(body[0]))
    ensures Parse([kind, '='] + (blanks + (body + ("\r\n" + rest))), recs) == Parse(rest, recs + [Rec(kind, [body], 0)])
  {
    UpToEol(body, rest);
    var t := body + (CRLF + rest);
    EndOfLine(rest);
    FrontOf(body, CRLF + rest);
    LineTaken(kind, blanks, t, rest, [body], 0, recs);
  }

  /** The phone number loses the spaces behind it. */
  lemma PhoneKept(blanks: string, body: string, spaces: string, rest: string, recs: seq<Rec<string>>)
    requires AllBlank(blanks) && NoEol(body) && Bare(body) && AllSpaces(spaces) && (body == [] ==> spaces == [])
    ensures Parse(['p', '='] + (blanks + (body + (spaces + ("\r\n" + rest)))), recs)
         == Parse(rest, recs + [Rec('p', [body], 0)])
  {
    TextAtEnd(body, spaces, rest);
    LineTaken('p', blanks, body + (spaces + (CRLF + rest)), rest, [body], 0, recs);
  }

  // ---------------------------------------------------------------- names and values

  predicate NoColon(s: string) { forall i :: 0 <= i < |s| ==> s[i] != ':' }

  /** A name, up to what ends it. */
  lemma NameAtFront(name: string, spaces: string, r: string)
    requires NoEol(name) && NoColon(name) && Bare(name) && AllSpaces(spaces) && (name == [] ==> spaces == [])
    requires r != [] && Stops(AtColon, r[0])
    ensures var t := name + (spaces + r);
      t != [] && !Blank(t[0]) && Trim(WordOf(t, AtColon)) == name && RestOf(t, AtColon) == r
  {
    var t := name + (spaces + r);
    assert t == name + spaces + r;
    assert t[0] == if name == [] then r[0] else name[0];
    WordStops(name + spaces, r, AtColon);
    TrimSpaces(name, spaces);
  }

  /** Bandwidths, keys and attributes are split at the first colon; the name loses the spaces behind it, the value
      those around it. */
  lemma PairKept(kind: char, before: string, name: string, spaces: string, blanks: string, value: string, more: string,
      rest: string, recs: seq<Rec<string>>)
    requires kind in {'b', 'k', 'a'} && AllBlank(before)
    requires NoEol(name) && NoColon(name) && Bare(name) && AllSpaces(spaces) && (name == [] ==> spaces == [])
    requires AllBlank(blanks) && NoEol(value) && Bare(value) && AllSpaces(more) && (value == [] ==> more == [])
    ensures var pair := name + (spaces + (":" + (blanks + (value + (more + ("\r\n" + rest))))));
      Parse([kind, '='] + (before + pair), recs) == Parse(rest, recs + [Rec(kind, [name, value], 0)])
  {
    var u := value + (more + (CRLF + rest));
    var r := ":" + (blanks + u);
    assert r[0] == ':' && r[1..] == blanks + u;
    NameAtFront(name, spaces, r);
    TextAtEnd(value, more, rest);
    SkipBlanks(blanks, u);
    PairIs(kind, name + (spaces + r), r, u, name, value, rest);
    LineTaken(kind, before, name + (spaces + r), rest, [name, value], 0, recs);
  }

  /** Without a colon there is only a name. */
  lemma NameKept(kind: char, before: string, name: string, spaces: string, rest: string, recs: seq<Rec<string>>)
    requires kind in {'b', 'k', 'a'} && AllBlank(before)
    requires NoEol(name) && NoColon(name) && Bare(name) && AllSpaces(spaces) && (name == [] ==> spaces == [])
    ensures Parse([kind, '='] + (before + (name + (spaces + ("\r\n" + rest)))), recs)
         == Parse(rest, recs + [Rec(kind, [name, ""], 0)])
  {
    var r, none := CRLF + rest, name[..0];
    NameAtFront(name, spaces, r);
    NothingAtEnd(none, rest);
    PairIs(kind, name + (spaces + r), r, r, name, none, rest);
    LineTaken(kind, before, name + (spaces + r), rest, [name, none], 0, recs);
  }

  lemma NothingAtEnd(none: string, rest: string)
    requires none == []
    ensures var t := CRLF + rest;
      t[0] == '\r' && Skip(t) == t && Trim(WordOf(t, AtEol)) == none && Eol(RestOf(t, AtEol)) == Some(rest)
  {
    UpToEol(none, rest);
    assert none + (CRLF + rest) == CRLF + rest;
  }

  lemma PairIs(kind: char, t: string, r: string, u: string, name: string, value: string, rest: string)
    requires t != [] && !Blank(t[0]) && Trim(WordOf(t, AtColon)) == name && RestOf(t, AtColon) == r
    requires u == Skip(if r != [] && r[0] == ':' then r[1..] else r)
    requires Trim(WordOf(u, AtEol)) == value && Eol(RestOf(u, AtEol)) == Some(rest)
    ensures PairLine(kind, t) == Good(Rec(kind, [name, value], 0), rest, false)
  {
    assert Skip(t) == t;
  }

  // ---------------------------------------------------------------- words and a last text

  /** Two words and, of the rest of the line, the text without what is around it. */
  lemma ConnectionKept(before: string, a: string, b: string, blanks: string, text: string, spaces: string, rest: string,
      recs: seq<Rec<string>>)
    requires AllBlank(before) && Token(a) && Token(b) && AllBlank(blanks) && blanks != []
    requires NoEol(text) && Bare(text) && text != [] && AllSpaces(spaces)
    ensures var words := a + (" " + (b + (blanks + (text + (spaces + ("\r\n" + rest))))));
      Parse(['c', '='] + (before + words), recs) == Parse(rest, recs + [Rec('c', [a, b, text], 0)])
  {
    var last := text + (spaces + (CRLF + rest));
    TextAtEnd(text, spaces, rest);
    SkipBlanks(blanks, last);
    TwoWords(a, b, blanks + last);
    assert !Stops(AtSpace, a[0]);
    LineTaken('c', before, a + (" " + (b + (blanks + last))), rest, [a, b, text], 0, recs);
  }

  lemma TwoWords(a: string, b: string, r: string)
    requires Token(a) && Token(b) && r != [] && Stops(AtSpace, r[0])
    ensures Words(a + (" " + (b + r)), 2) == Split([a, b], r)
  {
    OneWord(a, " " + (b + r), 2);
    SkipOne(b + r, 1);
    OneWord(b, r, 1);
  }

  lemma FirstWord(a: string, r: string)
    requires Token(a) && r != [] && Stops(AtSpace, r[0])
    ensures Words(a + r, 1) == Split([a], r) && !Blank((a + r)[0])
  {
    OneWord(a, r, 1);
    assert !Stops(AtSpace, a[0]);
  }

  lemma TimingIs(a: string, t: string, r: string, last: string, text: string, rest: string)
    requires Words(t, 1) == Split([a], r) && Skip(r) == last
    requires Trim(WordOf(last, AtEol)) == text && Eol(RestOf(last, AtEol)) == Some(rest)
    ensures TimingLine(t) == Good(Rec('t', [a, text], 0), rest, false)
  {
  }

  /** One word and the text behind it. */
  lemma TimingKept(before: string, a: string, blanks: string, text: string, spaces: string, rest: string,
      recs: seq<Rec<string>>)
    requires AllBlank(before) && Token(a) && AllBlank(blanks) && blanks != []
    requires NoEol(text) && Bare(text) && AllSpaces(spaces) && (text == [] ==> spaces == [])
    ensures Parse(['t', '='] + (before + (a + (blanks + (text + (spaces + ("\r\n" + rest)))))), recs)
         == Parse(rest, recs + [Rec('t', [a, text], 0)])
  {
    var last := text + (spaces + (CRLF + rest));
    TextAtEnd(text, spaces, rest);
    SkipBlanks(blanks, last);
    FirstWord(a, blanks + last);
    TimingIs(a, a + (blanks + last), blanks + last, last, text, rest);
    LineTaken('t', before, a + (blanks + last), rest, [a, text], 0, recs);
  }

  // ---------------------------------------------------------------- the version

  /** A number in decimal. */
  function Decimal(n: nat): string
  {
    if n < 10 then [('0' as int + n) as char] else Decimal(n / 10) + [('0' as int + n % 10) as char]
  }

  predicate AllDigits(s: string) { forall i :: 0 <= i < |s| ==> '0' <= s[i] <= '9' }

  lemma {:induction false} NumberSnoc(s: string, d: char, n: int)
    ensures Number(s + [d], n) == 10 * Number(s, n) + (d as int - '0' as int)
    decreases |s|
  {
    if s == [] {
      assert s + [d] == [d] && [d][1..] == [];
      assert Number([], n * 10 + (d as int - '0' as int)) == n * 10 + (d as int - '0' as int);
    } else {
      assert (s + [d])[1..] == s[1..] + [d];
      NumberSnoc(s[1..], d, n * 10 + (s[0] as int - '0' as int));
    }
  }

  lemma {:induction false} DecimalReads(n: nat)
    ensures AllDigits(Decimal(n)) && Decimal(n) != [] && Number(Decimal(n), 0) == n
  {
    var d := ('0' as int + n % 10) as char;
    if n < 10 {
      assert [d][1..] == [] && Number([], n) == n;
    } else {
      DecimalReads(n / 10);
      NumberSnoc(Decimal(n / 10), d, 0);
    }
  }

  lemma {:induction false} DigitsStop(s: string, r: string)
    requires AllDigits(s) && (r == [] || !('0' <= r[0] <= '9'))
    ensures Digits(s + r) == s
  {
    if s == [] {
      assert s + r == r;
    } else {
      assert (s + r)[1..] == s[1..] + r;
      DigitsStop(s[1..], r);
    }
  }

  /** The version is the number written. */
  lemma VersionKept(before: string, n: nat, rest: string, recs: seq<Rec<string>>)
    requires AllBlank(before)
    ensures Parse(['v', '='] + (before + (Decimal(n) + ("\r\n" + rest))), recs) == Parse(rest, recs + [Rec('v', [], n)])
  {
    var ds := Decimal(n);
    DecimalReads(n);
    EndOfLine(rest);
    DigitsStop(ds, CRLF + rest);
    var t := ds + (CRLF + rest);
    assert t[0] == ds[0] && Skip(t) == t && t[|ds|..] == CRLF + rest;
    LineTaken('v', before, t, rest, [], n, recs);
  }

  // ---------------------------------------------------------------- where no line begins

  /** An empty line ends the description; a letter without an equals sign, or a bad line, rejects it; an unknown
      letter, or a second URI, stops the program. */
  lemma OtherLines(c: char, s: string, recs: seq<Rec<string>>)
    ensures s == [] || s[0] in {'\r', '\n'} ==> Parse(s, recs) == Parsed(recs)
    ensures !Blank(c) && c !in {'\r', '\n'} && (s == [] || (!Blank(s[0]) && s[0] != '='))
        ==> Parse([c] + s, recs) == Failed
    ensures c !in {'v', 'o', 's', 'i', 'u', 'e', 'p', 'c', 'b', 't', 'r', 'z', 'k', 'a', 'm', 'y'}
          && c !in {' ', '\t', '\r', '\n'}
        ==> Parse([c, '='] + s, recs) == Aborted
    ensures (exists r <- recs :: r.kind == 'u') ==> Parse(['u', '='] + s, recs) == Aborted
  {
    assert ([c] + s)[0] == c && ([c] + s)[1..] == s;
    assert ([c, '='] + s)[1..][0] == '=' && ([c, '='] + s)[0] == c;
    assert (['u', '='] + s)[1..][0] == '=' && (['u', '='] + s)[0] == 'u';
  }
}

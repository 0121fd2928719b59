/** SDP as `sdp_parse` reads it, stated on text: what each line type takes, what makes it fail, and where
    the text goes on.  The end of the text stands for the terminating NUL. */
module SdpText {
  import opened Bytes

  const NUL: char := '\0'

  predicate Blank(c: char) { c == ' ' || c == '\t' }

  /** The three sets of characters a token ends at. */
  datatype Stop = AtSpace | AtColon | AtEol

  predicate Stops(k: Stop, c: char)
  {
    c == '\r' || c == '\n' || (k == AtSpace && Blank(c)) || (k == AtColon && c == ':')
  }

  function Skip(s: string): (r: string)
    ensures |r| <= |s|
  {
    if s != [] && Blank(s[0]) then Skip(s[1..]) else s
  }

  /** The characters up to the first that ends a token. */
  function WordOf(s: string, k: Stop): (w: string)
    ensures |w| <= |s|
  {
    if s == [] || Stops(k, s[0]) then [] else [s[0]] + WordOf(s[1..], k)
  }

  /** A word is what comes before the first character that ends it. */
  lemma {:induction false} WordIs(s: string, k: Stop)
    ensures var w := WordOf(s, k);
      w == s[..|w|] && (|w| < |s| ==> Stops(k, s[|w|])) && forall i :: 0 <= i < |w| ==> !Stops(k, w[i])
  {
    if s != [] && !Stops(k, s[0]) { WordIs(s[1..], k); }
  }

  function RestOf(s: string, k: Stop): (r: string)
    ensures |r| <= |s|
  {
    s[|WordOf(s, k)|..]
  }

  /** The line end, or the end of the text. */
  function Eol(s: string): (r: Option<string>)
    ensures r.Some? ==> |r.value| <= |s|
  {
    var t := if s != [] && s[0] == '\r' then s[1..] else s;
    if t == [] then Some([]) else if t[0] == '\n' then Some(t[1..]) else None
  }

  /** Without blanks at the end; tabs stay. */
  function Trim(w: string): (r: string)
    ensures |r| <= |w|
  {
    if w != [] && w[|w| - 1] == ' ' then Trim(w[..|w| - 1]) else w
  }

  /** `n` blank-separated words and what follows them. */
  datatype Split = Split(words: seq<string>, rest: string)

  function Words(s: string, n: nat): (r: Split)
    ensures |r.words| == n && |r.rest| <= |s|
    decreases n + |s|
  {
    if n == 0 then Split([], s)
    else
      var t := Skip(s);
      var more := Words(RestOf(t, AtSpace), n - 1);
      Split([WordOf(t, AtSpace)] + more.words, more.rest)
  }

  /** One line's worth of fields, as positions or as text; `num` is the version. */
  datatype Rec<T> = Rec(kind: char, fields: seq<T>, num: int)

  datatype Line = Good(rec: Rec<string>, rest: string, last: bool) | Bad

  predicate AllNonempty(ws: seq<string>) { forall i :: 0 <= i < |ws| ==> ws[i] != [] }

  /** The line is taken if it ends where it should. */
  function Ended(kind: char, fields: seq<string>, s: string, enough: bool): (l: Line)
    ensures l.Good? ==> |l.rest| <= |s|
  {
    if Eol(s).Some? && enough then Good(Rec(kind, fields, 0), Eol(s).value, false) else Bad
  }

  function Digits(s: string): (r: string)
    ensures |r| <= |s|
  {
    if s != [] && '0' <= s[0] <= '9' then [s[0]] + Digits(s[1..]) else []
  }

  function Number(ds: string, n: int): int
  {
    if ds == [] then n else Number(ds[1..], n * 10 + (ds[0] as int - '0' as int))
  }

  function VersionLine(s: string): (l: Line)
    ensures l.Good? ==> |l.rest| <= |s|
  {
    var t := Skip(s);
    var ds := Digits(t);
    var e := Eol(t[|ds|..]);
    if e.Some? then Good(Rec('v', [], Number(ds, 0)), e.value, false) else Bad
  }

  function OriginLine(s: string): Line
  {
    var w := Words(s, 6);
    Ended('o', w.words, w.rest, AllNonempty(w.words))
  }

  function ConnectionLine(s: string): Line
  {
    var w := Words(s, 2);
    var t := Skip(w.rest);
    var fields := w.words + [Trim(WordOf(t, AtEol))];
    Ended('c', fields, RestOf(t, AtEol), AllNonempty(fields))
  }

  function TimingLine(s: string): Line
  {
    var w := Words(s, 1);
    var t := Skip(w.rest);
    Ended('t', w.words + [Trim(WordOf(t, AtEol))], RestOf(t, AtEol), true)
  }

  function RestLine(kind: char, s: string, trim: bool): Line
  {
    var w := WordOf(s, AtEol);
    Ended(kind, [if trim then Trim(w) else w], RestOf(s, AtEol), true)
  }

  /** `b=`, `k=` and `a=`: a name, perhaps a colon, a value. */
  function PairLine(kind: char, s: string): Line
  {
    var t := Skip(s);
    var r := RestOf(t, AtColon);
    var u := Skip(if r != [] && r[0] == ':' then r[1..] else r);
    Ended(kind, [Trim(WordOf(t, AtColon)), Trim(WordOf(u, AtEol))], RestOf(u, AtEol), true)
  }

  /** Three words and thirteen formats, of which only the thirteenth is kept.  If more follow, a NUL is
      written where the cursor stands, and the text ends there for the parser. */
  function MediaLine(s: string): Line { MediaOf(Words(s, MEDIA_WORDS)) }

  const MEDIA_WORDS: nat := 16

  function MediaOf(w: Split): (l: Line)
    requires |w.words| == MEDIA_WORDS
    ensures l.Good? ==> |l.rest| <= |w.rest|
  {
    var format := w.words[15];
    if w.rest != [] && Blank(w.rest[0]) then Good(Rec('m', w.words[..3] + [format], 0), [], true)
    else Ended('m', w.words[..3] + (if format == [] then [] else [format]), w.rest, true)
  }

  /** A line of kind `c` whose text is `s`. */
  function ParseLine(c: char, s: string): Line
  {
    match c
    case 'v' => VersionLine(s)
    case 'o' => OriginLine(s)
    case 'c' => ConnectionLine(s)
    case 't' => TimingLine(s)
    case 's' => RestLine(c, s, false)
    case 'i' => RestLine(c, s, false)
    case 'u' => RestLine(c, s, false)
    case 'e' => RestLine(c, s, false)
    case 'y' => RestLine(c, s, false)
    case 'p' => RestLine(c, s, true)
    case 'b' => PairLine(c, s)
    case 'k' => PairLine(c, s)
    case 'a' => PairLine(c, s)
    case 'm' => MediaLine(s)
    case _ => Bad
  }

  /** `Overrun`: the parser reads behind the terminator.  `Aborted`: an assertion stops the program. */
  datatype Outcome = Parsed(recs: seq<Rec<string>>) | Failed | Overrun | Aborted | NotModelled

  predicate Known(c: char)
  {
    c == 'v' || c == 'o' || c == 's' || c == 'i' || c == 'u' || c == 'e' || c == 'p' || c == 'c' || c == 'b' || c == 't'
    || c == 'k' || c == 'a' || c == 'm' || c == 'y'
  }

  predicate HasKind<T>(recs: seq<Rec<T>>, c: char) { exists i :: 0 <= i < |recs| && recs[i].kind == c }

  /** The text behind the type letter and the equals sign, if they are there. */
  function AfterEquals(s: string): (r: Option<string>)
    requires s != []
    ensures r.Some? ==> |r.value| < |s|
  {
    var t := Skip(s[1..]);
    if t != [] && t[0] == '=' then Some(Skip(t[1..])) else None
  }

  lemma LineShrinks(c: char, s: string)
    ensures var l := ParseLine(c, s); l.Good? ==> |l.rest| <= |s|
  {
  }

  /** What comes of the line in front. */
  datatype Step = Stop(outcome: Outcome) | Go(rec: Rec<string>, rest: string)

  function StepOf(s: string, recs: seq<Rec<string>>): (r: Step)
    ensures r.Go? ==> |r.rest| < |s|
  {
    if s == [] || s[0] == '\r' || s[0] == '\n' then Stop(Parsed(recs))
    else
      var t := Skip(s);
      if t == [] then Stop(Overrun)
      else
        var c, after := t[0], AfterEquals(t);
        if after.None? then Stop(Failed) else LineStep(c, after.value, recs)
  }

  /** What a type letter and the text behind the equals sign come to. */
  function LineStep(c: char, after: string, recs: seq<Rec<string>>): (r: Step)
    ensures r.Go? ==> |r.rest| <= |after|
  {
    if c == 'r' || c == 'z' then Stop(NotModelled)
    else if !Known(c) || (c == 'u' && HasKind(recs, 'u')) then Stop(Aborted)
    else
      LineShrinks(c, after);
      Taken(ParseLine(c, after), recs)
  }

  function Taken(l: Line, recs: seq<Rec<string>>): (r: Step)
    ensures r.Go? ==> l.Good? && r.rest == l.rest
  {
    if l.Bad? then Stop(Failed) else if l.last then Stop(Parsed(recs + [l.rec])) else Go(l.rec, l.rest)
  }

  function Parse(s: string, recs: seq<Rec<string>>): Outcome
    decreases |s|
  {
    match StepOf(s, recs)
    case Stop(outcome) => outcome
    case Go(rec, rest) => Parse(rest, recs + [rec])
  }
}

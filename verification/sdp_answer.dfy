/** The SDP answer to an INVITE, and that reading it back gives what was printed. */
module SdpAnswer {
  import opened Bytes
  import opened SdpText

  /** What the answer tells: the numbers as they are printed. */
  datatype Answer = Answer(user: string, pushIp: string, localIp: string, port: string, mode: string, y: string)

  /** A non-empty word without blanks, line ends or NULs. */
  predicate Token(w: string)
  {
    w != [] && forall i :: 0 <= i < |w| ==> !Stops(AtSpace, w[i]) && w[i] != NUL
  }

  predicate Printable(a: Answer)
  {
    Token(a.user) && Token(a.pushIp) && Token(a.localIp) && Token(a.port) && Token(a.mode) && Token(a.y)
  }

  const CRLF := "\r\n"

  /** One line in front of what follows it. */
  function Line(kind: char, body: string, rest: string): string { [kind, '='] + (body + (CRLF + rest)) }

  /** Words with single blanks between them. */
  function Spaced(ws: seq<string>): string
    requires ws != []
  {
    if |ws| == 1 then ws[0] else ws[0] + (" " + Spaced(ws[1..]))
  }

  /** The media part of the answer. */
  function PrintMedia(a: Answer): string
  {
    Line('m', Spaced(["video", a.port, "RTP/AVP", "96"]),
    Line('a', "streamMode" + ":" + a.mode,
    Line('a', "sendonly",
    Line('a', "rtpmap" + ":" + "96 PS/90000",
    Line('y', a.y,
    CRLF)))))
  }

  /** The text of the answer. */
  function Print(a: Answer): string
  {
    Line('v', "0",
    Line('o', Spaced([a.user, "0", "0", "IN", "IP4", a.pushIp]),
    Line('s', "Play",
    Line('c', Spaced(["IN", "IP4", a.localIp]),
    Line('t', Spaced(["0", "0"]),
    PrintMedia(a))))))
  }

  /** The records a reader of the answer ends up with. */
  function Records(a: Answer): seq<Rec<string>>
  {
    [Rec('v', [], 0), Rec('o', [a.user, "0", "0", "IN", "IP4", a.pushIp], 0), Rec('s', ["Play"], 0),
     Rec('c', ["IN", "IP4", a.localIp], 0), Rec('t', ["0", "0"], 0), Rec('m', ["video", a.port, "RTP/AVP"], 0),
     Rec('a', ["streamMode", a.mode], 0), Rec('a', ["sendonly", ""], 0), Rec('a', ["rtpmap", "96 PS/90000"], 0),
     Rec('y', [a.y], 0)]
  }

  // ---------------------------------------------------------------- tokens

  /** A word ends where a character that ends it, or the text, comes. */
  lemma {:induction false} WordStops(w: string, r: string, k: Stop)
    requires (forall i :: 0 <= i < |w| ==> !Stops(k, w[i])) && (r == [] || Stops(k, r[0]))
    ensures WordOf(w + r, k) == w && RestOf(w + r, k) == r
  {
    if w == [] {
      assert w + r == r;
    } else {
      assert (w + r)[0] == w[0] && (w + r)[1..] == w[1..] + r;
      WordStops(w[1..], r, k);
      assert RestOf(w + r, k) == r;
    }
  }

  predicate EndsLine(s: string) { s != [] && s[0] == '\r' }

  lemma TrimKeeps(w: string)
    requires w == [] || w[|w| - 1] != ' '
    ensures Trim(w) == w
  {
  }

  /** At the line's end every further word is empty. */
  lemma {:induction false} NoMoreWords(s: string, n: nat)
    requires EndsLine(s)
    ensures Words(s, n).rest == s && forall i :: 0 <= i < n ==> Words(s, n).words[i] == []
    decreases n
  {
    if n > 0 {
      assert Skip(s) == s && WordOf(s, AtSpace) == [] && RestOf(s, AtSpace) == s;
      NoMoreWords(s, n - 1);
    }
  }

  /** The first word is taken off. */
  lemma OneWord(w: string, r: string, n: nat)
    requires Token(w) && n > 0 && (r == [] || Stops(AtSpace, r[0]))
    ensures var more := Words(r, n - 1); Words(w + r, n) == Split([w] + more.words, more.rest)
  {
    WordStops(w, r, AtSpace);
    assert (w + r)[0] == w[0] && !Stops(AtSpace, w[0]);
    assert Skip(w + r) == w + r;
  }

  lemma SkipOne(u: string, n: nat)
    requires n > 0
    ensures Words(" " + u, n) == Words(u, n)
  {
    assert (" " + u)[1..] == u;
    assert Skip(" " + u) == Skip(u);
  }

  lemma SpacedSplits(ws: seq<string>, s: string)
    requires |ws| > 1
    ensures Spaced(ws) + s == ws[0] + (" " + (Spaced(ws[1..]) + s))
  {
  }

  /** `r` holds the words of `ws`, and empty ones behind them. */
  ghost predicate Holds(r: seq<string>, ws: seq<string>, n: nat)
  {
    |r| == n && |ws| <= n && (forall i :: 0 <= i < |ws| ==> r[i] == ws[i]) && forall i :: |ws| <= i < n ==> r[i] == []
  }

  lemma HoldsCons(w: string, r: seq<string>, ws: seq<string>, n: nat)
    requires Holds(r, ws, n)
    ensures Holds([w] + r, [w] + ws, n + 1)
  {
    assert forall i :: 0 < i < n + 1 ==> ([w] + r)[i] == r[i - 1];
  }

  /** The words of a spaced line, and empty ones after its end. */
  lemma {:induction false} SpacedWords(ws: seq<string>, s: string, n: nat)
    requires ws != [] && |ws| <= n && EndsLine(s) && forall i :: 0 <= i < |ws| ==> Token(ws[i])
    ensures var r := Words(Spaced(ws) + s, n); r.rest == s && Holds(r.words, ws, n)
    decreases n
  {
    assert ws == [ws[0]] + ws[1..];
    if |ws| == 1 {
      OneWord(ws[0], s, n);
      NoMoreWords(s, n - 1);
      HoldsCons(ws[0], Words(s, n - 1).words, [], n - 1);
    } else {
      var u := Spaced(ws[1..]) + s;
      SpacedSplits(ws, s);
      OneWord(ws[0], " " + u, n);
      SkipOne(u, n - 1);
      SpacedWords(ws[1..], s, n - 1);
      HoldsCons(ws[0], Words(u, n - 1).words, ws[1..], n - 1);
    }
  }

  /** The first `n` words of a longer spaced line. */
  lemma {:induction false} FirstWords(ws: seq<string>, s: string, n: nat)
    requires 0 < n < |ws| && forall i :: 0 <= i < |ws| ==> Token(ws[i])
    ensures Words(Spaced(ws) + s, n) == Split(ws[..n], " " + (Spaced(ws[n..]) + s))
    decreases n
  {
    var u := Spaced(ws[1..]) + s;
    SpacedSplits(ws, s);
    OneWord(ws[0], " " + u, n);
    if n > 1 {
      SkipOne(u, n - 1);
      FirstWords(ws[1..], s, n - 1);
      assert [ws[0]] + ws[1..][..n - 1] == ws[..n] && ws[1..][n - 1..] == ws[n..];
    } else {
      assert Words(" " + u, 0) == Split([], " " + u);
      assert [ws[0]] + [] == ws[..1];
    }
  }

  // ---------------------------------------------------------------- one line

  /** Whatever has been read before, parsing `s` reads `lines` and comes to parsing `t`. */
  ghost predicate Leads(s: string, t: string, lines: seq<Rec<string>>)
  {
    forall recs :: LeadsAfter(recs, s, t, lines)
  }

  predicate LeadsAfter(recs: seq<Rec<string>>, s: string, t: string, lines: seq<Rec<string>>)
  {
    Parse(s, recs) == Parse(t, recs + lines)
  }

  lemma LeadsOn(s: string, t: string, x: seq<Rec<string>>, u: string, y: seq<Rec<string>>)
    requires Leads(s, t, x) && Leads(t, u, y)
    ensures Leads(s, u, x + y)
  {
    forall recs ensures LeadsAfter(recs, s, u, x + y) {
      assert LeadsAfter(recs, s, t, x) && LeadsAfter(recs + x, t, u, y);
      assert recs + x + y == recs + (x + y);
    }
  }

  lemma LeadsEnds(s: string, t: string, lines: seq<Rec<string>>)
    requires Leads(s, t, lines)
    ensures Parse(s, []) == Parse(t, lines)
  {
    assert LeadsAfter([], s, t, lines);
    assert [] + lines == lines;
  }

  lemma LineBody(kind: char, body: string, rest: string)
    requires Known(kind) && body != [] && !Blank(body[0])
    ensures var s := Line(kind, body, rest);
      s != [] && s[0] == kind && Skip(s) == s && AfterEquals(s) == Some(body + (CRLF + rest))
  {
    var s := Line(kind, body, rest);
    var t := body + (CRLF + rest);
    assert s[0] == kind && s[1] == '=' && s[1..][0] == '=' && s[1..][1..] == t && t[0] == body[0];
    assert Skip(s) == s && Skip(s[1..]) == s[1..] && Skip(t) == t;
  }

  /** A line of a known kind is parsed and the rest follows. */
  lemma LineParses(kind: char, body: string, rest: string, fields: seq<string>)
    requires Known(kind) && kind != 'u' && body != [] && !Blank(body[0])
    requires ParseLine(kind, body + (CRLF + rest)) == Good(Rec(kind, fields, 0), rest, false)
    ensures Leads(Line(kind, body, rest), rest, [Rec(kind, fields, 0)])
  {
    LineBody(kind, body, rest);
    forall recs ensures LeadsAfter(recs, Line(kind, body, rest), rest, [Rec(kind, fields, 0)]) {
      assert StepOf(Line(kind, body, rest), recs) == Go(Rec(kind, fields, 0), rest);
    }
  }

  lemma EndOfLine(rest: string)
    ensures EndsLine(CRLF + rest) && Eol(CRLF + rest) == Some(rest)
  {
    var s := CRLF + rest;
    assert s[1..][0] == '\n' && s[1..][1..] == rest;
  }

  lemma OriginParses(ws: seq<string>, rest: string)
    requires |ws| == 6 && forall i :: 0 <= i < 6 ==> Token(ws[i])
    ensures OriginLine(Spaced(ws) + (CRLF + rest)) == Good(Rec('o', ws, 0), rest, false)
  {
    EndOfLine(rest);
    SpacedWords(ws, CRLF + rest, 6);
    assert Words(Spaced(ws) + (CRLF + rest), 6).words == ws;
  }

  /** The last field of a line, with its blanks trimmed. */
  lemma LastField(w: string, rest: string)
    requires Token(w)
    ensures Skip(" " + (w + (CRLF + rest))) == w + (CRLF + rest)
    ensures WordOf(w + (CRLF + rest), AtEol) == w && RestOf(w + (CRLF + rest), AtEol) == CRLF + rest && Trim(w) == w
  {
    var s := w + (CRLF + rest);
    assert s[0] == w[0] && (" " + s)[1..] == s;
    WordStops(w, CRLF + rest, AtEol);
    TrimKeeps(w);
  }

  lemma ConnectionParses(ws: seq<string>, rest: string)
    requires |ws| == 3 && forall i :: 0 <= i < 3 ==> Token(ws[i])
    ensures ConnectionLine(Spaced(ws) + (CRLF + rest)) == Good(Rec('c', ws, 0), rest, false)
  {
    EndOfLine(rest);
    FirstWords(ws, CRLF + rest, 2);
    assert Spaced(ws[2..]) == ws[2];
    LastField(ws[2], rest);
    assert ws[..2] + [ws[2]] == ws;
  }

  lemma TimingParses(ws: seq<string>, rest: string)
    requires |ws| == 2 && Token(ws[0]) && Token(ws[1])
    ensures TimingLine(Spaced(ws) + (CRLF + rest)) == Good(Rec('t', ws, 0), rest, false)
  {
    EndOfLine(rest);
    FirstWords(ws, CRLF + rest, 1);
    assert Spaced(ws[1..]) == ws[1];
    LastField(ws[1], rest);
    assert ws[..1] + [ws[1]] == ws;
  }

  lemma MediaWords(w: Split, ws: seq<string>, rest: string)
    requires |w.words| == MEDIA_WORDS && 3 <= |ws| <= 15 && w.rest == CRLF + rest
    requires Holds(w.words, ws, MEDIA_WORDS)
    ensures MediaOf(w) == Good(Rec('m', ws[..3], 0), rest, false)
  {
    EndOfLine(rest);
    assert w.words[..3] == ws[..3] && ws[..3] + [] == ws[..3];
  }

  lemma MediaParses(ws: seq<string>, rest: string)
    requires 3 <= |ws| <= 15 && forall i :: 0 <= i < |ws| ==> Token(ws[i])
    ensures MediaLine(Spaced(ws) + (CRLF + rest)) == Good(Rec('m', ws[..3], 0), rest, false)
  {
    SpacedWords(ws, CRLF + rest, MEDIA_WORDS);
    MediaWords(Words(Spaced(ws) + (CRLF + rest), MEDIA_WORDS), ws, rest);
  }

  lemma RestParses(kind: char, w: string, rest: string)
    requires Token(w)
    ensures RestLine(kind, w + (CRLF + rest), false) == Good(Rec(kind, [w], 0), rest, false)
  {
    EndOfLine(rest);
    WordStops(w, CRLF + rest, AtEol);
  }

  predicate Name(w: string) { w != [] && forall i :: 0 <= i < |w| ==> !Stops(AtColon, w[i]) && !Blank(w[i]) }

  predicate Value(w: string)
  {
    w != [] && !Blank(w[0]) && w[|w| - 1] != ' ' && forall i :: 0 <= i < |w| ==> !Stops(AtEol, w[i])
  }

  lemma NamedValueParses(name: string, value: string, rest: string)
    requires Name(name) && Value(value)
    ensures PairLine('a', name + ":" + value + (CRLF + rest)) == Good(Rec('a', [name, value], 0), rest, false)
  {
    var s, u := name + ":" + value + (CRLF + rest), value + (CRLF + rest);
    assert s == name + (":" + u) && s[0] == name[0] && (":" + u)[1..] == u && u[0] == value[0];
    WordStops(name, ":" + u, AtColon);
    WordStops(value, CRLF + rest, AtEol);
    TrimKeeps(name);
    TrimKeeps(value);
    EndOfLine(rest);
  }

  lemma FlagParses(name: string, rest: string)
    requires Name(name)
    ensures PairLine('a', name + (CRLF + rest)) == Good(Rec('a', [name, ""], 0), rest, false)
  {
    var s, u := name + (CRLF + rest), CRLF + rest;
    assert s[0] == name[0] && u[0] == '\r';
    WordStops(name, u, AtColon);
    WordStops("", u, AtEol);
    assert "" + u == u;
    TrimKeeps(name);
    EndOfLine(rest);
  }

  // ---------------------------------------------------------------- the whole answer

  lemma AttributeLeads(name: string, value: string, rest: string)
    requires Name(name) && Value(value)
    ensures Leads(Line('a', name + ":" + value, rest), rest, [Rec('a', [name, value], 0)])
  {
    NamedValueParses(name, value, rest);
    LineParses('a', name + ":" + value, rest, [name, value]);
  }

  lemma FlagLeads(name: string, rest: string)
    requires Name(name)
    ensures Leads(Line('a', name, rest), rest, [Rec('a', [name, ""], 0)])
  {
    FlagParses(name, rest);
    LineParses('a', name, rest, [name, ""]);
  }

  lemma SpacedStart(ws: seq<string>)
    requires ws != [] && Token(ws[0])
    ensures Spaced(ws) != [] && !Blank(Spaced(ws)[0])
  {
    assert Spaced(ws)[0] == ws[0][0];
    assert !Stops(AtSpace, ws[0][0]);
  }

  lemma VersionLeads(rest: string)
    ensures Leads(Line('v', "0", rest), rest, [Rec('v', [], 0)])
  {
    var s := "0" + (CRLF + rest);
    EndOfLine(rest);
    assert s[0] == '0' && s[1..] == CRLF + rest && Digits(CRLF + rest) == [];
    assert Digits(s) == ['0'] + [] == "0";
    assert Number("0", 0) == Number([], 0);
    LineParses('v', "0", rest, []);
  }

  lemma OriginLeads(ws: seq<string>, rest: string)
    requires |ws| == 6 && forall i :: 0 <= i < 6 ==> Token(ws[i])
    ensures Leads(Line('o', Spaced(ws), rest), rest, [Rec('o', ws, 0)])
  {
    OriginParses(ws, rest);
    SpacedStart(ws);
    LineParses('o', Spaced(ws), rest, ws);
  }

  lemma ConnectionLeads(ws: seq<string>, rest: string)
    requires |ws| == 3 && forall i :: 0 <= i < 3 ==> Token(ws[i])
    ensures Leads(Line('c', Spaced(ws), rest), rest, [Rec('c', ws, 0)])
  {
    ConnectionParses(ws, rest);
    SpacedStart(ws);
    LineParses('c', Spaced(ws), rest, ws);
  }

  lemma TimingLeads(ws: seq<string>, rest: string)
    requires |ws| == 2 && Token(ws[0]) && Token(ws[1])
    ensures Leads(Line('t', Spaced(ws), rest), rest, [Rec('t', ws, 0)])
  {
    TimingParses(ws, rest);
    SpacedStart(ws);
    LineParses('t', Spaced(ws), rest, ws);
  }

  lemma MediaLeads(ws: seq<string>, rest: string)
    requires 3 <= |ws| <= 15 && forall i :: 0 <= i < |ws| ==> Token(ws[i])
    ensures Leads(Line('m', Spaced(ws), rest), rest, [Rec('m', ws[..3], 0)])
  {
    MediaParses(ws, rest);
    SpacedStart(ws);
    BodyLeads('m', Spaced(ws), rest, ws[..3], MediaLine(Spaced(ws) + (CRLF + rest)));
  }

  lemma BodyLeads(kind: char, body: string, rest: string, fields: seq<string>, l: Line)
    requires kind == 'm' && body != [] && !Blank(body[0])
    requires l == MediaLine(body + (CRLF + rest)) && l == Good(Rec(kind, fields, 0), rest, false)
    ensures Leads(Line(kind, body, rest), rest, [Rec(kind, fields, 0)])
  {
    LineParses(kind, body, rest, fields);
  }

  lemma RestLeads(kind: char, w: string, rest: string)
    requires (kind == 's' || kind == 'y') && Token(w)
    ensures Leads(Line(kind, w, rest), rest, [Rec(kind, [w], 0)])
  {
    RestParses(kind, w, rest);
    assert !Stops(AtSpace, w[0]);
    LineParses(kind, w, rest, [w]);
  }

  lemma TokenIsValue(w: string)
    requires Token(w)
    ensures Value(w)
  {
    assert !Stops(AtSpace, w[0]) && !Stops(AtSpace, w[|w| - 1]);
  }

  lemma HeadLeads(a: Answer, rest: string)
    requires Printable(a)
    ensures Leads(Line('v', "0", Line('o', Spaced([a.user, "0", "0", "IN", "IP4", a.pushIp]), Line('s', "Play", rest))),
                  rest, Records(a)[..3])
  {
    var ws := [a.user, "0", "0", "IN", "IP4", a.pushIp];
    var v, o, s := [Rec('v', [], 0)], [Rec('o', ws, 0)], [Rec('s', ["Play"], 0)];
    var ps := Line('s', "Play", rest);
    var po := Line('o', Spaced(ws), ps);
    var pv := Line('v', "0", po);
    VersionLeads(po);
    OriginLeads(ws, ps);
    RestLeads('s', "Play", rest);
    LeadsOn(pv, po, v, ps, o);
    LeadsOn(pv, ps, v + o, rest, s);
    assert v + o + s == Records(a)[..3];
  }

  lemma ConnectionTimingLeads(a: Answer, rest: string)
    requires Printable(a)
    ensures Leads(Line('c', Spaced(["IN", "IP4", a.localIp]), Line('t', Spaced(["0", "0"]), rest)), rest,
        Records(a)[3..5])
  {
    var ws, ts := ["IN", "IP4", a.localIp], ["0", "0"];
    var pt := Line('t', Spaced(ts), rest);
    ConnectionLeads(ws, pt);
    TimingLeads(ts, rest);
    LeadsOn(Line('c', Spaced(ws), pt), pt, [Rec('c', ws, 0)], rest, [Rec('t', ts, 0)]);
    assert [Rec('c', ws, 0)] + [Rec('t', ts, 0)] == Records(a)[3..5];
  }

  lemma AttributesLead(a: Answer, rest: string)
    requires Printable(a)
    ensures Leads(Line('a', "streamMode" + ":" + a.mode,
        Line('a', "sendonly", Line('a', "rtpmap" + ":" + "96 PS/90000", rest))),
                  rest, Records(a)[6..9])
  {
    var r1, r2, r3 := [Rec('a', ["streamMode", a.mode], 0)], [Rec('a', ["sendonly", ""], 0)],
        [Rec('a', ["rtpmap", "96 PS/90000"], 0)];
    var t3 := Line('a', "rtpmap" + ":" + "96 PS/90000", rest);
    var t2 := Line('a', "sendonly", t3);
    var t1 := Line('a', "streamMode" + ":" + a.mode, t2);
    TokenIsValue(a.mode);
    AttributeLeads("streamMode", a.mode, t2);
    FlagLeads("sendonly", t3);
    AttributeLeads("rtpmap", "96 PS/90000", rest);
    LeadsOn(t1, t2, r1, t3, r2);
    LeadsOn(t1, t3, r1 + r2, rest, r3);
    assert r1 + r2 + r3 == Records(a)[6..9];
  }

  lemma MediaPartLeads(a: Answer)
    requires Printable(a)
    ensures Leads(PrintMedia(a), CRLF, Records(a)[5..])
  {
    var ws, rs := ["video", a.port, "RTP/AVP", "96"], Records(a);
    var y := Line('y', a.y, CRLF);
    var s := Line('a', "streamMode" + ":" + a.mode,
        Line('a', "sendonly", Line('a', "rtpmap" + ":" + "96 PS/90000", y)));
    MediaLeads(ws, s);
    assert ws[..3] == rs[5].fields;
    AttributesLead(a, y);
    RestLeads('y', a.y, CRLF);
    LeadsOn(PrintMedia(a), s, [rs[5]], y, rs[6..9]);
    LeadsOn(PrintMedia(a), y, [rs[5]] + rs[6..9], CRLF, [rs[9]]);
    assert [rs[5]] + rs[6..9] + [rs[9]] == rs[5..];
  }

  /** Reading the answer gives back everything printed, line by line. */
  lemma AnswerReadsBack(a: Answer)
    requires Printable(a)
    ensures Parse(Print(a), []) == Parsed(Records(a))
  {
    var m, rs := PrintMedia(a), Records(a);
    var c := Line('c', Spaced(["IN", "IP4", a.localIp]), Line('t', Spaced(["0", "0"]), m));
    HeadLeads(a, c);
    ConnectionTimingLeads(a, m);
    MediaPartLeads(a);
    LeadsOn(Print(a), c, rs[..3], m, rs[3..5]);
    LeadsOn(Print(a), m, rs[..3] + rs[3..5], CRLF, rs[5..]);
    assert rs[..3] + rs[3..5] + rs[5..] == rs;
    LeadsEnds(Print(a), CRLF, rs);
  }

  // ---------------------------------------------------------------- the getters

  /** The last record of a kind. */
  function Latest<T>(recs: seq<Rec<T>>, kind: char): Option<Rec<T>>
  {
    if recs == [] then None
    else if recs[|recs| - 1].kind == kind then Some(recs[|recs| - 1])
    else Latest(recs[..|recs| - 1], kind)
  }

  /** The records before the first media line, which belong to the session. */
  function SessionPart<T>(recs: seq<Rec<T>>): seq<Rec<T>>
  {
    if recs == [] || recs[0].kind == 'm' then [] else [recs[0]] + SessionPart(recs[1..])
  }

  /** The records from the media line number `i` on, that line included. */
  function FromMedia<T>(recs: seq<Rec<T>>, i: nat): seq<Rec<T>>
  {
    if recs == [] then []
    else if recs[0].kind != 'm' then FromMedia(recs[1..], i)
    else if i == 0 then recs
    else FromMedia(recs[1..], i - 1)
  }

  /** `sdp_media_attribute_find`: the first attribute of this name that belongs to the media line in front. */
  function FindAttribute(recs: seq<Rec<string>>, name: string): Option<string>
  {
    if recs == [] || recs[0].kind == 'm' then None
    else if recs[0].kind == 'a' && |recs[0].fields| == 2 && recs[0].fields[0] == name then Some(recs[0].fields[1])
    else FindAttribute(recs[1..], name)
  }

  /** Where the lines of the answer are that the getters look for. */
  lemma LinesOfTheAnswer(a: Answer)
    ensures var rs := Records(a);
      && Latest(rs, 'o') == Some(Rec('o', [a.user, "0", "0", "IN", "IP4", a.pushIp], 0))
      && Latest(SessionPart(rs), 'c') == Some(Rec('c', ["IN", "IP4", a.localIp], 0))
      && FromMedia(rs, 0) == rs[5..] && rs[5].fields == ["video", a.port, "RTP/AVP"]
      && FindAttribute(FromMedia(rs, 0)[1..], "streamMode") == Some(a.mode)
      && Latest(rs, 'y') == Some(Rec('y', [a.y], 0))
  {
    var rs := Records(a);
    SessionIs(rs, 5);
    LatestSkips(rs, 'o', 1);
    LatestSkips(rs, 'y', 9);
    LatestSkips(rs[..5], 'c', 3);
    assert rs[5..][1..][0] == rs[6];
  }

  /** The session part ends, and the first media part starts, at the first media record. */
  lemma {:induction false} SessionIs<T>(recs: seq<Rec<T>>, n: nat)
    requires n < |recs| && recs[n].kind == 'm' && forall i :: 0 <= i < n ==> recs[i].kind != 'm'
    ensures SessionPart(recs) == recs[..n] && FromMedia(recs, 0) == recs[n..]
  {
    if n > 0 {
      SessionIs(recs[1..], n - 1);
      assert recs[1..][..n - 1] == recs[1..n] && recs[1..][n - 1..] == recs[n..];
    }
  }

  lemma {:induction false} LatestSkips<T>(recs: seq<Rec<T>>, kind: char, k: nat)
    requires k < |recs| && recs[k].kind == kind && forall i :: k < i < |recs| ==> recs[i].kind != kind
    ensures Latest(recs, kind) == Some(recs[k])
  {
    if k < |recs| - 1 { LatestSkips(recs[..|recs| - 1], kind, k); }
  }

  // ---------------------------------------------------------------- the answer is a C string

  predicate NoNul(s: string) { forall i :: 0 <= i < |s| ==> s[i] != NUL }

  lemma LineHasNoNul(kind: char, body: string, rest: string)
    requires kind != NUL && NoNul(body) && NoNul(rest)
    ensures NoNul(Line(kind, body, rest))
  {
  }

  lemma {:induction false} SpacedHasNoNul(ws: seq<string>)
    requires ws != [] && forall i :: 0 <= i < |ws| ==> NoNul(ws[i])
    ensures NoNul(Spaced(ws))
  {
    if |ws| > 1 { SpacedHasNoNul(ws[1..]); }
  }

  lemma PrintHasNoNul(a: Answer)
    requires Printable(a)
    ensures NoNul(Print(a))
  {
    MediaHasNoNul(a);
    var t := Line('t', Spaced(["0", "0"]), PrintMedia(a));
    SpacedHasNoNul(["0", "0"]);
    LineHasNoNul('t', Spaced(["0", "0"]), PrintMedia(a));
    SpacedHasNoNul(["IN", "IP4", a.localIp]);
    var c := Line('c', Spaced(["IN", "IP4", a.localIp]), t);
    LineHasNoNul('c', Spaced(["IN", "IP4", a.localIp]), t);
    var s := Line('s', "Play", c);
    LineHasNoNul('s', "Play", c);
    SpacedHasNoNul([a.user, "0", "0", "IN", "IP4", a.pushIp]);
    var o := Line('o', Spaced([a.user, "0", "0", "IN", "IP4", a.pushIp]), s);
    LineHasNoNul('o', Spaced([a.user, "0", "0", "IN", "IP4", a.pushIp]), s);
    LineHasNoNul('v', "0", o);
  }

  lemma MediaHasNoNul(a: Answer)
    requires Printable(a)
    ensures NoNul(PrintMedia(a))
  {
    var y := Line('y', a.y, CRLF);
    LineHasNoNul('y', a.y, CRLF);
    var a3 := Line('a', "rtpmap" + ":" + "96 PS/90000", y);
    LineHasNoNul('a', "rtpmap" + ":" + "96 PS/90000", y);
    var a2 := Line('a', "sendonly", a3);
    LineHasNoNul('a', "sendonly", a3);
    var a1 := Line('a', "streamMode" + ":" + a.mode, a2);
    LineHasNoNul('a', "streamMode" + ":" + a.mode, a2);
    SpacedHasNoNul(["video", a.port, "RTP/AVP", "96"]);
    LineHasNoNul('m', Spaced(["video", a.port, "RTP/AVP", "96"]), a1);
  }
}

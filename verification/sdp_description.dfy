/** The description structure that `sdp_parse` fills line by line, and what the getters find in it: for every
    sequence of lines they find what the lines say, a media line opening a part of its own. */
module SdpDescription {
  import opened Bytes
  import opened SdpText
  import opened SdpAnswer
  import opened SdpStore

  datatype Media = Media(fields: seq<string>, connections: seq<seq<string>>, attributes: seq<Attribute>)

  datatype Description = Description(
    origin: Option<seq<string>>, connection: Option<seq<string>>, y: Option<string>, attributes: seq<Attribute>,
    media: seq<Media>)

  const EMPTY := Description(None, None, None, [], [])

  /** Attribute lines have a name and a value, and `y=` lines one text. */
  predicate Formed(r: Rec<string>) { (r.kind == 'a' ==> |r.fields| == 2) && (r.kind == 'y' ==> |r.fields| == 1) }

  predicate AllFormed(recs: seq<Rec<string>>) { forall i :: 0 <= i < |recs| ==> Formed(recs[i]) }

  function AttributeOf(r: Rec<string>): Attribute
    requires Formed(r) && r.kind == 'a'
  {
    Attribute(r.fields[0], r.fields[1])
  }

  /** What a line does to the last media part. */
  function EnterMedia(m: Media, r: Rec<string>): Media
    requires Formed(r)
  {
    if r.kind == 'c' then m.(connections := m.connections + [r.fields])
    else if r.kind == 'a' then m.(attributes := m.attributes + [AttributeOf(r)])
    else m
  }

  /** What a line does to the structure: connections and attributes go to the last media part, if there is one. */
  function Enter(d: Description, r: Rec<string>): Description
    requires Formed(r)
  {
    if r.kind == 'o' then d.(origin := Some(r.fields))
    else if r.kind == 'y' then d.(y := Some(r.fields[0]))
    else if r.kind == 'm' then d.(media := d.media + [Media(r.fields, [], [])])
    else if d.media != [] then
      var k := |d.media| - 1;
      d.(media := d.media[k := EnterMedia(d.media[k], r)])
    else if r.kind == 'c' then d.(connection := Some(r.fields))
    else if r.kind == 'a' then d.(attributes := d.attributes + [AttributeOf(r)])
    else d
  }

  function Describe(recs: seq<Rec<string>>): Description
    requires AllFormed(recs)
  {
    if recs == [] then EMPTY else Enter(Describe(recs[..|recs| - 1]), recs[|recs| - 1])
  }

  /** `sdp_media_attribute_find`; the other getters return fields of the structure. */
  function MediaAttributeFind(d: Description, media: int, name: string): Option<string>
  {
    if 0 <= media < |d.media| then FirstNamed(d.media[media].attributes, name) else None
  }

  // ---------------------------------------------------------------- parts

  predicate NoMedia(recs: seq<Rec<string>>) { forall i :: 0 <= i < |recs| ==> recs[i].kind != 'm' }

  /** The attributes before the next media line. */
  function Attributes(recs: seq<Rec<string>>): seq<Attribute>
    requires AllFormed(recs)
  {
    if recs == [] || recs[0].kind == 'm' then []
    else (if recs[0].kind == 'a' then [AttributeOf(recs[0])] else []) + Attributes(recs[1..])
  }

  function MediaCount(recs: seq<Rec<string>>): nat
  {
    if recs == [] then 0 else (if recs[0].kind == 'm' then 1 else 0) + MediaCount(recs[1..])
  }

  lemma {:induction false} FindIsFirst(recs: seq<Rec<string>>, name: string)
    requires AllFormed(recs)
    ensures FindAttribute(recs, name) == FirstNamed(Attributes(recs), name)
  {
    if recs != [] && recs[0].kind != 'm' {
      FindIsFirst(recs[1..], name);
      if recs[0].kind == 'a' {
        assert ([AttributeOf(recs[0])] + Attributes(recs[1..]))[1..] == Attributes(recs[1..]);
      } else {
        assert [] + Attributes(recs[1..]) == Attributes(recs[1..]);
      }
    }
  }

  lemma {:induction false} AttributesSnoc(recs: seq<Rec<string>>, r: Rec<string>)
    requires AllFormed(recs) && Formed(r)
    ensures AllFormed(recs + [r])
    ensures Attributes(recs + [r]) == Attributes(recs) + (if NoMedia(recs) && r.kind == 'a' then [AttributeOf(r)]
        else [])
  {
    if recs == [] {
      assert [r][1..] == [];
    } else {
      assert (recs + [r])[1..] == recs[1..] + [r] && recs == [recs[0]] + recs[1..];
      AttributesSnoc(recs[1..], r);
    }
  }

  lemma {:induction false} CountSnoc(recs: seq<Rec<string>>, r: Rec<string>)
    ensures MediaCount(recs + [r]) == MediaCount(recs) + (if r.kind == 'm' then 1 else 0)
    ensures MediaCount(recs) == 0 <==> NoMedia(recs)
  {
    if recs == [] {
      assert [r][1..] == [];
    } else {
      assert (recs + [r])[1..] == recs[1..] + [r] && recs == [recs[0]] + recs[1..];
      CountSnoc(recs[1..], r);
    }
  }

  lemma {:induction false} SessionSnoc(recs: seq<Rec<string>>, r: Rec<string>)
    ensures SessionPart(recs + [r]) == SessionPart(recs) + (if NoMedia(recs) && r.kind != 'm' then [r] else [])
  {
    if recs == [] {
      assert [r][1..] == [];
    } else {
      assert (recs + [r])[1..] == recs[1..] + [r] && recs == [recs[0]] + recs[1..];
      SessionSnoc(recs[1..], r);
    }
  }

  lemma {:induction false} FromMediaSnoc(recs: seq<Rec<string>>, r: Rec<string>, i: nat)
    ensures FromMedia(recs + [r], i)
         == if i < MediaCount(recs) then FromMedia(recs, i) + [r]
            else if i == MediaCount(recs) && r.kind == 'm' then [r] else []
    decreases |recs|
  {
    if recs == [] {
      assert [r][1..] == [];
    } else {
      assert (recs + [r])[1..] == recs[1..] + [r];
      if recs[0].kind != 'm' { FromMediaSnoc(recs[1..], r, i); }
      else if i > 0 { FromMediaSnoc(recs[1..], r, i - 1); }
    }
  }

  /** The part that media line `i` opens, and which part is the last. */
  lemma {:induction false} PartIs(recs: seq<Rec<string>>, i: nat)
    requires i < MediaCount(recs)
    ensures var part := FromMedia(recs, i);
      part != [] && part[0].kind == 'm' && (NoMedia(part[1..]) <==> i == MediaCount(recs) - 1)
      && (AllFormed(recs) ==> AllFormed(part))
    decreases |recs|
  {
    if recs[0].kind != 'm' {
      PartIs(recs[1..], i);
    } else if i > 0 {
      PartIs(recs[1..], i - 1);
    } else {
      CountIsZero(recs[1..]);
    }
  }

  lemma {:induction false} CountIsZero(recs: seq<Rec<string>>)
    ensures MediaCount(recs) == 0 <==> NoMedia(recs)
  {
    if recs != [] {
      assert recs == [recs[0]] + recs[1..];
      CountIsZero(recs[1..]);
    }
  }

  // ---------------------------------------------------------------- what the getters find

  function FieldsOf(r: Option<Rec<string>>): Option<seq<string>> { if r.None? then None else Some(r.value.fields) }

  /** The media part `i` holds the fields of its line, and the attributes up to the next media line. */
  predicate PartHeld(d: Description, recs: seq<Rec<string>>, i: nat)
    requires AllFormed(recs)
  {
    var part := FromMedia(recs, i);
    && part != [] && AllFormed(part) && i < |d.media|
    && d.media[i].fields == part[0].fields && d.media[i].attributes == Attributes(part[1..])
  }

  predicate SessionHeld(d: Description, recs: seq<Rec<string>>)
    requires AllFormed(recs)
  {
    && d.origin == FieldsOf(Latest(recs, 'o')) && d.connection == FieldsOf(Latest(SessionPart(recs), 'c'))
    && d.attributes == Attributes(recs) && |d.media| == MediaCount(recs)
    && (Latest(recs, 'y').None? ==> d.y.None?)
    && (Latest(recs, 'y').Some? ==>
          |Latest(recs, 'y').value.fields| == 1 && d.y == Some(Latest(recs, 'y').value.fields[0]))
  }

  lemma LatestSnoc(recs: seq<Rec<string>>, r: Rec<string>, kind: char)
    ensures Latest(recs + [r], kind) == if r.kind == kind then Some(r) else Latest(recs, kind)
  {
    assert (recs + [r])[..|recs|] == recs;
  }

  lemma SessionKeeps(d: Description, recs: seq<Rec<string>>, r: Rec<string>)
    requires AllFormed(recs) && Formed(r) && SessionHeld(d, recs)
    ensures AllFormed(recs + [r]) && SessionHeld(Enter(d, r), recs + [r])
  {
    LatestSnoc(recs, r, 'o');
    LatestSnoc(recs, r, 'y');
    SessionSnoc(recs, r);
    CountSnoc(recs, r);
    AttributesSnoc(recs, r);
    if NoMedia(recs) && r.kind != 'm' {
      LatestSnoc(SessionPart(recs), r, 'c');
    } else {
      assert SessionPart(recs) + [] == SessionPart(recs);
    }
  }

  lemma PartKeeps(d: Description, recs: seq<Rec<string>>, r: Rec<string>, i: nat)
    requires AllFormed(recs) && Formed(r) && |d.media| == MediaCount(recs) && AllFormed(recs + [r])
    requires i < MediaCount(recs) ==> PartHeld(d, recs, i)
    requires i < MediaCount(recs + [r])
    ensures PartHeld(Enter(d, r), recs + [r], i)
  {
    CountSnoc(recs, r);
    FromMediaSnoc(recs, r, i);
    if i < MediaCount(recs) {
      var part := FromMedia(recs, i);
      PartIs(recs, i);
      assert (part + [r])[1..] == part[1..] + [r];
      AttributesSnoc(part[1..], r);
    } else {
      assert [r][1..] == [];
    }
  }

  lemma {:induction false} DescribeHolds(recs: seq<Rec<string>>)
    requires AllFormed(recs)
    ensures SessionHeld(Describe(recs), recs)
    ensures forall i :: 0 <= i < MediaCount(recs) ==> PartHeld(Describe(recs), recs, i)
    decreases |recs|
  {
    if recs != [] {
      var before, r := recs[..|recs| - 1], recs[|recs| - 1];
      assert recs == before + [r];
      DescribeHolds(before);
      SessionKeeps(Describe(before), before, r);
      forall i: nat | i < MediaCount(recs) ensures PartHeld(Describe(recs), recs, i) {
        PartKeeps(Describe(before), before, r, i);
      }
    }
  }

  /** For all lines: the getters find the last origin and the last y, the last connection of the session, the fields of
      each media line, and for a media line and a name the first attribute of that name behind this line and before
      the next. */
  lemma GettersFindTheLines(recs: seq<Rec<string>>, media: nat, name: string)
    requires AllFormed(recs)
    ensures SessionHeld(Describe(recs), recs)
    ensures media < MediaCount(recs) ==>
      var d, part := Describe(recs), FromMedia(recs, media);
      && part != [] && media < |d.media| && d.media[media].fields == part[0].fields
      && MediaAttributeFind(d, media, name) == FindAttribute(part[1..], name)
    ensures media >= MediaCount(recs) ==> MediaAttributeFind(Describe(recs), media, name).None?
  {
    DescribeHolds(recs);
    if media < MediaCount(recs) {
      assert PartHeld(Describe(recs), recs, media);
      FindIsFirst(FromMedia(recs, media)[1..], name);
    }
  }

  // ---------------------------------------------------------------- what the parser gives

  lemma LineIsFormed(c: char, s: string)
    ensures ParseLine(c, s).Good? ==> Formed(ParseLine(c, s).rec)
  {
  }

  /** The lines that the parser finds in a text are such lines. */
  lemma {:induction false} ParsedAreFormed(s: string, recs: seq<Rec<string>>)
    requires AllFormed(recs)
    ensures Parse(s, recs).Parsed? ==> AllFormed(Parse(s, recs).recs)
    decreases |s|
  {
    if s != [] && Skip(s) != [] && AfterEquals(Skip(s)).Some? {
      LineIsFormed(Skip(s)[0], AfterEquals(Skip(s)).value);
    }
    if StepOf(s, recs).Go? { ParsedAreFormed(StepOf(s, recs).rest, recs + [StepOf(s, recs).rec]); }
  }

  /** In the printed answer, parsed, the getters find the user name, both addresses, the port, the stream mode and y. */
  lemma GettersFindTheAnswer(a: Answer)
    requires Printable(a)
    ensures Parse(Print(a), []) == Parsed(Records(a)) && AllFormed(Records(a))
    ensures var d := Describe(Records(a));
      && d.origin == Some([a.user, "0", "0", "IN", "IP4", a.pushIp]) && d.connection == Some(["IN", "IP4", a.localIp])
      && |d.media| > 0 && d.media[0].fields == ["video", a.port, "RTP/AVP"]
      && MediaAttributeFind(d, 0, "streamMode") == Some(a.mode) && d.y == Some(a.y)
  {
    AnswerReadsBack(a);
    ParsedAreFormed(Print(a), []);
    LinesOfTheAnswer(a);
    OneMediaLine(Records(a), 5);
    GettersFindTheLines(Records(a), 0, "streamMode");
  }

  lemma {:induction false} OneMediaLine(recs: seq<Rec<string>>, k: nat)
    requires k < |recs| && recs[k].kind == 'm'
    ensures MediaCount(recs) > 0
  {
    if k > 0 { OneMediaLine(recs[1..], k - 1); }
  }
}

/** The 33-bit clocks of a program stream: the PTS and DTS fields of a PES header
    (ISO/IEC 13818-1 section 2.4.3.6) and the SCR of a pack header (section 2.5.3.3). */
module PsClock {

  const PTS_DTS_FLAG: bv8 := 3
  const MARKER_BIT: bv8 := 1

  /** Byte and word of a time field: a four-bit prefix, then 3 + 15 + 15 clock bits, each group
      followed by a marker bit. */
  function TimePrefix(prefix: bv8, t: bv64): bv8
  {
    (prefix << 4) | ((((t >> 30) & 7) as bv8) << 1) | 1
  }

  function TimeRest(t: bv64): bv32
  {
    ((((t >> 15) & 0x7FFF) as bv32) << 17) | 0x1_0000 | (((t & 0x7FFF) as bv32) << 1) | 1
  }

  /** What a receiver reads from a time field. */
  function ReadTime(first: bv8, rest: bv32): bv64
  {
    (((first >> 1) & 7) as bv64 << 30) | (((rest >> 17) & 0x7FFF) as bv64 << 15) | ((rest >> 1) & 0x7FFF) as bv64
  }

  /** The prefix and all three marker bits are where the standard puts them. */
  predicate TimeFieldOk(prefix: bv8, first: bv8, rest: bv32)
  {
    first >> 4 == prefix && first & 1 == 1 && rest & 0x1_0001 == 0x1_0001
  }

  /** The byte `ps_pts` and `ps_dts` make; they differ only in the prefix. */
  method MakeTimePrefix(prefix: bv8, t: bv64) returns (first: bv8)
    ensures first == TimePrefix(prefix, t)
  {
    first := 0;
    first := first | prefix;
    first := first << 3;
    var tmp := t;
    tmp := tmp >> 30;
    tmp := tmp & 7;
    first := first | (tmp & 0xFF) as bv8;
    first := first << 1;
    first := first | MARKER_BIT;
  }

  /** The word `ps_pts` and `ps_dts` make. */
  method MakeTimeRest(t: bv64) returns (rest: bv32)
    ensures rest == TimeRest(t)
  {
    rest := 0;
    rest := rest << 15;
    var tmp := (t >> 15) & 0x7FFF;
    rest := rest | (tmp & 0xFFFF_FFFF) as bv32;
    rest := rest << 1;
    rest := rest | 1;

    rest := rest << 15;
    tmp := t & 0x7FFF;
    rest := rest | (tmp & 0xFFFF_FFFF) as bv32;
    rest := rest << 1;
    rest := rest | 1;
  }

  /** A receiver reads back the low 33 bits, for every 64-bit time. */
  lemma TimeRoundTrip(prefix: bv8, t: bv64)
    requires prefix < 16
    ensures ReadTime(TimePrefix(prefix, t), TimeRest(t)) == t & 0x1_FFFF_FFFF
    ensures TimeFieldOk(prefix, TimePrefix(prefix, t), TimeRest(t))
  {
  }

  /** The three SCR words of a pack header. */
  function Scr1(t: bv64): bv16
  {
    (1 << 14) | ((((t >> 30) & 7) as bv16) << 11) | (1 << 10) | ((t >> 20) & 0x3FF) as bv16
  }

  function Scr2(t: bv64): bv16
  {
    ((((t >> 15) & 0x1F) as bv16) << 11) | (1 << 10) | ((t >> 5) & 0x3FF) as bv16
  }

  function Scr3(t: bv64): bv16
  {
    (((t & 0x1F) as bv16) << 11) | (1 << 10) | 1
  }

  /** What a receiver reads as the SCR base. */
  function ReadScr(a: bv16, b: bv16, c: bv16): bv64
  {
    (((a >> 11) & 7) as bv64 << 30) | ((a & 0x3FF) as bv64 << 20) | (((b >> 11) & 0x1F) as bv64 << 15)
    | ((b & 0x3FF) as bv64 << 5) | ((c >> 11) & 0x1F) as bv64
  }

  /** What a receiver reads as the SCR extension. */
  function ReadScrExtension(c: bv16): bv16 { (c >> 1) & 0x1FF }

  /** The '01' prefix and the four marker bits. */
  predicate ScrOk(a: bv16, b: bv16, c: bv16)
  {
    a >> 14 == 1 && (a >> 10) & 1 == 1 && (b >> 10) & 1 == 1 && (c >> 10) & 1 == 1 && c & 1 == 1
  }

  /** The first SCR word, as `ps_packheader_make` builds it. */
  method MakeScr1(t: bv64) returns (us: bv16)
    ensures us == Scr1(t)
  {
    us := 0;
    us := us | 1;
    us := us << 3;
    var tmp := t;
    tmp := tmp >> 30;
    tmp := tmp & 7;
    us := us | (tmp & 0xFFFF) as bv16;
    us := us << 1;
    us := us | 1;
    tmp := (t >> 20) & 0x3FF;
    us := us << 10;
    us := us | (tmp & 0xFFFF) as bv16;
  }

  /** The second SCR word. */
  method MakeScr2(t: bv64) returns (us: bv16)
    ensures us == Scr2(t)
  {
    us := 0;
    var tmp := (t >> 15) & 0x1F;
    us := us | (tmp & 0xFFFF) as bv16;
    us := us << 1;
    us := us | 1;
    tmp := (t >> 5) & 0x3FF;
    us := us << 10;
    us := us | (tmp & 0xFFFF) as bv16;
  }

  /** The third SCR word. */
  method MakeScr3(t: bv64) returns (us: bv16)
    ensures us == Scr3(t)
  {
    us := 0;
    us := us | (t & 0x1F) as bv16;
    us := us << 1;
    us := us | 1;
    us := us << 10;
    us := us | 1;
  }

  lemma ScrRoundTrip(t: bv64)
    ensures ReadScr(Scr1(t), Scr2(t), Scr3(t)) == t & 0x1_FFFF_FFFF
    ensures ScrOk(Scr1(t), Scr2(t), Scr3(t)) && ReadScrExtension(Scr3(t)) == 0
  {
  }

  /** The PES clocks are made from a 32-bit copy of the time, the SCR from all of it.  The two read
      back equal exactly when bit 32 of the time is clear. */
  lemma ClocksAgreeExactly(t: bv64)
    ensures ReadTime(TimePrefix(PTS_DTS_FLAG, t & 0xFFFF_FFFF), TimeRest(t & 0xFFFF_FFFF))
        == ReadScr(Scr1(t), Scr2(t), Scr3(t))
       <==> (t >> 32) & 1 == 0
  {
    var low := t & 0xFFFF_FFFF;
    TimeRoundTrip(PTS_DTS_FLAG, low);
    ScrRoundTrip(t);
    var pts := ReadTime(TimePrefix(PTS_DTS_FLAG, low), TimeRest(low));
    var scr := ReadScr(Scr1(t), Scr2(t), Scr3(t));
    Bit32Decides(t, pts, scr);
  }

  lemma Bit32Decides(t: bv64, pts: bv64, scr: bv64)
    requires pts == t & 0xFFFF_FFFF & 0x1_FFFF_FFFF && scr == t & 0x1_FFFF_FFFF
    ensures pts == scr <==> (t >> 32) & 1 == 0
  {
  }

  /** A time for which they differ. */
  lemma ClocksDifferAt()
    ensures var t: bv64 := 0x1_0000_0000;
      ReadTime(TimePrefix(PTS_DTS_FLAG, t & 0xFFFF_FFFF), TimeRest(t & 0xFFFF_FFFF)) != ReadScr(Scr1(t), Scr2(t),
          Scr3(t))
  {
  }
}

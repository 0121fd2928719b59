/** The send task's clock: source time stamps, which may be missing, repeat or jump back, are turned
    into an output clock by adding up differences. */
module Timestamp {

  const TWO_63 := 0x8000_0000_0000_0000
  const TWO_64 := 0x1_0000_0000_0000_0000
  const FRAME_TICKS := 3600

  predicate U64(n: int) { 0 <= n < TWO_64 }

  /** A 64-bit word read as a signed number. */
  function S64(n: int): int { if n < TWO_63 then n else n - TWO_64 }

  /** `time` is the output clock, `add` what the last frame advanced it by (never left at zero), `last`
      the last non-zero source stamp, or zero. */
  datatype Clock = Clock(time: int, add: int, last: int)
  {
    ghost predicate Ok() { U64(time) && U64(add) && U64(last) }
  }

  const START := Clock(0, 0, 0)

  /** By how much a frame stamped `stamp` advances the output clock. */
  function Advance(c: Clock, stamp: int): int
  {
    if c.last == 0 then (if stamp == 0 then FRAME_TICKS else 0)
    else if stamp == 0 || stamp == c.last then FRAME_TICKS
    else if S64(stamp) < S64(c.last) then c.add
    else stamp - c.last
  }

  function Step(c: Clock, stamp: int): Clock
  {
    var inc := Advance(c, stamp) % TWO_64;
    Clock((c.time + inc) % TWO_64, if inc == 0 then FRAME_TICKS else inc, if stamp == 0 then c.last else stamp)
  }

  class SendClock {
    var u64Time: int
    var u64AddTime: int
    var u64TimestampOld: int

    function AsClock(): Clock
      reads this
    {
      Clock(u64Time, u64AddTime, u64TimestampOld)
    }

    constructor ()
      ensures AsClock() == START
    {
      u64Time, u64AddTime, u64TimestampOld := 0, 0, 0;
    }

    /** The normaliser of the send loop, for a frame stamped `vPts`.  `addTime` is what the frame was
        advanced by before a zero was replaced. */
    method OnFrame(vPts: int)
      requires AsClock().Ok() && U64(vPts)
      modifies this
      ensures AsClock() == Step(old(AsClock()), vPts) && AsClock().Ok()
    {
      if u64TimestampOld == 0 {
        u64AddTime := 0;
        u64TimestampOld := vPts;
        if u64TimestampOld == 0 { u64AddTime := FRAME_TICKS; }
      } else {
        var current := vPts;
        if current == 0 {
          u64AddTime := FRAME_TICKS;
        } else {
          if S64(current) - S64(u64TimestampOld) < 0 {
          } else if S64(current) - S64(u64TimestampOld) == 0 {
            u64AddTime := FRAME_TICKS;
          } else {
            u64AddTime := (current - u64TimestampOld) % TWO_64;
          }
          u64TimestampOld := current;
        }
      }
      u64Time := (u64Time + u64AddTime) % TWO_64;
      if u64AddTime <= 0 { u64AddTime := FRAME_TICKS; }
    }
  }

  function Run(c: Clock, stamps: seq<int>): Clock
    decreases |stamps|
  {
    if stamps == [] then c else Run(Step(c, stamps[0]), stamps[1..])
  }

  /** The amounts, one by one: nothing for the first stamp, 3600 ticks for a missing or repeated one, what the frame
      before was advanced by, or 3600 if that was nothing, for one that jumps back, and else the difference. */
  lemma AmountsAre(c: Clock, stamp: int, signed: int, lastSigned: int)
    requires c.Ok() && U64(stamp)
    requires signed == if stamp < 0x8000_0000_0000_0000 then stamp else stamp - 0x1_0000_0000_0000_0000
    requires lastSigned == if c.last < 0x8000_0000_0000_0000 then c.last else c.last - 0x1_0000_0000_0000_0000
    ensures var t, inc := Step(c, stamp), (Step(c, stamp).time - c.time) % 0x1_0000_0000_0000_0000;
      && (c.last == 0 && stamp != 0 ==> inc == 0)
      && (stamp == 0 || stamp == c.last ==> inc == 3600)
      && (c.last != 0 && stamp != 0 && signed < lastSigned ==> inc == c.add)
      && (c.last != 0 && stamp != 0 && lastSigned < signed ==> inc == (stamp - c.last) % 0x1_0000_0000_0000_0000)
      && t.add == (if inc == 0 then 3600 else inc)
      && t.last == (if stamp == 0 then c.last else stamp)
  {
  }

  /** The increment a frame makes is positive exactly when a non-zero stamp is already stored or this
      frame has none: the first real stamp alone leaves the clock where it is. */
  lemma AdvancesExactly(c: Clock, stamp: int)
    requires c.Ok() && U64(stamp) && (c.last != 0 ==> 0 < c.add)
    ensures 0 < Advance(c, stamp) % TWO_64 <==> c.last != 0 || stamp == 0
  {
  }

  /** The clock moves forward on such a frame exactly when the 64-bit sum does not wrap. */
  lemma IncreasesExactly(c: Clock, stamp: int)
    requires c.Ok() && U64(stamp) && c.last != 0 && 0 < c.add
    ensures c.time < Step(c, stamp).time <==> c.time + Advance(c, stamp) % TWO_64 < TWO_64
  {
    AdvancesExactly(c, stamp);
  }

  /** Ticks the clock advances over a run, before wrapping. */
  function Total(c: Clock, stamps: seq<int>): int
    decreases |stamps|
  {
    if stamps == [] then 0 else Advance(c, stamps[0]) % TWO_64 + Total(Step(c, stamps[0]), stamps[1..])
  }

  ghost predicate Stamps(stamps: seq<int>) { forall v <- stamps :: U64(v) }

  /** Over any run the clock is the sum of its increments, so it never falls while that sum stays below
      2^64; and once a real stamp is stored it rises by at least one tick a frame, whatever the source
      does. */
  lemma {:induction false} NeverFalls(c: Clock, stamps: seq<int>)
    requires c.Ok() && Stamps(stamps) && (c.last != 0 ==> 0 < c.add)
    ensures 0 <= Total(c, stamps) && (c.last != 0 ==> |stamps| <= Total(c, stamps))
    ensures Run(c, stamps).Ok()
    ensures c.time + Total(c, stamps) < TWO_64 ==> Run(c, stamps).time == c.time + Total(c, stamps)
    decreases |stamps|
  {
    if stamps != [] {
      AdvancesExactly(c, stamps[0]);
      NeverFalls(Step(c, stamps[0]), stamps[1..]);
    }
  }

  ghost predicate Rising(from: int, stamps: seq<int>)
    decreases |stamps|
  {
    stamps == [] || (from < stamps[0] < TWO_63 && Rising(stamps[0], stamps[1..]))
  }

  /** Over rising stamps the clock differences are the source differences. */
  lemma {:induction false} FollowsSource(c: Clock, stamps: seq<int>)
    requires c.Ok() && 0 < c.last < TWO_63 && Rising(c.last, stamps)
    ensures Run(c, stamps).last == (if stamps == [] then c.last else stamps[|stamps| - 1])
    ensures Total(c, stamps) == Run(c, stamps).last - c.last
    decreases |stamps|
  {
    if stamps != [] { FollowsSource(Step(c, stamps[0]), stamps[1..]); }
  }

  /** From the start of a task: after rising non-zero stamps the clock shows last minus first. */
  lemma FollowsSourceFromStart(stamps: seq<int>)
    requires stamps != [] && Rising(0, stamps)
    ensures Run(START, stamps).time == stamps[|stamps| - 1] - stamps[0]
  {
    var first := Step(START, stamps[0]);
    var rest := stamps[1..];
    RisingStamps(stamps[0], rest);
    FollowsSource(first, rest);
    NeverFalls(first, rest);
  }

  lemma {:induction false} RisingStamps(from: int, stamps: seq<int>)
    requires 0 <= from && Rising(from, stamps)
    ensures Stamps(stamps)
    decreases |stamps|
  {
    if stamps != [] {
      RisingStamps(stamps[0], stamps[1..]);
    }
  }
}

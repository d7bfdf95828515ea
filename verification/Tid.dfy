/** Timestamp identifiers: eleven digits of microseconds, two of clock id, and the clock that hands them out. */
module Tids {
  import opened Prelude
  import opened S32

  const TID_LEN := 13

  function Dedash(s: string): string {
    if s == "" then "" else Dedash(s[..|s| - 1]) + if s[|s| - 1] == '-' then "" else [s[|s| - 1]]
  }

  datatype Tid = Tid(str: string) {
    predicate Valid() {
      |str| == TID_LEN && '-' !in str
    }

    function Timestamp(): int
      requires Valid()
    {
      Decode(str[..11])
    }

    function ClockId(): int
      requires Valid()
    {
      Decode(str[11..13])
    }

    function Formatted(): string
      requires Valid()
    {
      str[..4] + "-" + str[4..7] + "-" + str[7..11] + "-" + str[11..13]
    }

    predicate NewerThan(other: Tid) {
      Less(other.str, str)
    }
  }

  /** The constructor; None is its exception. */
  function Parse(s: string): Option<Tid> {
    if |Dedash(s)| == TID_LEN then Some(Tid(Dedash(s))) else None
  }

  /** `padStart(2, '2')` */
  function Pad2(s: string): string {
    if |s| == 0 then "22" else if |s| == 1 then "2" + s else s
  }

  function FromTime(timestamp: nat, clockId: nat): Option<Tid> {
    Parse(Encode(timestamp) + Pad2(Encode(clockId)))
  }

  // ----- the codec -----

  lemma {:induction false} DedashOk(s: string)
    ensures '-' !in Dedash(s)
    ensures '-' !in s ==> Dedash(s) == s
  {
    if s != "" {
      DedashOk(s[..|s| - 1]);
      assert s == s[..|s| - 1] + [s[|s| - 1]];
    }
  }

  lemma {:induction false} DedashAppend(a: string, b: string)
    ensures Dedash(a + b) == Dedash(a) + Dedash(b)
  {
    if b == "" {
      assert a + b == a;
    } else {
      assert (a + b)[..|a + b| - 1] == a + b[..|b| - 1];
      DedashAppend(a, b[..|b| - 1]);
    }
  }

  lemma NoDash(s: string)
    requires WellFormed(s)
    ensures '-' !in s
  {
    assert Digit('-') == -1;
  }

  lemma ParseOk(s: string)
    ensures Parse(s).Some? ==> Parse(s).value.Valid()
  {
    DedashOk(s);
  }

  lemma Pad2Ok(c: nat)
    ensures WellFormed(Pad2(Encode(c))) && Decode(Pad2(Encode(c))) == c
    ensures |Pad2(Encode(c))| >= 2 && (|Pad2(Encode(c))| == 2 <==> c < 1024)
  {
    hide Encode, Decode;
    EncodeWellFormed(c);
    DecodeEncode(c);
    EncodeLength(c, 2);
    EncodeLength(c, 0);
    assert Pow32(0) == 1 && Pow32(1) == 32 && Pow32(2) == 1024;
    DecodeOne('2');
    var s := Encode(c);
    if |s| == 0 {
      assert "22" == ['2'] + ['2'];
      DecodeAppend(['2'], ['2']);
    } else if |s| == 1 {
      assert "2" + s == ['2'] + s;
      DecodeAppend(['2'], s);
    }
  }

  lemma Pow32Values()
    ensures Pow32(10) == 1125899906842624 && Pow32(11) == 36028797018963968
  {
    assert Pow32(2) == 1024;
    assert Pow32(4) == 1048576;
    assert Pow32(6) == 1073741824;
    assert Pow32(8) == 1099511627776;
  }

  predicate InRange(timestamp: nat) {
    1125899906842624 <= timestamp < 36028797018963968
  }

  lemma FromTimeShape(t: nat, c: nat)
    ensures InRange(t) && c < 1024 ==> FromTime(t, c) == Some(Tid(Encode(t) + Pad2(Encode(c)))) && |Encode(t)| == 11
    ensures FromTime(t, c).Some? ==>
              FromTime(t, c).value.str == Encode(t) + Pad2(Encode(c)) && WellFormed(FromTime(t, c).value.str)
  {
    EncodeWellFormed(t);
    Pad2Ok(c);
    NoDash(Encode(t) + Pad2(Encode(c)));
    DedashOk(Encode(t) + Pad2(Encode(c)));
    EncodeLength(t, 10);
    EncodeLength(t, 11);
    Pow32Values();
  }

  /** `fromTime` gives back the time and the clock id exactly for timestamps of eleven digits and ids below 1024. */
  lemma FromTimeRecovers(t: nat, c: nat)
    ensures InRange(t) && c < 1024 <==>
            FromTime(t, c).Some? && FromTime(t, c).value.Valid()
            && FromTime(t, c).value.Timestamp() == t && FromTime(t, c).value.ClockId() == c
  {
    FromTimeShape(t, c);
    var s := Encode(t) + Pad2(Encode(c));
    Pad2Ok(c);
    ParseOk(s);
    if InRange(t) && c < 1024 {
      DecodeEncode(t);
      assert s[..11] == Encode(t) && s[11..13] == Pad2(Encode(c));
    }
    if FromTime(t, c).Some? && FromTime(t, c).value.ClockId() == c {
      DecodeBound(s[11..13]);
      assert Pow32(1) == 32 && Pow32(2) == 1024;
      EncodeLength(t, 10);
      EncodeLength(t, 11);
      Pow32Values();
    }
  }

  /** The dashed form parses back to the same identifier. */
  lemma FormattedReparses(t: Tid)
    requires t.Valid()
    ensures Parse(t.Formatted()) == Some(t)
  {
    hide Dedash;
    var a, b, c, d := t.str[..4], t.str[4..7], t.str[7..11], t.str[11..13];
    DropDashes(a, b, c, d);
    DedashOk(a);
    assert a + b + c + d == t.str;
  }

  lemma DropDashes(a: string, b: string, c: string, d: string)
    requires '-' !in b + c + d
    ensures Dedash(a + "-" + b + "-" + c + "-" + d) == Dedash(a) + b + c + d
  {
    hide Dedash;
    DropDash(a, b);
    DropDash(a + "-" + b, c);
    DropDash(a + "-" + b + "-" + c, d);
  }

  lemma DropDash(a: string, b: string)
    requires '-' !in b
    ensures Dedash(a + "-" + b) == Dedash(a) + b
  {
    hide Dedash;
    DedashOk(b);
    DedashAppend(a + "-", b);
    DedashAppend(a, "-");
    DedashDash();
  }

  lemma DedashDash()
    ensures Dedash("-") == ""
  {
    assert "-"[..0] == "";
  }

  lemma SplitDecode(t: Tid)
    requires t.Valid() && WellFormed(t.str)
    ensures Decode(t.str) == t.Timestamp() * 1024 + t.ClockId() && 0 <= t.ClockId() < 1024 && 0 <= t.Timestamp()
  {
    assert t.str == t.str[..11] + t.str[11..13];
    DecodeAppend(t.str[..11], t.str[11..13]);
    DecodeBound(t.str[..11]);
    DecodeBound(t.str[11..13]);
    assert Pow32(1) == 32 && Pow32(2) == 1024;
  }

  /** On well-formed identifiers the order of the texts is the order of time, then of clock id. */
  lemma OrderIsChronological(a: Tid, b: Tid)
    requires a.Valid() && b.Valid() && WellFormed(a.str) && WellFormed(b.str)
    ensures b.NewerThan(a) <==>
            a.Timestamp() < b.Timestamp() || (a.Timestamp() == b.Timestamp() && a.ClockId() < b.ClockId())
    ensures a == b <==> a.Timestamp() == b.Timestamp() && a.ClockId() == b.ClockId()
  {
    OrderAgrees(a.str, b.str);
    SplitDecode(a);
    SplitDecode(b);
  }

  // ----- the clock -----

  /** The counters of the module. */
  datatype Clock = Clock(lastTimestamp: nat, timestampCount: nat, clockId: Option<nat>)

  function Ticked(c: Clock, now: nat, random: nat): Clock {
    var time := if now > c.lastTimestamp then now else c.lastTimestamp;
    Clock(time,
          if time == c.lastTimestamp then c.timestampCount + 1 else c.timestampCount,
          if c.clockId.None? then Some(random) else c.clockId)
  }

  /** The microseconds that a clock has just handed out. */
  function Stamp(c: Clock): nat {
    c.lastTimestamp * 1000 + c.timestampCount
  }

  /** `next` after the clock has ticked. */
  function NextTid(c: Clock, prev: Option<Tid>): Option<Tid>
    requires c.clockId.Some? && (prev.Some? ==> prev.value.Valid())
  {
    var tid := FromTime(Stamp(c), c.clockId.value);
    if tid.None? then None
    else if prev.None? || tid.value.NewerThan(prev.value) then tid
    else if prev.value.Timestamp() + 1 < 0 then None  // foreign characters only: encoding a negative number never ends
    else FromTime(prev.value.Timestamp() + 1, c.clockId.value)
  }

  class TidClock {
    var lastTimestamp: nat
    var timestampCount: nat
    var clockId: Option<nat>

    function View(): Clock
      reads this
    {
      Clock(lastTimestamp, timestampCount, clockId)
    }

    constructor ()
      ensures View() == Clock(0, 0, None)
    {
      lastTimestamp, timestampCount, clockId := 0, 0, None;
    }

    /** `now` is the wall clock, `random` the id that is drawn on first use; None is the exception of `fromTime`. */
    method Next(now: nat, random: nat, prev: Option<Tid>) returns (tid: Option<Tid>)
      requires prev.Some? ==> prev.value.Valid()
      modifies this
      ensures View() == Ticked(old(View()), now, random)
      ensures View().clockId.Some? && tid == NextTid(View(), prev)
    {
      var time := if now > lastTimestamp then now else lastTimestamp;
      if time == lastTimestamp {
        timestampCount := timestampCount + 1;
      }
      lastTimestamp := time;
      var timestamp := time * 1000 + timestampCount;
      if clockId.None? {
        clockId := Some(random);
      }
      var tick := FromTime(timestamp, clockId.value);
      if tick.None? || prev.None? || tick.value.NewerThan(prev.value) {
        return tick;
      }
      var after := prev.value.Timestamp() + 1;
      if after < 0 {
        return None;
      }
      tid := FromTime(after, clockId.value);
    }
  }

  datatype Reading = Reading(now: nat, random: nat)

  /** The clock after a series of calls, with or without `prev`, at arbitrary wall clock times. */
  function After(c: Clock, readings: seq<Reading>): Clock {
    if readings == [] then c
    else
      var r := readings[|readings| - 1];
      Ticked(After(c, readings[..|readings| - 1]), r.now, r.random)
  }

  lemma {:induction false} StampsIncrease(c: Clock, readings: seq<Reading>)
    requires readings != []
    ensures Stamp(c) < Stamp(After(c, readings))
    ensures After(c, readings).clockId.Some?
    ensures c.clockId.Some? ==> After(c, readings).clockId == c.clockId
    ensures c.clockId.None? ==> After(c, readings).clockId == Some(readings[0].random)
  {
    if |readings| > 1 {
      StampsIncrease(c, readings[..|readings| - 1]);
    } else {
      assert readings[..0] == [];
    }
  }

  /** The latest of the times that were read, and of the one that was there. */
  function Latest(start: nat, readings: seq<Reading>): nat {
    if readings == [] then start
    else
      var before, now := Latest(start, readings[..|readings| - 1]), readings[|readings| - 1].now;
      if now > before then now else before
  }

  lemma {:induction false} LatestIsTheMaximum(start: nat, readings: seq<Reading>)
    ensures start <= Latest(start, readings) && forall r :: r in readings ==> r.now <= Latest(start, readings)
    ensures Latest(start, readings) == start || exists r :: r in readings && r.now == Latest(start, readings)
  {
    if readings != [] {
      var front, last := readings[..|readings| - 1], readings[|readings| - 1];
      LatestIsTheMaximum(start, front);
      assert readings == front + [last];
      assert forall r :: r in readings <==> r in front || r == last;
    }
  }

  /** How many of the readings found the clock no later than some reading before. */
  function Stalls(start: nat, readings: seq<Reading>): nat {
    if readings == [] then 0
    else
      var front, last := readings[..|readings| - 1], readings[|readings| - 1];
      Stalls(start, front) + if last.now <= Latest(start, front) then 1 else 0
  }

  lemma {:induction false} ClockTracksReadings(c: Clock, readings: seq<Reading>)
    ensures var d := After(c, readings);
            && d.lastTimestamp == Latest(c.lastTimestamp, readings)
            && d.timestampCount == c.timestampCount + Stalls(c.lastTimestamp, readings)
  {
    if readings != [] {
      ClockTracksReadings(c, readings[..|readings| - 1]);
    }
  }

  /**
   * What the time of an identifier is: the latest clock reading, in milliseconds, and as microseconds the number of
   * all calls so far that found no later one. The counter is never reset, so the millisecond is that of the clock
   * exactly while there are fewer than a thousand such calls.
   */
  lemma TimeOfIdentifiers(readings: seq<Reading>)
    requires readings != [] && readings[0].random < 1024
    requires InRange(Latest(0, readings) * 1000 + Stalls(0, readings))
    ensures After(Clock(0, 0, None), readings).clockId.Some?
    ensures var tid := NextTid(After(Clock(0, 0, None), readings), None);
            && tid.Some? && tid.value.Valid() && tid.value.ClockId() == readings[0].random
            && tid.value.Timestamp() == Latest(0, readings) * 1000 + Stalls(0, readings)
            && (Millisecond(tid.value.Timestamp()) == Latest(0, readings) <==> Stalls(0, readings) < 1000)
  {
    hide After, Latest, Stalls, NextTid, InRange, Millisecond, Stamp;
    StampTracksReadings(readings);
    FirstReadingDraws(readings);
    StampIsTime(After(Clock(0, 0, None), readings));
    SameMillisecond(Latest(0, readings), Stalls(0, readings));
  }

  lemma FirstReadingDraws(readings: seq<Reading>)
    requires readings != []
    ensures After(Clock(0, 0, None), readings).clockId == Some(readings[0].random)
  {
    hide After, Stamp;
    StampsIncrease(Clock(0, 0, None), readings);
  }

  lemma StampTracksReadings(readings: seq<Reading>)
    ensures Stamp(After(Clock(0, 0, None), readings)) == Latest(0, readings) * 1000 + Stalls(0, readings)
  {
    hide After, Latest, Stalls;
    ClockTracksReadings(Clock(0, 0, None), readings);
  }

  lemma StampIsTime(c: Clock)
    requires c.clockId.Some? && c.clockId.value < 1024 && InRange(Stamp(c))
    ensures var tid := NextTid(c, None);
            && tid.Some? && tid.value.Valid() && tid.value.ClockId() == c.clockId.value
            && tid.value.Timestamp() == Stamp(c)
  {
    FromTimeRecovers(Stamp(c), c.clockId.value);
  }

  function Millisecond(microseconds: int): int {
    microseconds / 1000
  }

  lemma SameMillisecond(m: nat, n: nat)
    ensures Millisecond(m * 1000 + n) == m <==> n < 1000
  {
  }

  /**
   * Identifiers handed out without `prev` are strictly increasing, whatever the wall clock does in between and whatever
   * other calls are made, as long as the stamps have eleven digits and the clock id two.
   */
  lemma SuccessiveTidsIncrease(c: Clock, first: seq<Reading>, second: seq<Reading>)
    requires first != [] && second != []
    requires InRange(Stamp(After(c, first))) && InRange(Stamp(After(After(c, first), second)))
    requires After(c, first).clockId.Some? && After(c, first).clockId.value < 1024
    ensures After(After(c, first), second).clockId.Some?
    ensures var a, b := NextTid(After(c, first), None), NextTid(After(After(c, first), second), None);
            a.Some? && b.Some? && b.value.NewerThan(a.value)
  {
    var x, y := After(c, first), After(After(c, first), second);
    StampsIncrease(x, second);
    FromTimeRecovers(Stamp(x), x.clockId.value);
    FromTimeRecovers(Stamp(y), y.clockId.value);
    FromTimeShape(Stamp(x), x.clockId.value);
    FromTimeShape(Stamp(y), y.clockId.value);
    OrderIsChronological(NextTid(x, None).value, NextTid(y, None).value);
  }

  /**
   * `next(prev)` is newer than a `prev` whose time is well-formed. It fails exactly when the stamp has not eleven
   * digits, or when `prev` is not older and its time is the last one with eleven digits.
   */
  lemma NextIsNewer(c: Clock, prev: Tid)
    requires c.clockId.Some? && c.clockId.value < 1024 && prev.Valid() && WellFormed(prev.str[..11])
    ensures NextTid(c, Some(prev)).Some? ==> NextTid(c, Some(prev)).value.NewerThan(prev)
    ensures NextTid(c, Some(prev)).Some? <==>
              InRange(Stamp(c)) && (prev.Timestamp() + 1 < 36028797018963968
                                    || var tid := FromTime(Stamp(c), c.clockId.value);
                                       tid.Some? && tid.value.NewerThan(prev))
  {
    var id := c.clockId.value;
    DecodeBound(prev.str[..11]);
    Pow32Values();
    TwoDigitIds(Stamp(c), id);
    if InRange(Stamp(c)) {
      LaterTimeIsNewer(prev, Stamp(c), id);
      if !FromTime(Stamp(c), id).value.NewerThan(prev) {
        var t := prev.Timestamp() + 1;
        TwoDigitIds(t, id);
        if InRange(t) {
          LaterTimeIsNewer(prev, t, id);
        }
      }
    }
  }

  /** A later time decides, whatever the clock ids are made of. */
  lemma LaterTimeIsNewer(prev: Tid, t: nat, id: nat)
    requires prev.Valid() && WellFormed(prev.str[..11]) && InRange(t) && id < 1024
    ensures FromTime(t, id).Some?
    ensures prev.Timestamp() < t ==> FromTime(t, id).value.NewerThan(prev)
  {
    FromTimeRecovers(t, id);
    FromTimeShape(t, id);
    var tid := FromTime(t, id).value;
    OrderAgrees(prev.str[..11], tid.str[..11]);
    if prev.Timestamp() < t {
      LessExtends(prev.str[..11], tid.str[..11], prev.str[11..], tid.str[11..]);
      assert prev.str == prev.str[..11] + prev.str[11..] && tid.str == tid.str[..11] + tid.str[11..];
    }
  }

  lemma {:induction false} LessExtends(a: string, b: string, x: string, y: string)
    requires |a| == |b| && Less(a, b)
    ensures Less(a + x, b + y)
  {
    if a[0] == b[0] {
      assert (a + x)[1..] == a[1..] + x && (b + y)[1..] == b[1..] + y;
      LessExtends(a[1..], b[1..], x, y);
    }
  }

  /** With an id of two digits, only stamps of eleven digits give an identifier. */
  lemma TwoDigitIds(t: nat, c: nat)
    requires c < 1024
    ensures FromTime(t, c).Some? <==> InRange(t)
  {
    FromTimeShape(t, c);
    Pad2Ok(c);
    EncodeLength(t, 10);
    EncodeLength(t, 11);
    Pow32Values();
  }
}

/**
 * The time-based identifiers: a local second written with fourteen digits, the worker padded to four, a sequence number
 * within the second padded to three. Readings of the clock are parameters; the zone's offset is fixed over a run.
 */
module Snowflake {
  import opened Numbers
  import opened Decimal

  const SEQUENCES: int := 0x400
  const MAX_WORKER: int := 0xFFFF

  // ------------------------------------------------------------ the timestamp

  datatype Date = Date(year: nat, month: nat, day: nat)

  predicate IsLeap(year: nat)
  {
    year % 4 == 0 && (year % 100 != 0 || year % 400 == 0)
  }

  function DaysIn(year: nat, month: nat): nat
  {
    if month == 2 then (if IsLeap(year) then 29 else 28)
    else if month == 4 || month == 6 || month == 9 || month == 11 then 30
    else 31
  }

  function NextDay(d: Date): Date
  {
    if d.day < DaysIn(d.year, d.month) then d.(day := d.day + 1)
    else if d.month < 12 then Date(d.year, d.month + 1, 1)
    else Date(d.year + 1, 1, 1)
  }

  /** The date a number of days after 1 January 1970. */
  function DateOf(days: nat): (d: Date)
    ensures 1 <= d.month <= 12 && 1 <= d.day <= 31
  {
    if days == 0 then Date(1970, 1, 1) else NextDay(DateOf(days - 1))
  }

  /** Days before the month of a year, by the Gregorian calendar. */
  function DaysBefore(year: int, month: int): int
  {
    (367 * month - 362) / 12
    - (if month <= 2 then 0 else if year % 400 == 0 || (year % 4 == 0 && year % 100 != 0) then 1 else 2)
  }

  /** Days from 1 January 1970 to 1 January of a year. */
  function DaysToYear(year: int): int
  {
    365 * (year - 1970) + (year - 1) / 4 - (year - 1) / 100 + (year - 1) / 400 - 477
  }

  /** One year in four, in a hundred and in four hundred. */
  lemma FourthYears(year: nat)
    requires year >= 1
    ensures year / 4 - (year - 1) / 4 == if year % 4 == 0 then 1 else 0
  {
  }

  lemma Centuries(year: nat)
    requires year >= 1
    ensures year / 100 - (year - 1) / 100 == if year % 100 == 0 then 1 else 0
    ensures year / 400 - (year - 1) / 400 == if year % 400 == 0 then 1 else 0
  {
  }

  lemma HundredsAndFours(year: nat)
    ensures year % 100 == 0 ==> year % 4 == 0
    ensures year % 400 == 0 ==> year % 100 == 0
  {
    assert year == 4 * (25 * (year / 100)) + year % 100;
    assert year == 100 * (4 * (year / 400)) + year % 400;
  }

  lemma YearsAreLong(year: nat)
    requires year >= 1970
    ensures DaysToYear(year + 1) == DaysToYear(year) + DaysBefore(year, 12) + 31
  {
    FourthYears(year);
    Centuries(year);
    HundredsAndFours(year);
    assert DaysBefore(year, 12) == 336 - if year % 400 == 0 || (year % 4 == 0 && year % 100 != 0) then 1 else 2;
  }

  lemma MonthsAreLong(year: nat, month: nat)
    requires 1 <= month < 12
    ensures DaysBefore(year, month + 1) == DaysBefore(year, month) + DaysIn(year, month)
  {
    HundredsAndFours(year);
    match month {
      case 1 => case 2 => case 3 => case 4 => case 5 => case 6 => case 7 => case 8 => case 9 => case 10 => case 11 =>
    }
  }

  /** The date of a day is the one whose place in the Gregorian calendar is that day. */
  lemma {:induction false} DateIsTheCalendars(days: nat)
    ensures var d := DateOf(days);
            && d.year >= 1970 && 1 <= d.month <= 12 && 1 <= d.day <= DaysIn(d.year, d.month)
            && days == DaysToYear(d.year) + DaysBefore(d.year, d.month) + d.day - 1
  {
    if days > 0 {
      DateIsTheCalendars(days - 1);
      var d := DateOf(days - 1);
      if d.day == DaysIn(d.year, d.month) {
        if d.month < 12 { MonthsAreLong(d.year, d.month); } else { YearsAreLong(d.year); }
      }
    }
  }

  function DateNumber(d: Date): int
  {
    (d.year * 100 + d.month) * 100 + d.day
  }

  lemma {:induction false} DatesIncrease(a: nat, b: nat)
    requires a < b
    ensures DateNumber(DateOf(a)) < DateNumber(DateOf(b))
    ensures DateOf(a).year <= DateOf(b).year
    decreases b
  {
    if a < b - 1 {
      DatesIncrease(a, b - 1);
    }
  }

  /** A local second the four-digit year can show. */
  ghost predicate Shown(local: int)
  {
    local >= 0 && DateOf(local / 86400).year < 10000
  }

  datatype Field = Field(value: nat, width: nat)

  /** The fields of the layout 20060102150405. */
  function Fields(local: nat): seq<Field>
  {
    var d := DateOf(local / 86400);
    var s := local % 86400;
    [Field(d.year, 4), Field(d.month, 2), Field(d.day, 2), Field(s / 3600, 2), Field(s / 60 % 60, 2), Field(s % 60, 2)]
  }

  function Join(fields: seq<Field>): string
  {
    if fields == [] then ""
    else
      var f := fields[|fields| - 1];
      Join(fields[..|fields| - 1]) + Pad(f.value, f.width)
  }

  function Stamp(local: nat): string
  {
    Join(Fields(local))
  }

  lemma JoinNext(fields: seq<Field>, f: Field)
    requires IsDecimal(Join(fields))
    requires (f.width == 2 && f.value < 100) || (f.width == 4 && f.value < 10000)
    ensures |Join(fields + [f])| == |Join(fields)| + f.width && IsDecimal(Join(fields + [f]))
    ensures f.width == 2 ==> Value(Join(fields + [f])) == Value(Join(fields)) * 100 + f.value
    ensures fields == [] ==> Value(Join(fields + [f])) == f.value
  {
    assert (fields + [f])[..|fields + [f]| - 1] == fields;
    var text := Pad(f.value, f.width);
    PadReadsBack(f.value, f.width);
    PadWidth(f.value, f.width);
    assert Pow10(1) == 10 && Pow10(2) == 100 && Pow10(3) == 1000 && Pow10(4) == 10000;
    if f.width == 2 {
      TwoMoreDigits(Join(fields), text);
    }
    if fields == [] {
      assert Join(fields) + text == text;
    }
  }

  function ClockNumber(s: int): int
  {
    (s / 3600 * 100 + s / 60 % 60) * 100 + s % 60
  }

  lemma ClockIncreases(s: nat, t: nat)
    requires s < t < 86400
    ensures 0 <= ClockNumber(s) < ClockNumber(t) < 1000000
  {
    ClockParts(s);
    ClockParts(t);
    PartsIncrease(s / 3600, s / 60 % 60, s % 60, t / 3600, t / 60 % 60, t % 60);
  }

  lemma PartsIncrease(h: nat, m: nat, s: nat, h': nat, m': nat, s': nat)
    requires h < 24 && m < 60 && s < 60 && h' < 24 && m' < 60 && s' < 60
    requires (h * 60 + m) * 60 + s < (h' * 60 + m') * 60 + s'
    ensures (h * 100 + m) * 100 + s < (h' * 100 + m') * 100 + s' < 1000000
  {
  }

  lemma ClockParts(s: nat)
    requires s < 86400
    ensures s == (s / 3600 * 60 + s / 60 % 60) * 60 + s % 60
    ensures 0 <= s / 3600 < 24 && 0 <= s / 60 % 60 < 60 && 0 <= s % 60 < 60
  {
  }

  lemma StampValue(local: nat)
    requires Shown(local)
    ensures |Stamp(local)| == 14 && IsDecimal(Stamp(local))
    ensures Value(Stamp(local)) == DateNumber(DateOf(local / 86400)) * 1000000 + ClockNumber(local % 86400)
  {
    var all := Fields(local);
    ClockParts(local % 86400);
    assert all == [] + [all[0]] + [all[1]] + [all[2]] + [all[3]] + [all[4]] + [all[5]];
    assert Join([]) == "";
    JoinNext([], all[0]);
    JoinNext([] + [all[0]], all[1]);
    JoinNext([] + [all[0]] + [all[1]], all[2]);
    JoinNext([] + [all[0]] + [all[1]] + [all[2]], all[3]);
    JoinNext([] + [all[0]] + [all[1]] + [all[2]] + [all[3]], all[4]);
    JoinNext([] + [all[0]] + [all[1]] + [all[2]] + [all[3]] + [all[4]], all[5]);
  }

  /** The second that a timestamp's fourteen digits name. */
  function SecondOf(v: int): int
  {
    var year, month, day := v / 10000000000, v / 100000000 % 100, v / 1000000 % 100;
    86400 * (DaysToYear(year) + DaysBefore(year, month) + day - 1) + 3600 * (v / 10000 % 100) + 60 * (v / 100 % 100) + v % 100
  }

  /** And it is the second the timestamp was made of. */
  lemma StampNamesItsSecond(local: nat)
    requires Shown(local)
    ensures |Stamp(local)| == 14 && IsDecimal(Stamp(local)) && SecondOf(Value(Stamp(local))) == local
  {
    StampValue(local);
    DateIsTheCalendars(local / 86400);
    SecondOfParts(DateOf(local / 86400), local % 86400);
  }

  lemma SecondOfParts(d: Date, s: nat)
    requires d.month < 100 && d.day < 100 && s < 86400
    ensures SecondOf(DateNumber(d) * 1000000 + ClockNumber(s))
         == 86400 * (DaysToYear(d.year) + DaysBefore(d.year, d.month) + d.day - 1) + s
  {
    ClockParts(s);
    var h, m, sec := s / 3600, s / 60 % 60, s % 60;
    DigitsOf(d.year, d.month, d.day, h, m, sec);
    assert SecondOf(DateNumber(d) * 1000000 + ClockNumber(s))
        == 86400 * (DaysToYear(d.year) + DaysBefore(d.year, d.month) + d.day - 1) + 3600 * h + 60 * m + sec;
  }

  lemma DigitsOf(year: nat, month: nat, day: nat, hour: nat, minute: nat, second: nat)
    requires month < 100 && day < 100 && hour < 100 && minute < 100 && second < 100
    ensures var v := ((year * 100 + month) * 100 + day) * 1000000 + (hour * 100 + minute) * 100 + second;
            && v / 10000000000 == year && v / 100000000 % 100 == month && v / 1000000 % 100 == day
            && v / 10000 % 100 == hour && v / 100 % 100 == minute && v % 100 == second
  {
    var v := ((year * 100 + month) * 100 + day) * 1000000 + (hour * 100 + minute) * 100 + second;
    var a := ((year * 100 + month) * 100 + day) * 100 + hour;
    assert v / 100 == a * 100 + minute && v / 10000 == a;
    assert v / 1000000 == (year * 100 + month) * 100 + day;
    assert v / 100000000 == year * 100 + month && v / 10000000000 == year;
  }

  lemma StampWidth(local: nat)
    requires Shown(local)
    ensures |Stamp(local)| == 14
  {
    StampValue(local);
  }

  /** Later seconds have later timestamps, as text. */
  lemma StampsInOrder(a: nat, b: nat)
    requires a < b && Shown(b)
    ensures Shown(a)
    ensures |Stamp(a)| == |Stamp(b)| == 14 && Before(Stamp(a), Stamp(b))
  {
    var p, q := a / 86400, b / 86400;
    if p < q {
      DatesIncrease(p, q);
      if b % 86400 > 0 {
        ClockIncreases(0, b % 86400);
      }
      ClockParts(a % 86400);
    } else {
      ClockIncreases(a % 86400, b % 86400);
    }
    StampValue(a);
    StampValue(b);
    SmallerComesBefore(Stamp(a), Stamp(b));
  }

  // ------------------------------------------------------------ the generator

  datatype Generator = Generator(workerID: int, lastTime: int, sequence: int)

  /** One call's clock: the second read on entry, and the one that ends the wait if the sequence runs out. */
  datatype Reading = Reading(now: int, awaited: int)

  /** What an identifier is made of, and whether its sequence had run out. */
  datatype Issue = Issue(second: int, sequence: int, wrapped: bool)

  datatype Outcome = Issued(generator: Generator, issue: Issue) | ClockMovedBackwards

  /** The panic leaves the generator as it was. */
  function Generate(g: Generator, r: Reading): Outcome
  {
    if r.now < g.lastTime then
      ClockMovedBackwards
    else if r.now == g.lastTime then
      var next := (g.sequence + 1) % SEQUENCES;
      if next == 0 then
        Issued(g.(lastTime := r.awaited, sequence := 0), Issue(r.now, 0, true))
      else
        Issued(g.(sequence := next), Issue(r.now, next, false))
    else
      Issued(g.(lastTime := r.now, sequence := 0), Issue(r.now, 0, false))
  }

  function Id(workerID: nat, zone: int, issue: Issue): string
    requires issue.second + zone >= 0 && issue.sequence >= 0
  {
    Stamp(issue.second + zone) + Pad(workerID, 4) + Pad(issue.sequence, 3)
  }

  /** The wait ends in a later second; the year has four digits; seconds are counted from 1970. */
  ghost predicate Possible(r: Reading, zone: int)
  {
    r.now >= 1 && r.awaited > r.now && Shown(r.now + zone)
  }

  ghost predicate AllPossible(readings: seq<Reading>, zone: int)
  {
    forall i :: 0 <= i < |readings| ==> Possible(readings[i], zone)
  }

  function After(g: Generator, readings: seq<Reading>): Generator
    decreases |readings|
  {
    if readings == [] then g
    else
      var before := After(g, readings[..|readings| - 1]);
      var o := Generate(before, readings[|readings| - 1]);
      if o.Issued? then o.generator else before
  }

  /** The identifiers issued by a run of calls; calls that panic issue none. */
  function Issues(g: Generator, readings: seq<Reading>): seq<Issue>
    decreases |readings|
  {
    if readings == [] then []
    else
      var earlier := readings[..|readings| - 1];
      var o := Generate(After(g, earlier), readings[|readings| - 1]);
      Issues(g, earlier) + if o.Issued? then [o.issue] else []
  }

  predicate LexLess(t: int, s: int, t': int, s': int)
  {
    t < t' || (t == t' && s < s')
  }

  /** Whatever the clock does, every identifier moves (lastTime, sequence) strictly forward, also when it wraps. */
  lemma EveryIdMovesForward(g: Generator, r: Reading)
    requires 0 <= g.sequence < SEQUENCES && r.awaited > r.now
    requires Generate(g, r).Issued?
    ensures
      var h := Generate(g, r).generator;
      && LexLess(g.lastTime, g.sequence, h.lastTime, h.sequence)
      && 0 <= h.sequence < SEQUENCES
  {
  }

  ghost predicate WaitsPass(readings: seq<Reading>)
  {
    forall i :: 0 <= i < |readings| ==> readings[i].awaited > readings[i].now
  }

  /**
   * Over any stretch of any run, under any clock: either every call of the stretch refused and nothing changed, or
   * (lastTime, sequence) moved strictly forward.
   */
  lemma {:induction false} RunMovesForward(g: Generator, first: seq<Reading>, second: seq<Reading>)
    requires 0 <= g.sequence < SEQUENCES && WaitsPass(first) && WaitsPass(second)
    ensures
      var a, b := After(g, first), After(g, first + second);
      && 0 <= a.sequence < SEQUENCES && 0 <= b.sequence < SEQUENCES
      && ((a == b && Issues(g, first + second) == Issues(g, first))
          || LexLess(a.lastTime, a.sequence, b.lastTime, b.sequence))
    decreases |first| + |second|
  {
    if second != [] {
      var n := |second| - 1;
      RunMovesForward(g, first, second[..n]);
      assert (first + second)[..|first + second| - 1] == first + second[..n];
      var before := After(g, first + second[..n]);
      if Generate(before, second[n]).Issued? {
        EveryIdMovesForward(before, second[n]);
      }
    } else if first != [] {
      assert first + second == first;
      var n := |first| - 1;
      RunMovesForward(g, first[..n], []);
      assert first[..n] + [] == first[..n];
      if Generate(After(g, first[..n]), first[n]).Issued? {
        EveryIdMovesForward(After(g, first[..n]), first[n]);
      }
    }
  }

  function Fresh(workerID: int): Generator
  {
    Generator(workerID, 0, 0)
  }

  ghost predicate NoWrap(issues: seq<Issue>)
  {
    forall i :: 0 <= i < |issues| ==> !issues[i].wrapped
  }

  ghost predicate Distinct(workerID: nat, zone: int, issues: seq<Issue>)
    requires AllShown(issues, zone)
  {
    forall i, j :: 0 <= i < j < |issues| ==> Id(workerID, zone, issues[i]) != Id(workerID, zone, issues[j])
  }

  ghost predicate Sorted(workerID: nat, zone: int, issues: seq<Issue>)
  {
    forall i, j :: 0 <= i < j < |issues| ==> Precedes(workerID, zone, issues[i], issues[j])
  }

  ghost predicate Precedes(workerID: nat, zone: int, a: Issue, b: Issue)
  {
    && a.second + zone >= 0 && b.second + zone >= 0 && a.sequence >= 0 && b.sequence >= 0
    && Before(Id(workerID, zone, a), Id(workerID, zone, b))
  }

  ghost predicate AllShown(issues: seq<Issue>, zone: int)
  {
    forall i :: 0 <= i < |issues| ==> IssueShown(issues[i], zone)
  }

  ghost predicate IssueShown(issue: Issue, zone: int)
  {
    issue.second >= 1 && Shown(issue.second + zone) && 0 <= issue.sequence < SEQUENCES
  }

  ghost predicate InOrder(issues: seq<Issue>)
  {
    forall i, j :: 0 <= i < j < |issues| ==>
      LexLess(issues[i].second, issues[i].sequence, issues[j].second, issues[j].sequence)
  }

  ghost predicate Contains(issues: seq<Issue>, second: int, sequence: int)
  {
    exists i :: 0 <= i < |issues| && issues[i].second == second && issues[i].sequence == sequence
  }

  /** What holds after any run of a fresh generator. */
  ghost predicate Inv(g: Generator, issues: seq<Issue>, zone: int)
  {
    && 0 <= g.sequence < SEQUENCES && g.lastTime >= 0
    && AllShown(issues, zone)
    && (issues == [] ==> g.lastTime == 0 && g.sequence == 0)
    && (g.sequence > 0 ==> issues != [] && issues[|issues| - 1] == Issue(g.lastTime, g.sequence, false))
    && (NoWrap(issues) ==>
          && InOrder(issues)
          && (issues != [] ==>
                && issues[|issues| - 1] == Issue(g.lastTime, g.sequence, false)
                && Contains(issues, g.lastTime, 0)))
  }

  lemma GenerateKeeps(g: Generator, issues: seq<Issue>, r: Reading, zone: int)
    requires Inv(g, issues, zone) && Possible(r, zone) && Generate(g, r).Issued?
    ensures Inv(Generate(g, r).generator, issues + [Generate(g, r).issue], zone)
  {
    var o := Generate(g, r);
    var all := issues + [o.issue];
    assert all[|issues|] == o.issue;
    ShownGoesOn(issues, o.issue, zone);
    if NoWrap(all) {
      assert NoWrap(issues) by {
        assert forall i :: 0 <= i < |issues| ==> all[i] == issues[i];
      }
      ZeroStaysIssued(g, issues, r, zone);
      OrderGoesOn(g, issues, r, zone);
    }
  }

  lemma ShownGoesOn(issues: seq<Issue>, issue: Issue, zone: int)
    requires AllShown(issues, zone) && IssueShown(issue, zone)
    ensures AllShown(issues + [issue], zone)
  {
  }

  lemma ZeroStaysIssued(g: Generator, issues: seq<Issue>, r: Reading, zone: int)
    requires Inv(g, issues, zone) && Possible(r, zone) && NoWrap(issues)
    requires Generate(g, r).Issued? && !Generate(g, r).issue.wrapped
    ensures Contains(issues + [Generate(g, r).issue], Generate(g, r).generator.lastTime, 0)
  {
    var all := issues + [Generate(g, r).issue];
    if r.now == g.lastTime {
      var k :| 0 <= k < |issues| && issues[k].second == g.lastTime && issues[k].sequence == 0;
      assert all[k].second == r.now && all[k].sequence == 0;
    } else {
      assert all[|issues|].second == r.now && all[|issues|].sequence == 0;
    }
  }

  lemma OrderGoesOn(g: Generator, issues: seq<Issue>, r: Reading, zone: int)
    requires Inv(g, issues, zone) && Possible(r, zone) && NoWrap(issues)
    requires Generate(g, r).Issued? && !Generate(g, r).issue.wrapped
    ensures InOrder(issues + [Generate(g, r).issue])
  {
  }

  lemma {:induction false} RunKeeps(workerID: int, readings: seq<Reading>, zone: int)
    requires AllPossible(readings, zone)
    ensures Inv(After(Fresh(workerID), readings), Issues(Fresh(workerID), readings), zone)
    decreases |readings|
  {
    if readings != [] {
      var n := |readings| - 1;
      RunKeeps(workerID, readings[..n], zone);
      var g := After(Fresh(workerID), readings[..n]);
      if Generate(g, readings[n]).Issued? {
        GenerateKeeps(g, Issues(Fresh(workerID), readings[..n]), readings[n], zone);
      } else {
        assert Issues(Fresh(workerID), readings) == Issues(Fresh(workerID), readings[..n]);
      }
    }
  }

  // ------------------------------------------------------- the strings issued

  lemma SameStamp(a: nat, b: nat)
    requires Shown(a) && Shown(b) && Stamp(a) == Stamp(b)
    ensures a == b
  {
    if a < b {
      StampsInOrder(a, b);
      BeforeIsStrict(Stamp(a), Stamp(b));
    } else if b < a {
      StampsInOrder(b, a);
      BeforeIsStrict(Stamp(b), Stamp(a));
    }
  }

  lemma SameParts(s: string, t: string, w: string, p: nat, q: nat)
    requires |s| == |t| && s + w + Pad(p, 3) == t + w + Pad(q, 3)
    ensures s == t && p == q
  {
    EqualHalves(s + w, t + w, Pad(p, 3), Pad(q, 3));
    EqualHalves(s, t, w, w);
    PadReadsBack(p, 3);
    PadReadsBack(q, 3);
  }

  lemma PartsOf(workerID: nat, zone: int, a: Issue, b: Issue)
    requires a.second + zone >= 0 && b.second + zone >= 0 && a.sequence >= 0 && b.sequence >= 0
    requires |Stamp(a.second + zone)| == |Stamp(b.second + zone)|
    requires Id(workerID, zone, a) == Id(workerID, zone, b)
    ensures Stamp(a.second + zone) == Stamp(b.second + zone) && a.sequence == b.sequence
  {
    SameParts(Stamp(a.second + zone), Stamp(b.second + zone), Pad(workerID, 4), a.sequence, b.sequence);
  }

  lemma SameId(workerID: nat, zone: int, a: Issue, b: Issue)
    requires Shown(a.second + zone) && Shown(b.second + zone) && a.sequence >= 0 && b.sequence >= 0
    requires Id(workerID, zone, a) == Id(workerID, zone, b)
    ensures a.second == b.second && a.sequence == b.sequence
  {
    StampWidth(a.second + zone);
    StampWidth(b.second + zone);
    PartsOf(workerID, zone, a, b);
    SameStamp(a.second + zone, b.second + zone);
  }

  lemma LaterSecond(workerID: nat, zone: int, a: Issue, b: Issue)
    requires a.second < b.second && a.second + zone >= 0 && Shown(b.second + zone)
    requires a.sequence >= 0 && b.sequence >= 0
    ensures Before(Id(workerID, zone, a), Id(workerID, zone, b))
  {
    StampsInOrder(a.second + zone, b.second + zone);
    EarlierStamp(workerID, zone, a, b);
  }

  lemma EarlierStamp(workerID: nat, zone: int, a: Issue, b: Issue)
    requires a.second + zone >= 0 && b.second + zone >= 0 && a.sequence >= 0 && b.sequence >= 0
    requires Before(Stamp(a.second + zone), Stamp(b.second + zone))
    requires |Stamp(a.second + zone)| == |Stamp(b.second + zone)|
    ensures Before(Id(workerID, zone, a), Id(workerID, zone, b))
  {
    EarlierPrefix(Stamp(a.second + zone), Stamp(b.second + zone), Pad(workerID, 4), Pad(a.sequence, 3), Pad(b.sequence, 3));
  }

  lemma EarlierPrefix(s: string, t: string, w: string, p: string, q: string)
    requires Before(s, t) && |s| == |t|
    ensures Before(s + w + p, t + w + q)
  {
    BeforeExtends(s, t, w, w);
    BeforeExtends(s + w, t + w, p, q);
  }

  lemma SameSecond(workerID: nat, zone: int, a: Issue, b: Issue)
    requires a.second == b.second && a.second + zone >= 0 && 0 <= a.sequence && 0 <= b.sequence
    requires Before(Pad(a.sequence, 3), Pad(b.sequence, 3))
    ensures Before(Id(workerID, zone, a), Id(workerID, zone, b))
  {
    BeforeBehind(Stamp(a.second + zone) + Pad(workerID, 4), Pad(a.sequence, 3), Pad(b.sequence, 3));
  }

  lemma ThreeDigitsInOrder(p: nat, q: nat)
    requires p < q < 1000
    ensures Before(Pad(p, 3), Pad(q, 3))
  {
    assert Pow10(1) == 10 && Pow10(2) == 100 && Pow10(3) == 1000;
    PadWidth(p, 3);
    PadWidth(q, 3);
    PadReadsBack(p, 3);
    PadReadsBack(q, 3);
    SmallerComesBefore(Pad(p, 3), Pad(q, 3));
  }

  /** As text, number 1000 of a second sorts before number 999. */
  lemma FourDigitsComeFirst()
    ensures Before(Pad(1000, 3), Pad(999, 3))
  {
    assert Pad(1000, 3) == "1000";
    assert Pad(999, 3) == Pad(99, 2) + "9" == Pad(9, 1) + "9" + "9" == "999";
    assert "1000"[..0] == "999"[..0];
    assert FirstDifference("1000", "999", 0);
  }

  // ------------------------------------------------------------- distinctness

  /** A wrap repeats the first identifier of the second, as the text keeps the second read on entry. */
  ghost predicate Repeats(issues: seq<Issue>)
  {
    exists i, j :: 0 <= i < j < |issues| && SameMark(issues[i], issues[j])
  }

  predicate SameMark(a: Issue, b: Issue)
  {
    a.second == b.second && a.sequence == b.sequence
  }

  lemma WrapRepeats(g: Generator, issues: seq<Issue>, r: Reading, zone: int)
    requires Inv(g, issues, zone) && Possible(r, zone) && NoWrap(issues)
    requires Generate(g, r).Issued? && Generate(g, r).issue.wrapped
    ensures Repeats(issues + [Generate(g, r).issue])
  {
    var all := issues + [Generate(g, r).issue];
    var k :| 0 <= k < |issues| && issues[k].second == g.lastTime && issues[k].sequence == 0;
    assert SameMark(all[k], all[|issues|]);
  }

  lemma {:induction false} SomeWrapRepeats(workerID: nat, readings: seq<Reading>, zone: int)
    requires AllPossible(readings, zone)
    ensures NoWrap(Issues(Fresh(workerID), readings)) || Repeats(Issues(Fresh(workerID), readings))
    decreases |readings|
  {
    if readings != [] {
      var n := |readings| - 1;
      var earlier := Issues(Fresh(workerID), readings[..n]);
      SomeWrapRepeats(workerID, readings[..n], zone);
      RunKeeps(workerID, readings[..n], zone);
      var o := Generate(After(Fresh(workerID), readings[..n]), readings[n]);
      var all := Issues(Fresh(workerID), readings);
      if Repeats(earlier) {
        var i, j :| 0 <= i < j < |earlier| && SameMark(earlier[i], earlier[j]);
        assert SameMark(all[i], all[j]);
      } else if o.Issued? && o.issue.wrapped {
        WrapRepeats(After(Fresh(workerID), readings[..n]), earlier, readings[n], zone);
      }
    }
  }

  lemma OrderedIdsDiffer(workerID: nat, zone: int, issues: seq<Issue>)
    requires AllShown(issues, zone) && InOrder(issues)
    ensures Distinct(workerID, zone, issues)
  {
    forall i, j | 0 <= i < j < |issues|
      ensures Id(workerID, zone, issues[i]) != Id(workerID, zone, issues[j])
    {
      if Id(workerID, zone, issues[i]) == Id(workerID, zone, issues[j]) {
        SameId(workerID, zone, issues[i], issues[j]);
      }
    }
  }

  lemma RepeatedIds(workerID: nat, zone: int, issues: seq<Issue>)
    requires AllShown(issues, zone) && Repeats(issues)
    ensures !Distinct(workerID, zone, issues)
  {
  }

  /** Over every run of a new generator: its identifiers are pairwise distinct exactly when no second ran out. */
  lemma DistinctUnlessASecondRunsOut(workerID: nat, readings: seq<Reading>, zone: int)
    requires AllPossible(readings, zone)
    ensures AllShown(Issues(Fresh(workerID), readings), zone)
    ensures Distinct(workerID, zone, Issues(Fresh(workerID), readings)) <==> NoWrap(Issues(Fresh(workerID), readings))
  {
    var issues := Issues(Fresh(workerID), readings);
    RunKeeps(workerID, readings, zone);
    SomeWrapRepeats(workerID, readings, zone);
    if NoWrap(issues) {
      OrderedIdsDiffer(workerID, zone, issues);
    } else {
      RepeatedIds(workerID, zone, issues);
    }
  }

  // -------------------------------------------------------------- sortability

  ghost predicate ThreeDigits(issues: seq<Issue>)
  {
    forall i :: 0 <= i < |issues| ==> issues[i].sequence < 1000
  }

  /** A thousand identifiers in one second put two neighbours out of order. */
  ghost predicate OutOfOrder(issues: seq<Issue>)
  {
    exists i :: 0 < i < |issues| && PastTheThousand(issues[i - 1], issues[i])
  }

  predicate PastTheThousand(a: Issue, b: Issue)
  {
    a.second == b.second && a.sequence == 999 && b.sequence == 1000
  }

  lemma {:induction false} WideSequences(workerID: nat, readings: seq<Reading>, zone: int)
    requires AllPossible(readings, zone)
    ensures
      var issues := Issues(Fresh(workerID), readings);
      (ThreeDigits(issues) && NoWrap(issues)) || (OutOfOrder(issues) && !ThreeDigits(issues))
    decreases |readings|
  {
    if readings != [] {
      var n := |readings| - 1;
      var earlier := Issues(Fresh(workerID), readings[..n]);
      WideSequences(workerID, readings[..n], zone);
      RunKeeps(workerID, readings[..n], zone);
      var g := After(Fresh(workerID), readings[..n]);
      var o := Generate(g, readings[n]);
      var all := Issues(Fresh(workerID), readings);
      if !o.Issued? {
        assert all == earlier;
      } else {
        assert all == earlier + [o.issue];
        NextSequence(g, earlier, readings[n], zone);
      }
    }
  }

  lemma NextSequence(g: Generator, earlier: seq<Issue>, r: Reading, zone: int)
    requires Inv(g, earlier, zone) && Possible(r, zone) && Generate(g, r).Issued?
    requires (ThreeDigits(earlier) && NoWrap(earlier)) || (OutOfOrder(earlier) && !ThreeDigits(earlier))
    ensures
      var issues := earlier + [Generate(g, r).issue];
      (ThreeDigits(issues) && NoWrap(issues)) || (OutOfOrder(issues) && !ThreeDigits(issues))
  {
    var issue := Generate(g, r).issue;
    var all := earlier + [issue];
    if !ThreeDigits(earlier) {
      var i :| 0 < i < |earlier| && PastTheThousand(earlier[i - 1], earlier[i]);
      assert PastTheThousand(all[i - 1], all[i]);
    } else if issue.sequence >= 1000 {
      assert PastTheThousand(all[|earlier| - 1], all[|earlier|]);
    }
  }

  lemma OrderedIdsSort(workerID: nat, zone: int, issues: seq<Issue>)
    requires AllShown(issues, zone) && InOrder(issues) && ThreeDigits(issues)
    ensures Sorted(workerID, zone, issues)
  {
    forall i, j | 0 <= i < j < |issues|
      ensures Precedes(workerID, zone, issues[i], issues[j])
    {
      assert LexLess(issues[i].second, issues[i].sequence, issues[j].second, issues[j].sequence);
      PairSorts(workerID, zone, issues[i], issues[j]);
    }
  }

  lemma PairSorts(workerID: nat, zone: int, a: Issue, b: Issue)
    requires a.second + zone >= 0 && Shown(b.second + zone) && 0 <= a.sequence && 0 <= b.sequence < 1000
    requires LexLess(a.second, a.sequence, b.second, b.sequence)
    ensures Precedes(workerID, zone, a, b)
  {
    if a.second < b.second {
      LaterSecond(workerID, zone, a, b);
    } else {
      ThreeDigitsInOrder(a.sequence, b.sequence);
      SameSecond(workerID, zone, a, b);
    }
  }

  lemma ThousandUnsorts(workerID: nat, zone: int, issues: seq<Issue>)
    requires AllShown(issues, zone) && OutOfOrder(issues)
    ensures !Sorted(workerID, zone, issues)
  {
    var i :| 0 < i < |issues| && PastTheThousand(issues[i - 1], issues[i]);
    FourDigitsComeFirst();
    SameSecond(workerID, zone, issues[i], issues[i - 1]);
    BeforeIsStrict(Id(workerID, zone, issues[i]), Id(workerID, zone, issues[i - 1]));
  }

  /** Over every run of a new generator: identifiers sort as text in the order of issue exactly when none passed 999. */
  lemma SortedUnlessAThousand(workerID: nat, readings: seq<Reading>, zone: int)
    requires AllPossible(readings, zone)
    ensures AllShown(Issues(Fresh(workerID), readings), zone)
    ensures Sorted(workerID, zone, Issues(Fresh(workerID), readings)) <==> ThreeDigits(Issues(Fresh(workerID), readings))
  {
    var issues := Issues(Fresh(workerID), readings);
    RunKeeps(workerID, readings, zone);
    WideSequences(workerID, readings, zone);
    if ThreeDigits(issues) {
      OrderedIdsSort(workerID, zone, issues);
    } else {
      ThousandUnsorts(workerID, zone, issues);
    }
  }

  // ------------------------------------------- both conditions, on the readings

  ghost predicate InClockOrder(readings: seq<Reading>)
  {
    forall i, j :: 0 <= i < j < |readings| ==> readings[i].now <= readings[j].now
  }

  /** No k + 1 calls in a row read the same second. */
  ghost predicate Spread(readings: seq<Reading>, k: nat)
  {
    forall i :: 0 <= i < |readings| - k ==> readings[i].now < readings[i + k].now
  }

  /** The last q + 1 readings, and no more, are of the second `last`. */
  ghost predicate Steady(readings: seq<Reading>, last: int, q: int)
  {
    var n := |readings|;
    && 0 <= q < n && readings[n - 1].now == last && readings[n - 1 - q].now == last
    && (q + 1 < n ==> readings[n - 2 - q].now < last)
  }

  lemma OneMoreCall(workerID: nat, earlier: seq<Reading>, r: Reading)
    ensures var f := Fresh(workerID);
            var o := Generate(After(f, earlier), r);
            && After(f, earlier + [r]) == (if o.Issued? then o.generator else After(f, earlier))
            && Issues(f, earlier + [r]) == Issues(f, earlier) + (if o.Issued? then [o.issue] else [])
  {
    assert (earlier + [r])[..|earlier|] == earlier;
  }

  lemma SequenceStep(g: Generator, earlier: seq<Reading>, r: Reading)
    requires Steady(earlier, g.lastTime, g.sequence) && InClockOrder(earlier + [r]) && g.sequence < SEQUENCES
    requires Generate(g, r).Issued? && !Generate(g, r).issue.wrapped
    ensures var h := Generate(g, r).generator; Steady(earlier + [r], h.lastTime, h.sequence)
  {
    var n, all := |earlier|, earlier + [r];
    assert all[n - 1].now <= all[n].now;
  }

  lemma NoWrapPrefix(issues: seq<Issue>, more: seq<Issue>)
    requires NoWrap(issues + more)
    ensures NoWrap(issues) && NoWrap(more)
  {
    forall i | 0 <= i < |issues|
      ensures !issues[i].wrapped
    {
      assert (issues + more)[i] == issues[i];
    }
    forall i | 0 <= i < |more|
      ensures !more[i].wrapped
    {
      assert (issues + more)[|issues| + i] == more[i];
    }
  }

  /** As long as nothing wraps, the sequence counts the calls of the second. */
  lemma {:induction false} SequenceCounts(workerID: nat, readings: seq<Reading>, zone: int)
    requires AllPossible(readings, zone) && InClockOrder(readings) && readings != []
    requires NoWrap(Issues(Fresh(workerID), readings))
    ensures var g := After(Fresh(workerID), readings); Steady(readings, g.lastTime, g.sequence)
    decreases |readings|
  {
    var n := |readings| - 1;
    var earlier, r := readings[..n], readings[n];
    OneFewer(readings, zone);
    if n == 0 {
      FirstCall(workerID, r);
      OneMoreCall(workerID, [], r);
      assert readings == [] + [r];
    } else {
      OneMoreCall(workerID, earlier, r);
      var more := if Generate(After(Fresh(workerID), earlier), r).Issued? then [Generate(After(Fresh(workerID), earlier), r).issue] else [];
      NoWrapPrefix(Issues(Fresh(workerID), earlier), more);
      SequenceCounts(workerID, earlier, zone);
      SequenceGoesOn(workerID, earlier, r, zone);
    }
  }

  lemma SequenceGoesOn(workerID: nat, earlier: seq<Reading>, r: Reading, zone: int)
    requires AllPossible(earlier, zone) && InClockOrder(earlier + [r]) && earlier != []
    requires var g := After(Fresh(workerID), earlier); Steady(earlier, g.lastTime, g.sequence)
    requires NoWrap(Issues(Fresh(workerID), earlier + [r]))
    ensures var g := After(Fresh(workerID), earlier + [r]); Steady(earlier + [r], g.lastTime, g.sequence)
  {
    var g := After(Fresh(workerID), earlier);
    var o := Generate(g, r);
    RunKeeps(workerID, earlier, zone);
    OneMoreCall(workerID, earlier, r);
    NowInOrder(earlier + [r], |earlier| - 1, |earlier|);
    NoWrapPrefix(Issues(Fresh(workerID), earlier), [o.issue]);
    assert ![o.issue][0].wrapped;
    SequenceStep(g, earlier, r);
  }

  lemma OneFewer(readings: seq<Reading>, zone: int)
    requires AllPossible(readings, zone) && InClockOrder(readings) && readings != []
    ensures var n := |readings| - 1;
            && AllPossible(readings[..n], zone) && InClockOrder(readings[..n]) && readings[n].now >= 1
            && readings[..n] + [readings[n]] == readings
  {
    var n := |readings| - 1;
    assert Possible(readings[n], zone);
    forall i | 0 <= i < n
      ensures Possible(readings[..n][i], zone)
    {
      assert Possible(readings[i], zone);
    }
  }

  lemma NowInOrder(readings: seq<Reading>, i: int, j: int)
    requires InClockOrder(readings) && 0 <= i <= j < |readings|
    ensures readings[i].now <= readings[j].now
  {
  }

  /** One more reading crowds its second exactly when it makes k + 1 in a row. */
  lemma CrowdedByOneMore(earlier: seq<Reading>, r: Reading, last: int, q: int, k: nat)
    requires InClockOrder(earlier + [r]) && Steady(earlier, last, q) && k > 0
    requires Spread(earlier, k)
    ensures Spread(earlier + [r], k) <==> !(r.now == last && q + 1 >= k)
  {
    var n, all := |earlier|, earlier + [r];
    NowInOrder(all, n - 1, n);
    if n >= k {
      if q + 1 >= k {
        NowInOrder(all, n - 1 - q, n - k);
        NowInOrder(all, n - k, n - 1);
      } else {
        NowInOrder(all, n - k, n - 2 - q);
      }
      SpreadAtTheEnd(earlier, r, k);
    } else {
      assert q + 1 <= n;
      assert Spread(all, k);
    }
  }

  lemma SpreadAtTheEnd(earlier: seq<Reading>, r: Reading, k: nat)
    requires Spread(earlier, k) && 0 < k <= |earlier|
    ensures Spread(earlier + [r], k) <==> earlier[|earlier| - k].now < r.now
  {
    var n, all := |earlier|, earlier + [r];
    if Spread(all, k) {
      assert all[n - k].now < all[n - k + k].now;
    }
    forall i | 0 <= i < n - k
      ensures all[i].now < all[i + k].now
    {
      assert earlier[i].now < earlier[i + k].now;
    }
  }

  lemma SpreadPrefix(earlier: seq<Reading>, r: Reading, k: nat)
    requires Spread(earlier + [r], k)
    ensures Spread(earlier, k)
  {
    var all := earlier + [r];
    forall i | 0 <= i < |earlier| - k
      ensures earlier[i].now < earlier[i + k].now
    {
      assert all[i].now < all[i + k].now;
    }
  }

  lemma {:induction false} WrapsWhenCrowded(workerID: nat, readings: seq<Reading>, zone: int)
    requires AllPossible(readings, zone) && InClockOrder(readings)
    ensures NoWrap(Issues(Fresh(workerID), readings)) <==> Spread(readings, 1024)
    decreases |readings|
  {
    if readings != [] {
      var n := |readings| - 1;
      OneFewer(readings, zone);
      if n == 0 {
        FirstCall(workerID, readings[0]);
        assert readings == [readings[0]];
      } else {
        WrapsWhenCrowded(workerID, readings[..n], zone);
        WrapsNext(workerID, readings[..n], readings[n], zone);
      }
    }
  }

  lemma WrapsNext(workerID: nat, earlier: seq<Reading>, r: Reading, zone: int)
    requires AllPossible(earlier, zone) && InClockOrder(earlier) && InClockOrder(earlier + [r]) && earlier != []
    requires NoWrap(Issues(Fresh(workerID), earlier)) <==> Spread(earlier, 1024)
    ensures NoWrap(Issues(Fresh(workerID), earlier + [r])) <==> Spread(earlier + [r], 1024)
  {
    var g, issues := After(Fresh(workerID), earlier), Issues(Fresh(workerID), earlier);
    var more := if Generate(g, r).Issued? then [Generate(g, r).issue] else [];
    OneMoreCall(workerID, earlier, r);
    if NoWrap(issues) {
      SequenceCounts(workerID, earlier, zone);
      RunKeeps(workerID, earlier, zone);
      CrowdedByOneMore(earlier, r, g.lastTime, g.sequence, 1024);
      NowInOrder(earlier + [r], |earlier| - 1, |earlier|);
      WrapStep(g, issues, r);
    } else {
      if NoWrap(issues + more) { NoWrapPrefix(issues, more); }
      if Spread(earlier + [r], 1024) { SpreadPrefix(earlier, r, 1024); }
    }
  }

  lemma FirstCall(workerID: nat, r: Reading)
    requires r.now >= 1
    ensures Issues(Fresh(workerID), [r]) == [Issue(r.now, 0, false)]
  {
    OneMoreCall(workerID, [], r);
    assert [] + [r] == [r];
  }

  lemma WrapStep(g: Generator, issues: seq<Issue>, r: Reading)
    requires 0 <= g.sequence < SEQUENCES && g.lastTime <= r.now && NoWrap(issues)
    ensures var o := Generate(g, r);
            o.Issued? && (NoWrap(issues + [o.issue]) <==> !(r.now == g.lastTime && g.sequence + 1 >= 1024))
  {
    var all := issues + [Generate(g, r).issue];
    assert all[|issues|] == Generate(g, r).issue;
  }

  lemma ThreeDigitsPrefix(issues: seq<Issue>, more: seq<Issue>)
    requires ThreeDigits(issues + more)
    ensures ThreeDigits(issues)
  {
    forall i | 0 <= i < |issues|
      ensures issues[i].sequence < 1000
    {
      assert (issues + more)[i] == issues[i];
    }
  }

  lemma {:induction false} WideWhenCrowded(workerID: nat, readings: seq<Reading>, zone: int)
    requires AllPossible(readings, zone) && InClockOrder(readings)
    ensures ThreeDigits(Issues(Fresh(workerID), readings)) <==> Spread(readings, 1000)
    decreases |readings|
  {
    if readings != [] {
      var n := |readings| - 1;
      OneFewer(readings, zone);
      if n == 0 {
        FirstCall(workerID, readings[0]);
        assert readings == [readings[0]];
      } else {
        WideWhenCrowded(workerID, readings[..n], zone);
        WideNext(workerID, readings[..n], readings[n], zone);
      }
    }
  }

  lemma WideNext(workerID: nat, earlier: seq<Reading>, r: Reading, zone: int)
    requires AllPossible(earlier, zone) && InClockOrder(earlier) && InClockOrder(earlier + [r]) && earlier != []
    requires ThreeDigits(Issues(Fresh(workerID), earlier)) <==> Spread(earlier, 1000)
    ensures ThreeDigits(Issues(Fresh(workerID), earlier + [r])) <==> Spread(earlier + [r], 1000)
  {
    var g, issues := After(Fresh(workerID), earlier), Issues(Fresh(workerID), earlier);
    var more := if Generate(g, r).Issued? then [Generate(g, r).issue] else [];
    OneMoreCall(workerID, earlier, r);
    if ThreeDigits(issues) {
      NarrowSoFar(workerID, earlier, zone);
      CrowdedByOneMore(earlier, r, g.lastTime, g.sequence, 1000);
      NowInOrder(earlier + [r], |earlier| - 1, |earlier|);
      WideStep(g, issues, r);
    } else {
      if ThreeDigits(issues + more) { ThreeDigitsPrefix(issues, more); }
      if Spread(earlier + [r], 1000) { SpreadPrefix(earlier, r, 1000); }
    }
  }

  lemma NarrowSoFar(workerID: nat, earlier: seq<Reading>, zone: int)
    requires AllPossible(earlier, zone) && InClockOrder(earlier) && earlier != []
    requires ThreeDigits(Issues(Fresh(workerID), earlier))
    ensures var g := After(Fresh(workerID), earlier); Steady(earlier, g.lastTime, g.sequence) && g.sequence < 1000
  {
    WideSequences(workerID, earlier, zone);
    SequenceCounts(workerID, earlier, zone);
    RunKeeps(workerID, earlier, zone);
  }

  lemma WideStep(g: Generator, issues: seq<Issue>, r: Reading)
    requires 0 <= g.sequence < 1000 && g.lastTime <= r.now && ThreeDigits(issues)
    ensures var o := Generate(g, r);
            o.Issued? && (ThreeDigits(issues + [o.issue]) <==> !(r.now == g.lastTime && g.sequence + 1 >= 1000))
  {
    var all := issues + [Generate(g, r).issue];
    assert all[|issues|] == Generate(g, r).issue;
  }

  /**
   * For a caller: over every run of a new generator whose clock does not go back, the identifiers are pairwise distinct
   * if and only if no 1025 calls in a row read the same second.
   */
  lemma DistinctWhenSpread(workerID: nat, readings: seq<Reading>, zone: int)
    requires AllPossible(readings, zone) && InClockOrder(readings)
    ensures AllShown(Issues(Fresh(workerID), readings), zone)
    ensures Distinct(workerID, zone, Issues(Fresh(workerID), readings)) <==> Spread(readings, 1024)
  {
    DistinctUnlessASecondRunsOut(workerID, readings, zone);
    WrapsWhenCrowded(workerID, readings, zone);
  }

  /** And they sort as text in the order of issue if and only if no 1001 calls in a row read the same second. */
  lemma SortedWhenSpread(workerID: nat, readings: seq<Reading>, zone: int)
    requires AllPossible(readings, zone) && InClockOrder(readings)
    ensures Sorted(workerID, zone, Issues(Fresh(workerID), readings)) <==> Spread(readings, 1000)
  {
    SortedUnlessAThousand(workerID, readings, zone);
    WideWhenCrowded(workerID, readings, zone);
  }

  function SameSecondReadings(second: int, n: nat): (s: seq<Reading>)
    ensures |s| == n
  {
    if n == 0 then [] else SameSecondReadings(second, n - 1) + [Reading(second, second + 1)]
  }

  lemma {:induction false} IssuesOfOneSecond(workerID: nat, second: int, n: nat)
    requires second >= 1 && n <= 1025
    ensures var g := After(Fresh(workerID), SameSecondReadings(second, n));
            var issues := Issues(Fresh(workerID), SameSecondReadings(second, n));
            && |issues| == n
            && (forall i :: 0 <= i < n ==> issues[i] == Issue(second, i % 1024, i == 1024))
            && (0 < n <= 1024 ==> g == Generator(workerID, second, n - 1))
    decreases n
  {
    if n > 0 {
      IssuesOfOneSecond(workerID, second, n - 1);
      assert SameSecondReadings(second, n)[..n - 1] == SameSecondReadings(second, n - 1);
    }
  }

  /** The input: 1025 calls within one second give identifiers 0 and 1024 the same text. */
  lemma TheFirstIdComesBack(workerID: nat, zone: int, second: int)
    requires second >= 1 && second + zone >= 0
    ensures var issues := Issues(Fresh(workerID), SameSecondReadings(second, 1025));
            |issues| == 1025 && issues[0] == Issue(second, 0, false) && issues[1024] == Issue(second, 0, true)
            && Id(workerID, zone, issues[0]) == Id(workerID, zone, issues[1024])
  {
    IssuesOfOneSecond(workerID, second, 1025);
  }

  // ------------------------------------------------------------------ parsing

  datatype Parsed = Parsed(timestamp: string, workerID: string, sequence: string)

  function Parse(id: string): Option<Parsed>
  {
    if |id| != 21 then None else Some(Parsed(id[..14], id[14..18], id[18..21]))
  }

  /** An identifier parses exactly when its worker and its sequence fit their fields, and then into its own parts. */
  lemma ParsesWhenItFits(workerID: nat, zone: int, issue: Issue)
    requires Shown(issue.second + zone) && issue.sequence >= 0
    ensures Parse(Id(workerID, zone, issue)).Some? <==> workerID < 10000 && issue.sequence < 1000
    ensures workerID < 10000 && issue.sequence < 1000 ==>
              Parse(Id(workerID, zone, issue))
                == Some(Parsed(Stamp(issue.second + zone), Pad(workerID, 4), Pad(issue.sequence, 3)))
  {
    StampWidth(issue.second + zone);
    WidthsOf(workerID, issue.sequence);
    ThreeParts(Stamp(issue.second + zone), Pad(workerID, 4), Pad(issue.sequence, 3));
  }

  lemma WidthsOf(workerID: nat, sequence: nat)
    ensures |Pad(workerID, 4)| == 4 <==> workerID < 10000
    ensures |Pad(sequence, 3)| == 3 <==> sequence < 1000
  {
    assert Pow10(1) == 10 && Pow10(2) == 100 && Pow10(3) == 1000 && Pow10(4) == 10000;
    PadWidth(workerID, 4);
    PadWidth(sequence, 3);
  }

  lemma ThreeParts(s: string, w: string, q: string)
    requires |s| == 14 && |w| >= 4 && |q| >= 3
    ensures Parse(s + w + q).Some? <==> |w| == 4 && |q| == 3
    ensures |w| == 4 && |q| == 3 ==> Parse(s + w + q) == Some(Parsed(s, w, q))
  {
    if |w| == 4 && |q| == 3 {
      var id := s + w + q;
      assert id[..14] == s && id[14..18] == w && id[18..21] == q;
    }
  }

  /** Generators of different four-digit workers never issue the same identifier. */
  lemma WorkersDoNotCollide(w: nat, v: nat, zone: int, a: Issue, b: Issue)
    requires w < 10000 && v < 10000 && w != v
    requires Shown(a.second + zone) && Shown(b.second + zone) && a.sequence >= 0 && b.sequence >= 0
    ensures Id(w, zone, a) != Id(v, zone, b)
  {
    StampWidth(a.second + zone);
    StampWidth(b.second + zone);
    OtherWorker(w, v, zone, a, b);
  }

  lemma OtherWorker(w: nat, v: nat, zone: int, a: Issue, b: Issue)
    requires w < 10000 && v < 10000 && w != v
    requires a.second + zone >= 0 && b.second + zone >= 0 && a.sequence >= 0 && b.sequence >= 0
    requires |Stamp(a.second + zone)| == |Stamp(b.second + zone)|
    ensures Id(w, zone, a) != Id(v, zone, b)
  {
    DifferentMiddles(Stamp(a.second + zone), Stamp(b.second + zone), w, v, Pad(a.sequence, 3), Pad(b.sequence, 3));
  }

  lemma DifferentMiddles(s: string, t: string, w: nat, v: nat, p: string, q: string)
    requires |s| == |t| && w < 10000 && v < 10000 && w != v
    ensures s + Pad(w, 4) + p != t + Pad(v, 4) + q
  {
    WidthsOf(w, 0);
    WidthsOf(v, 0);
    PadReadsBack(w, 4);
    PadReadsBack(v, 4);
    if s + Pad(w, 4) + p == t + Pad(v, 4) + q {
      EqualHalves(s + Pad(w, 4), t + Pad(v, 4), p, q);
      EqualHalves(s, t, Pad(w, 4), Pad(v, 4));
    }
  }

  /** With five digits they can: worker 1000's number 1000 and worker 10001's number 0 of any one second. */
  lemma WideWorkersCollide(zone: int, second: int)
    requires second + zone >= 0
    ensures Id(1000, zone, Issue(second, 1000, false)) == Id(10001, zone, Issue(second, 0, false))
  {
    SharedTail(1000, 10001, 1000, 0);
    SharedText(1000, 10001, zone, Issue(second, 1000, false), Issue(second, 0, false));
  }

  /** Worker w has five digits: the four of v, and the leading 1 of a four-digit sequence. */
  predicate Lends(v: nat, w: nat)
  {
    v >= 1000 && w == 10 * v + 1
  }

  lemma WorkerWidth(w: nat)
    requires w <= MAX_WORKER
    ensures |Pad(w, 4)| == if w < 10000 then 4 else 5
  {
    assert Pow10(1) == 10 && Pow10(2) == 100 && Pow10(3) == 1000 && Pow10(4) == 10000 && Pow10(5) == 100000;
    PadWidth(w, 4);
    if w >= 10000 { PadWiderByOne(w, 4); }
  }

  lemma SequenceWidth(q: nat)
    requires q < SEQUENCES
    ensures |Pad(q, 3)| == if q < 1000 then 3 else 4
  {
    assert Pow10(1) == 10 && Pow10(2) == 100 && Pow10(3) == 1000 && Pow10(4) == 10000;
    PadWidth(q, 3);
    if q >= 1000 { PadWiderByOne(q, 3); }
  }

  lemma TailValue(w: nat, q: nat)
    requires w <= MAX_WORKER && q < SEQUENCES
    ensures IsDecimal(Pad(w, 4) + Pad(q, 3))
    ensures Value(Pad(w, 4) + Pad(q, 3)) == w * (if q < 1000 then 1000 else 10000) + q
    ensures |Pad(w, 4) + Pad(q, 3)| == (if w < 10000 then 4 else 5) + (if q < 1000 then 3 else 4)
  {
    assert Pow10(1) == 10 && Pow10(2) == 100 && Pow10(3) == 1000 && Pow10(4) == 10000;
    WorkerWidth(w);
    SequenceWidth(q);
    PadReadsBack(w, 4);
    PadReadsBack(q, 3);
    SideBySide(Pad(w, 4), Pad(q, 3));
  }

  lemma SharedTail(w: nat, v: nat, p: nat, q: nat)
    requires w <= MAX_WORKER && v <= MAX_WORKER && p < SEQUENCES && q < SEQUENCES && w != v
    ensures Pad(w, 4) + Pad(p, 3) == Pad(v, 4) + Pad(q, 3)
       <==> (Lends(v, w) && q == p + 1000) || (Lends(w, v) && p == q + 1000)
  {
    TailValue(w, p);
    TailValue(v, q);
    if (Lends(v, w) && q == p + 1000) || (Lends(w, v) && p == q + 1000) {
      SameValue(Pad(w, 4) + Pad(p, 3), Pad(v, 4) + Pad(q, 3));
    }
  }

  ghost predicate ShareAnId(w: nat, v: nat, zone: int, a: Issue, b: Issue)
  {
    IssueShown(a, zone) && IssueShown(b, zone) && Id(w, zone, a) == Id(v, zone, b)
  }

  /** Exactly which identifiers two workers share. */
  lemma SharedIds(w: nat, v: nat, zone: int, a: Issue, b: Issue)
    requires w <= MAX_WORKER && v <= MAX_WORKER && w != v && IssueShown(a, zone) && IssueShown(b, zone)
    ensures ShareAnId(w, v, zone, a, b)
       <==> a.second == b.second && ((Lends(v, w) && b.sequence == a.sequence + 1000) || (Lends(w, v) && a.sequence == b.sequence + 1000))
  {
    StampWidth(a.second + zone);
    StampWidth(b.second + zone);
    SharedTail(w, v, a.sequence, b.sequence);
    SharedText(w, v, zone, a, b);
    if Stamp(a.second + zone) == Stamp(b.second + zone) {
      SameStamp(a.second + zone, b.second + zone);
    }
  }

  lemma SharedText(w: nat, v: nat, zone: int, a: Issue, b: Issue)
    requires a.second + zone >= 0 && b.second + zone >= 0 && a.sequence >= 0 && b.sequence >= 0
    requires |Stamp(a.second + zone)| == |Stamp(b.second + zone)|
    ensures Id(w, zone, a) == Id(v, zone, b)
       <==> Stamp(a.second + zone) == Stamp(b.second + zone)
            && Pad(w, 4) + Pad(a.sequence, 3) == Pad(v, 4) + Pad(b.sequence, 3)
  {
    StampThenTail(Stamp(a.second + zone), Stamp(b.second + zone), Pad(w, 4), Pad(v, 4), Pad(a.sequence, 3), Pad(b.sequence, 3));
  }

  lemma StampThenTail(s: string, t: string, w: string, v: string, p: string, q: string)
    requires |s| == |t|
    ensures s + w + p == t + v + q <==> s == t && w + p == v + q
  {
    assert s + w + p == s + (w + p) && t + v + q == t + (v + q);
    if s + w + p == t + v + q {
      EqualHalves(s, t, w + p, v + q);
    }
  }

  /**
   * Two workers can ever issue the same identifier if and only if one is a four-digit number and the other has its digits
   * followed by a 1.
   */
  lemma WorkersCollideExactlyWhen(w: nat, v: nat, zone: int, second: int)
    requires w <= MAX_WORKER && v <= MAX_WORKER && w != v && IssueShown(Issue(second, 0, false), zone)
    ensures (exists a: Issue, b: Issue :: ShareAnId(w, v, zone, a, b)) <==> Lends(v, w) || Lends(w, v)
  {
    if a: Issue, b: Issue :| ShareAnId(w, v, zone, a, b) {
      SharedIds(w, v, zone, a, b);
    }
    var narrow, wide := Issue(second, 0, false), Issue(second, 1000, false);
    if Lends(v, w) {
      SharedIds(w, v, zone, narrow, wide);
      assert ShareAnId(w, v, zone, narrow, wide);
    } else if Lends(w, v) {
      SharedIds(w, v, zone, wide, narrow);
      assert ShareAnId(w, v, zone, wide, narrow);
    }
  }

  /** Generators of the same worker share the identifiers of the same second and sequence, and no others. */
  lemma SameWorkerSameIds(w: nat, zone: int, a: Issue, b: Issue)
    requires IssueShown(a, zone) && IssueShown(b, zone)
    ensures Id(w, zone, a) == Id(w, zone, b) <==> a.second == b.second && a.sequence == b.sequence
  {
    if Id(w, zone, a) == Id(w, zone, b) {
      SameId(w, zone, a, b);
    }
  }

  /** The worker number of a user. */
  function UserWorker(userID: seq<nat>): nat
  {
    Polynomial(userID) % 10000
  }

  /**
   * The first identifiers that two users' generators issue in a second are the same text if and only if the users'
   * polynomials agree modulo 10000.
   */
  lemma UsersCollideExactlyWhen(x: seq<nat>, y: seq<nat>, zone: int, r: Reading)
    requires Possible(r, zone)
    ensures var first, second := Issues(Fresh(UserWorker(x)), [r]), Issues(Fresh(UserWorker(y)), [r]);
            && first == second == [Issue(r.now, 0, false)]
            && (Id(UserWorker(x), zone, first[0]) == Id(UserWorker(y), zone, second[0])
                <==> Polynomial(x) % 10000 == Polynomial(y) % 10000)
  {
    FirstCall(UserWorker(x), r);
    FirstCall(UserWorker(y), r);
    if UserWorker(x) != UserWorker(y) {
      WorkersDoNotCollide(UserWorker(x), UserWorker(y), zone, Issue(r.now, 0, false), Issue(r.now, 0, false));
    }
  }

  /** Two such users: the two-letter names Aa and BB. */
  lemma TwoUsersCollide()
    ensures UserWorker(['A' as nat, 'a' as nat]) == UserWorker(['B' as nat, 'B' as nat]) == 2112
  {
    var x, y: seq<nat> := ['A' as nat, 'a' as nat], ['B' as nat, 'B' as nat];
    assert x[..1] == ['A' as nat] && y[..1] == ['B' as nat];
    assert x[..1][..0] == [] && y[..1][..0] == [];
    assert Polynomial(x[..1]) == 65 && Polynomial(y[..1]) == 66;
  }

  // ------------------------------------------------------- the stateful object

  /** The first reading past `last`, at the latest the one at `enough`. */
  ghost function FirstPast(ticks: nat -> int, last: int, from: nat, enough: nat): (t: int)
    requires from <= enough && ticks(enough) > last
    ensures t > last
    decreases enough - from
  {
    if ticks(from) > last then ticks(from) else FirstPast(ticks, last, from + 1, enough)
  }

  class SnowflakeGenerator {
    const workerID: nat
    const zone: int
    var lastTime: int
    var sequence: int

    constructor (workerID: nat, zone: int)
      ensures this.workerID == workerID && this.zone == zone && Contents() == Fresh(workerID)
    {
      this.workerID, this.zone := workerID, zone;
      lastTime, sequence := 0, 0;
    }

    function Contents(): Generator
      reads this
    {
      Generator(workerID, lastTime, sequence)
    }

    /** None stands for the panic. `ticks` are the clock's readings while waiting, which pass `now` in the end. */
    method GenerateID(now: int, ticks: nat -> int, ghost enough: nat) returns (id: Option<string>)
      requires 0 <= sequence < SEQUENCES && now + zone >= 0 && ticks(enough) > now
      modifies this
      ensures
        var o := Generate(old(Contents()), Reading(now, FirstPast(ticks, now, 0, enough)));
        match o
        case Issued(g, issue) => Contents() == g && issue.second == now && 0 <= issue.sequence
                                 && id == Some(Id(workerID, zone, issue))
        case ClockMovedBackwards => Contents() == old(Contents()) && id == None
    {
      var timestamp := now;
      if timestamp < lastTime {
        return None;
      }
      var wrapped := false;
      if timestamp == lastTime {
        sequence := (sequence + 1) % SEQUENCES;
        if sequence == 0 {
          wrapped := true;
          timestamp := WaitNextSecond(lastTime, ticks, enough);
        }
      } else {
        sequence := 0;
      }
      lastTime := timestamp;
      return Some(Id(workerID, zone, Issue(now, sequence, wrapped)));
    }
  }

  method WaitNextSecond(lastTime: int, ticks: nat -> int, ghost enough: nat) returns (timestamp: int)
    requires ticks(enough) > lastTime
    ensures timestamp == FirstPast(ticks, lastTime, 0, enough)
  {
    var k: nat := 0;
    timestamp := ticks(k);
    while timestamp <= lastTime
      invariant k <= enough && timestamp == ticks(k)
      invariant FirstPast(ticks, lastTime, 0, enough) == FirstPast(ticks, lastTime, k, enough)
      decreases enough - k
    {
      k := k + 1;
      timestamp := ticks(k);
    }
  }

  /** None stands for the error return. */
  method NewSnowflakeGenerator(workerID: int, zone: int) returns (g: Option<SnowflakeGenerator>)
    ensures g.Some? <==> 0 <= workerID <= MAX_WORKER
    ensures g.Some? ==> g.value.workerID == workerID && g.value.zone == zone && g.value.Contents() == Fresh(workerID)
  {
    if workerID < 0 || workerID > MAX_WORKER {
      return None;
    }
    var made := new SnowflakeGenerator(workerID, zone);
    return Some(made);
  }

  /** A user id read as a polynomial in 31; the generator reduces it at every step, which comes to the same. */
  function Polynomial(chars: seq<nat>): nat
  {
    if chars == [] then 0 else Polynomial(chars[..|chars| - 1]) * 31 + chars[|chars| - 1]
  }

  lemma ReducedEarly(x: nat, c: nat)
    ensures (x % 10000 * 31 + c) % 10000 == (x * 31 + c) % 10000
  {
    var q := x / 10000;
    assert x * 31 + c == x % 10000 * 31 + c + q * 31 * 10000;
    assert (x % 10000 * 31 + c + q * 31 * 10000) % 10000 == (x % 10000 * 31 + c) % 10000;
  }

  /** Never an error: the worker is always a four-digit number. */
  method UserSpecificGenerator(userID: seq<nat>, zone: int) returns (g: Option<SnowflakeGenerator>)
    ensures g.Some? && g.value.workerID == UserWorker(userID) && g.value.zone == zone
    ensures g.value.Contents() == Fresh(g.value.workerID)
  {
    var workerID := 0;
    for i := 0 to |userID|
      invariant workerID == Polynomial(userID[..i]) % 10000
    {
      assert userID[..i + 1][..i] == userID[..i];
      ReducedEarly(Polynomial(userID[..i]), userID[i]);
      workerID := (workerID * 31 + userID[i]) % 10000;
    }
    assert userID[..|userID|] == userID;
    g := NewSnowflakeGenerator(workerID, zone);
  }
}

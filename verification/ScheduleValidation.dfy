/** Start-up validation of the shift schedule by marking the minutes of the day. */
module ScheduleValidation {
  import opened Common
  import opened Intervals
  import opened TimeOfDay

  datatype ShiftConfig = ShiftConfig(phone: string, from: string, to: string)

  datatype ScheduleError =
    | EmptyTimezone
    | UnknownTimezone
    | NoShifts
    | UnknownPhone(shift: nat)
    | BadFrom(shift: nat)
    | BadTo(shift: nat)
    | EqualEnds(shift: nat)
    | Overlap(shift: nat, earlier: nat, minute: Minute)
    | Uncovered(minute: Minute)

  datatype Verdict = Accepted | Rejected(error: ScheduleError)

  /** White space in the sense of Unicode, as the trimming functions of the original use it. */
  predicate IsSpace(c: char) {
    var n := c as int;
    || 9 <= n <= 13 || n == 32 || n == 0x85 || n == 0xA0 || n == 0x1680
    || 0x2000 <= n <= 0x200a || n == 0x2028 || n == 0x2029 || n == 0x202f || n == 0x205f || n == 0x3000
  }

  predicate Blank(s: string) {
    forall i :: 0 <= i < |s| ==> IsSpace(s[i])
  }

  /** The code points with the Unicode property of white space. */
  lemma SpacesExactly(c: char)
    ensures IsSpace(c) <==>
            (c as int) in {9, 10, 11, 12, 13, 32, 0x85, 0xA0, 0x1680, 0x2000, 0x2001, 0x2002, 0x2003, 0x2004, 0x2005,
                           0x2006, 0x2007, 0x2008, 0x2009, 0x200A, 0x2028, 0x2029, 0x202F, 0x205F, 0x3000}
  {
  }

  function TrimLeft(s: string): string {
    if s == "" || !IsSpace(s[0]) then s else TrimLeft(s[1..])
  }

  function TrimRight(s: string): string {
    if s == "" || !IsSpace(s[|s| - 1]) then s else TrimRight(s[..|s| - 1])
  }

  /** A string is blank exactly if trimming it on both sides leaves nothing; the empty one is. */
  lemma {:induction false} BlankIffTrimmedAway(s: string)
    ensures Blank(s) <==> TrimRight(TrimLeft(s)) == ""
    ensures Blank("")
  {
    TrimmedAway(s);
    if TrimLeft(s) != "" { StopsAtOther(TrimLeft(s)); }
  }

  lemma {:induction false} TrimmedAway(s: string)
    ensures Blank(s) <==> TrimLeft(s) == ""
    ensures TrimLeft(s) != "" ==> !IsSpace(TrimLeft(s)[0])
  {
    if s != "" && IsSpace(s[0]) {
      TrimmedAway(s[1..]);
      assert s == [s[0]] + s[1..];
      assert Blank(s) <==> Blank(s[1..]) by { BlankTail(s); }
    }
  }

  lemma BlankTail(s: string)
    requires s != "" && IsSpace(s[0])
    ensures Blank(s) <==> Blank(s[1..])
  {
    if Blank(s[1..]) {
      forall i | 0 <= i < |s| ensures IsSpace(s[i]) {
        if i > 0 { assert s[1..][i - 1] == s[i]; }
      }
    }
    if Blank(s) {
      forall i | 0 <= i < |s| - 1 ensures IsSpace(s[1..][i]) { assert s[1..][i] == s[i + 1]; }
    }
  }

  lemma {:induction false} StopsAtOther(s: string)
    requires s != "" && !IsSpace(s[0])
    ensures TrimRight(s) != ""
  {
    if IsSpace(s[|s| - 1]) { StopsAtOther(s[..|s| - 1]); }
  }

  /** A shift with its two times read. */
  datatype Reading = Reading(phone: string, from: Parsed, to: Parsed) {
    predicate InRange() {
      (from.Minutes? ==> from.value < DAY) && (to.Minutes? ==> to.value < DAY)
    }

    function ToInterval(): Interval
      requires from.Minutes? && to.Minutes? && InRange()
    {
      Interval(phone, from.value, to.value)
    }
  }

  function ReadingOf(c: ShiftConfig): (r: Reading)
    ensures r.InRange()
  {
    Reading(c.phone, ParseHHMM(c.from), ParseHHMM(c.to))
  }

  predicate ShiftOk(phones: seq<string>, r: Reading) {
    r.phone in phones && r.from.Minutes? && r.to.Minutes? && r.InRange()
  }

  predicate ShiftsOk(phones: seq<string>, rs: seq<Reading>) {
    forall i :: 0 <= i < |rs| ==> ShiftOk(phones, rs[i])
  }

  function IntervalsOf(phones: seq<string>, rs: seq<Reading>): seq<Interval>
    requires ShiftsOk(phones, rs)
  {
    seq(|rs|, i requires 0 <= i < |rs| => rs[i].ToInterval())
  }

  /** The schedule section as the validator sees it: whether the time zone is known to the system is
      an input, because the zone database is not modelled. */
  datatype Schedule = Schedule(timezone: string, zoneKnown: bool, phones: seq<string>, shifts: seq<ShiftConfig>)
  {
    function Readings(): (rs: seq<Reading>)
      ensures |rs| == |shifts|
      ensures forall i :: 0 <= i < |rs| ==> rs[i].InRange()
    {
      seq(|shifts|, i requires 0 <= i < |shifts| => ReadingOf(shifts[i]))
    }

    /** What the section must satisfy: with one account the shifts may be anything, with more they
        must be readable and tile the day. */
    ghost predicate Good() {
      !Blank(timezone) && zoneKnown && (|phones| == 1 || ShiftsGood(phones, Readings()))
    }

    /** What each complaint asserts. */
    ghost predicate Justifies(e: ScheduleError) {
      if e.EmptyTimezone? then Blank(timezone)
      else if e.UnknownTimezone? then !zoneKnown
      else |phones| != 1 && JustifiesShiftError(e, phones, Readings())
    }
  }

  ghost predicate ShiftsGood(phones: seq<string>, rs: seq<Reading>) {
    rs != [] && ShiftsOk(phones, rs) && Tiles(IntervalsOf(phones, rs))
  }

  ghost predicate JustifiesShiftError(e: ScheduleError, phones: seq<string>, rs: seq<Reading>) {
    match e
    case EmptyTimezone => false
    case UnknownTimezone => false
    case NoShifts => rs == []
    case UnknownPhone(i) => i < |rs| && rs[i].phone !in phones
    case BadFrom(i) => i < |rs| && !rs[i].from.Minutes?
    case BadTo(i) => i < |rs| && !rs[i].to.Minutes?
    case EqualEnds(_) | Overlap(_, _, _) | Uncovered(_) =>
      ShiftsOk(phones, rs) && JustifiesCoverageError(e, IntervalsOf(phones, rs))
  }

  ghost predicate JustifiesCoverageError(e: ScheduleError, ivs: seq<Interval>) {
    match e
    case EqualEnds(i) => i < |ivs| && ivs[i].from == ivs[i].to
    case Overlap(i, j, m) => j < i < |ivs| && Clash(ivs, j, i, m)
    case Uncovered(m) => !Covered(ivs, m)
    case _ => false
  }

  /** Every justified complaint is fatal: no good list of shifts can draw one. */
  lemma ComplaintRefutes(e: ScheduleError, phones: seq<string>, rs: seq<Reading>)
    requires JustifiesShiftError(e, phones, rs)
    ensures !ShiftsGood(phones, rs)
  {
    if e.UnknownPhone? || e.BadFrom? || e.BadTo? {
      assert ShiftsOk(phones, rs) ==> ShiftOk(phones, rs[e.shift]);
    }
  }

  /** The coverage array after the first `done` intervals: slot `m` names the one interval over it. */
  ghost predicate Marked(coverage: seq<nat>, ivs: seq<Interval>, done: nat)
    requires |coverage| == DAY && done <= |ivs|
  {
    && (forall m: Minute :: coverage[m] <= done)
    && (forall m: Minute, i: nat :: i < done ==> (Covers(ivs[i], m) <==> coverage[m] == i + 1))
  }

  /** One marking loop: fill `[lo, hi)` with `mark`, stopping at the first slot already taken. */
  method MarkRange(coverage: array<nat>, lo: nat, hi: nat, mark: nat) returns (clash: Option<nat>)
    requires lo <= hi <= coverage.Length
    modifies coverage
    ensures clash.None? ==> forall m :: lo <= m < hi ==> old(coverage[m]) == 0
    ensures clash.None? ==> forall m :: 0 <= m < coverage.Length ==>
              coverage[m] == if lo <= m < hi then mark else old(coverage[m])
    ensures clash.Some? ==>
              lo <= clash.value < hi && old(coverage[clash.value]) == coverage[clash.value] != 0
  {
    for m := lo to hi
      invariant forall x :: lo <= x < m ==> old(coverage[x]) == 0
      invariant forall x :: 0 <= x < coverage.Length ==>
                  coverage[x] == if lo <= x < m then mark else old(coverage[x])
    {
      if coverage[m] != 0 {
        return Some(m);
      }
      coverage[m] := mark;
    }
    return None;
  }

  /** Marks one shift; `clash` is the first minute found taken. */
  method MarkShift(coverage: array<nat>, ghost ivs: seq<Interval>, iv: Interval, idx: nat) returns (clash: Option<nat>)
    requires coverage.Length == DAY && idx < |ivs| && ivs[idx] == iv && iv.from != iv.to
    requires Marked(coverage[..], ivs, idx)
    modifies coverage
    ensures clash.None? ==> Marked(coverage[..], ivs, idx + 1)
    ensures clash.Some? ==> clash.value < DAY && 0 < coverage[clash.value] <= idx
    ensures clash.Some? ==> Clash(ivs, coverage[clash.value] - 1, idx, clash.value)
  {
    ghost var before := coverage[..];
    assert forall m: Minute :: coverage[m] == before[m];
    if iv.from < iv.to {
      clash := MarkRange(coverage, iv.from, iv.to, idx + 1);
    } else {
      clash := MarkRange(coverage, iv.from, DAY, idx + 1);
      if clash.None? {
        clash := MarkRange(coverage, 0, iv.to, idx + 1);
      }
    }
    if clash.None? {
      assert forall m: Minute :: coverage[m] == if Covers(iv, m) then idx + 1 else before[m];
      assert forall m: Minute :: Covers(iv, m) ==> before[m] == 0;
      assert forall m: Minute :: coverage[..][m] == coverage[m];
    } else {
      assert Covers(iv, clash.value) && coverage[clash.value] == before[clash.value];
    }
  }

  lemma FullMarksTile(coverage: seq<nat>, ivs: seq<Interval>)
    requires |coverage| == DAY && Marked(coverage, ivs, |ivs|) && ProperEnds(ivs)
    requires forall m: Minute :: coverage[m] != 0
    ensures Tiles(ivs)
  {
    forall m: Minute ensures Covered(ivs, m) {
      assert Covers(ivs[coverage[m] - 1], m);
    }
    forall m: Minute, i: nat, j: nat | i < j < |ivs| ensures !Clash(ivs, i, j, m) {
      assert Covers(ivs[i], m) <==> coverage[m] == i + 1;
      assert Covers(ivs[j], m) <==> coverage[m] == j + 1;
    }
  }

  lemma FreeMinute(coverage: seq<nat>, ivs: seq<Interval>, m: Minute)
    requires |coverage| == DAY && Marked(coverage, ivs, |ivs|) && coverage[m] == 0
    ensures !Covered(ivs, m)
  {
    forall i: nat | i < |ivs| ensures !Covers(ivs[i], m) {
      assert Covers(ivs[i], m) <==> coverage[m] == i + 1;
    }
  }

  /** Marks every shift, then looks for a free minute. */
  method CheckCoverage(intervals: seq<Interval>) returns (r: Verdict)
    ensures r.Accepted? ==> Tiles(intervals)
    ensures r.Rejected? ==> JustifiesCoverageError(r.error, intervals)
  {
    var coverage := new nat[DAY](_ => 0);
    for idx := 0 to |intervals|
      invariant forall i :: 0 <= i < idx ==> intervals[i].from != intervals[i].to
      invariant Marked(coverage[..], intervals, idx)
    {
      if intervals[idx].from == intervals[idx].to {
        return Rejected(EqualEnds(idx));
      }
      var clash := MarkShift(coverage, intervals, intervals[idx], idx);
      if clash.Some? {
        return Rejected(Overlap(idx, coverage[clash.value] - 1, clash.value));
      }
    }
    for m := 0 to DAY
      invariant forall x :: 0 <= x < m ==> coverage[x] != 0
    {
      if coverage[m] == 0 {
        FreeMinute(coverage[..], intervals, m);
        return Rejected(Uncovered(m));
      }
    }
    FullMarksTile(coverage[..], intervals);
    return Accepted;
  }

  /** Checks phones and times shift by shift, then the coverage. */
  method CheckShifts(phones: seq<string>, rs: seq<Reading>) returns (r: Verdict)
    requires forall i :: 0 <= i < |rs| ==> rs[i].InRange()
    ensures r.Accepted? ==> ShiftsGood(phones, rs)
    ensures r.Rejected? ==> JustifiesShiftError(r.error, phones, rs)
  {
    if |rs| == 0 { return Rejected(NoShifts); }
    var intervals: seq<Interval> := [];
    for i := 0 to |rs|
      invariant |intervals| == i
      invariant forall k :: 0 <= k < i ==> ShiftOk(phones, rs[k]) && intervals[k] == rs[k].ToInterval()
    {
      if rs[i].phone !in phones { return Rejected(UnknownPhone(i)); }
      if !rs[i].from.Minutes? { return Rejected(BadFrom(i)); }
      if !rs[i].to.Minutes? { return Rejected(BadTo(i)); }
      intervals := intervals + [rs[i].ToInterval()];
    }
    assert intervals == IntervalsOf(phones, rs);
    r := CheckCoverage(intervals);
  }

  /** Accepts exactly the good schedule sections, and every complaint is true of the input. */
  method ValidateSchedule(s: Schedule) returns (r: Verdict)
    ensures r.Accepted? <==> s.Good()
    ensures r.Rejected? ==> s.Justifies(r.error)
  {
    if Blank(s.timezone) { return Rejected(EmptyTimezone); }
    if !s.zoneKnown { return Rejected(UnknownTimezone); }
    if |s.phones| == 1 { return Accepted; }
    r := CheckShifts(s.phones, s.Readings());
    if r.Rejected? {
      ComplaintRefutes(r.error, s.phones, s.Readings());
    }
  }

  predicate Readable(r: Reading) {
    r.from.Minutes? && r.to.Minutes? && r.InRange()
  }

  /** A shift is on at a minute of the day. */
  predicate OnAt(r: Reading, m: Minute)
    requires Readable(r)
  {
    if r.from.value < r.to.value then r.from.value <= m < r.to.value else r.from.value <= m || m < r.to.value
  }

  ghost predicate OnlyOne(rs: seq<Reading>, m: Minute)
    requires forall i :: 0 <= i < |rs| ==> Readable(rs[i])
  {
    exists i :: 0 <= i < |rs| && OnAt(rs[i], m) && forall j :: 0 <= j < |rs| && j != i ==> !OnAt(rs[j], m)
  }

  /** What a good list of shifts is, spelled out. */
  ghost predicate TilesTheDay(phones: seq<string>, rs: seq<Reading>) {
    && |rs| >= 1
    && (forall i :: 0 <= i < |rs| ==> rs[i].phone in phones && Readable(rs[i]))
    && (forall i :: 0 <= i < |rs| ==> rs[i].from.value != rs[i].to.value)
    && forall m: Minute :: OnlyOne(rs, m)
  }

  lemma ShiftsGoodExactly(phones: seq<string>, rs: seq<Reading>)
    ensures ShiftsGood(phones, rs) <==> TilesTheDay(phones, rs)
  {
    if ShiftsOk(phones, rs) {
      var ivs := IntervalsOf(phones, rs);
      forall i, m: Minute | 0 <= i < |ivs| ensures Covers(ivs[i], m) <==> OnAt(rs[i], m) {
        assert ShiftOk(phones, rs[i]);
      }
      forall i | 0 <= i < |rs| ensures rs[i].phone in phones && Readable(rs[i]) {
        assert ShiftOk(phones, rs[i]);
      }
      assert ProperEnds(ivs) <==> forall i :: 0 <= i < |rs| ==> rs[i].from.value != rs[i].to.value by {
        assert forall i :: 0 <= i < |rs| ==> ivs[i].from == rs[i].from.value && ivs[i].to == rs[i].to.value;
      }
      if Tiles(ivs) { TilingIsOnlyOne(rs, ivs); }
      if TilesTheDay(phones, rs) { OnlyOneIsTiling(rs, ivs); }
    } else {
      var i :| 0 <= i < |rs| && !ShiftOk(phones, rs[i]);
    }
  }

  ghost predicate SameCover(rs: seq<Reading>, ivs: seq<Interval>) {
    && |ivs| == |rs|
    && (forall i :: 0 <= i < |rs| ==> Readable(rs[i]))
    && forall i, m: Minute :: 0 <= i < |ivs| ==> (Covers(ivs[i], m) <==> OnAt(rs[i], m))
  }

  lemma TilingIsOnlyOne(rs: seq<Reading>, ivs: seq<Interval>)
    requires SameCover(rs, ivs) && Tiles(ivs)
    ensures forall m: Minute :: OnlyOne(rs, m)
  {
    forall m: Minute ensures OnlyOne(rs, m) {
      var i := Owner(ivs, m);
      forall j | 0 <= j < |rs| && j != i ensures !OnAt(rs[j], m) {
        if Covers(ivs[j], m) { OwnerUnique(ivs, m, j); }
      }
      assert OnAt(rs[i], m);
    }
  }

  lemma OnlyOneIsTiling(rs: seq<Reading>, ivs: seq<Interval>)
    requires SameCover(rs, ivs) && ProperEnds(ivs) && forall m: Minute :: OnlyOne(rs, m)
    ensures Tiles(ivs)
  {
    forall m: Minute ensures Covered(ivs, m) {
      assert OnlyOne(rs, m);
      var i :| 0 <= i < |rs| && OnAt(rs[i], m);
      assert Covers(ivs[i], m);
    }
    forall m: Minute, i: nat, j: nat | i < j < |ivs| ensures !Clash(ivs, i, j, m) {
      assert OnlyOne(rs, m);
    }
  }

  /** The whole section: accepted exactly if the time zone is given and known and, except with one account, the
      shifts, each with its own times read, tile the day. */
  lemma GoodExactly(s: Schedule)
    ensures s.Good() <==>
      && TrimRight(TrimLeft(s.timezone)) != "" && s.zoneKnown
      && (|s.phones| == 1 || TilesTheDay(s.phones, s.Readings()))
    ensures forall i :: 0 <= i < |s.shifts| ==>
              s.Readings()[i] == Reading(s.shifts[i].phone, ParseHHMM(s.shifts[i].from), ParseHHMM(s.shifts[i].to))
  {
    BlankIffTrimmedAway(s.timezone);
    ShiftsGoodExactly(s.phones, s.Readings());
  }
}

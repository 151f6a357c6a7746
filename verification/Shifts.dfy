/** Which account is on duty now and when the next boundary comes, on durations from midnight. */
module Shifts {
  import opened Common
  import opened Intervals
  import opened Tiling
  import opened TimeOfDay
  import opened ScheduleValidation

  const DAY_NS: int := 86_400_000_000_000

  /** Instants are nanoseconds since some midnight of a fixed-offset time zone. */
  type Instant = int

  datatype Shift = Shift(phone: string, from: int, to: int)

  /** The day of an instant, counted from the midnight of instant 0. */
  function DayOf(now: Instant): (d: int)
    ensures 0 <= now - d * DAY_NS < DAY_NS
    decreases if now < 0 then DAY_NS - now else now
  {
    if now < 0 then DayOf(now + DAY_NS) - 1 else if now < DAY_NS then 0 else DayOf(now - DAY_NS) + 1
  }

  function Midnight(now: Instant): Instant {
    DayOf(now) * DAY_NS
  }

  function SinceMidnight(now: Instant): (t: int)
    ensures 0 <= t < DAY_NS
  {
    now - Midnight(now)
  }

  predicate ActiveAt(sh: Shift, current: int) {
    if sh.from < sh.to then sh.from <= current < sh.to else sh.from <= current || current < sh.to
  }

  /** End of the shift `sh` for an instant at which it is active. */
  function SwitchOf(sh: Shift, now: Instant): Instant {
    if sh.from >= sh.to && SinceMidnight(now) >= sh.from
    then Midnight(now) + DAY_NS + sh.to
    else Midnight(now) + sh.to
  }

  /** Index of the first shift in the list that is active, or the length of the list. */
  function FirstActive(shifts: seq<Shift>, current: int): (i: nat)
    ensures i <= |shifts|
    ensures i < |shifts| ==> ActiveAt(shifts[i], current)
    ensures forall j :: 0 <= j < i ==> !ActiveAt(shifts[j], current)
  {
    if shifts == [] || ActiveAt(shifts[0], current) then 0 else 1 + FirstActive(shifts[1..], current)
  }

  /** The shift on duty and the next boundary; with no active shift, the first one and its next start. */
  function Chosen(now: Instant, shifts: seq<Shift>): (Shift, Instant)
    requires shifts != []
  {
    var i := FirstActive(shifts, SinceMidnight(now));
    if i < |shifts| then (shifts[i], SwitchOf(shifts[i], now))
    else
      var start := Midnight(now) + shifts[0].from;
      (shifts[0], if now < start then start else start + DAY_NS)
  }

  method ActiveShift(now: Instant, shifts: seq<Shift>) returns (active: Shift, nextSwitch: Instant)
    requires shifts != []
    ensures (active, nextSwitch) == Chosen(now, shifts)
  {
    var midnight := Midnight(now);
    var current := now - midnight;
    for i := 0 to |shifts|
      invariant forall j :: 0 <= j < i ==> !ActiveAt(shifts[j], current)
    {
      var sh := shifts[i];
      var on := if sh.from < sh.to then current >= sh.from && current < sh.to
                else current >= sh.from || current < sh.to;
      if on {
        if sh.from < sh.to {
          nextSwitch := midnight + sh.to;
        } else if current >= sh.from {
          nextSwitch := midnight + (DAY_NS + sh.to);
        } else {
          nextSwitch := midnight + sh.to;
        }
        return sh, nextSwitch;
      }
    }
    nextSwitch := midnight + shifts[0].from;
    if now >= nextSwitch {
      nextSwitch := nextSwitch + DAY_NS;
    }
    return shifts[0], nextSwitch;
  }

  /** The shift list is the minute intervals, expressed in nanoseconds. */
  ghost predicate Scales(shifts: seq<Shift>, ivs: seq<Interval>) {
    && |shifts| == |ivs|
    && forall i :: 0 <= i < |ivs| ==> shifts[i] == Scaled(ivs[i])
  }

  function Scaled(iv: Interval): Shift {
    Shift(iv.phone, iv.from * MINUTE, iv.to * MINUTE)
  }

  function MinuteAt(current: int): (m: Minute)
    requires 0 <= current < DAY_NS
    ensures m * MINUTE <= current < (m + 1) * MINUTE
  {
    current / 60_000_000_000
  }

  /** A shift is active at an instant exactly when it covers the minute the instant falls in. */
  lemma ActiveCovers(iv: Interval, current: int)
    requires 0 <= current < DAY_NS
    ensures ActiveAt(Scaled(iv), current) <==> Covers(iv, MinuteAt(current))
  {
  }

  lemma ActiveIffOwner(shifts: seq<Shift>, ivs: seq<Interval>, current: int, i: nat)
    requires Tiles(ivs) && Scales(shifts, ivs) && i < |ivs| && 0 <= current < DAY_NS
    ensures ActiveAt(shifts[i], current) <==> i == Owner(ivs, MinuteAt(current))
  {
    ActiveCovers(ivs[i], current);
    if Covers(ivs[i], MinuteAt(current)) {
      OwnerUnique(ivs, MinuteAt(current), i);
    }
  }

  /** At every instant, not only at whole minutes, exactly one shift of a tiling is active: the
      fallback branch of `Chosen` cannot be reached. */
  lemma {:induction false} ExactlyOneActive(shifts: seq<Shift>, ivs: seq<Interval>, current: int)
    requires Tiles(ivs) && Scales(shifts, ivs) && 0 <= current < DAY_NS
    ensures exists i :: 0 <= i < |shifts| && ActiveAt(shifts[i], current)
    ensures forall i, j :: 0 <= i < j < |shifts| ==> !(ActiveAt(shifts[i], current) && ActiveAt(shifts[j], current))
    ensures FirstActive(shifts, current) == Owner(ivs, MinuteAt(current))
  {
    forall i: nat | i < |shifts| ensures ActiveAt(shifts[i], current) <==> i == Owner(ivs, MinuteAt(current)) {
      ActiveIffOwner(shifts, ivs, current, i);
    }
    assert ActiveAt(shifts[Owner(ivs, MinuteAt(current))], current);
  }

  /** The shift on duty at an instant of a tiling. */
  ghost function OnDuty(ivs: seq<Interval>, now: Instant): (i: nat)
    requires Tiles(ivs)
    ensures i < |ivs|
  {
    Owner(ivs, MinuteAt(SinceMidnight(now)))
  }

  lemma ChosenIsOnDuty(shifts: seq<Shift>, ivs: seq<Interval>, now: Instant)
    requires Tiles(ivs) && Scales(shifts, ivs)
    ensures shifts != []
    ensures Chosen(now, shifts) == (shifts[OnDuty(ivs, now)], SwitchOf(shifts[OnDuty(ivs, now)], now))
  {
    ExactlyOneActive(shifts, ivs, SinceMidnight(now));
  }

  /** An instant is on the same day or on the next one. */
  lemma SameOrNextDay(now: Instant, t: Instant)
    requires Midnight(now) <= t < Midnight(now) + 2 * DAY_NS
    ensures Midnight(t) == if t < Midnight(now) + DAY_NS then Midnight(now) else Midnight(now) + DAY_NS
  {
    var d, e := DayOf(now), DayOf(t);
    assert e == if t < Midnight(now) + DAY_NS then d else d + 1;
  }

  /** `t` is the next instant after `now` that lies `d` after a midnight. */
  ghost predicate NextAt(now: Instant, d: int, t: Instant) {
    now < t <= now + DAY_NS && SinceMidnight(t) == d
  }

  lemma SwitchIsNext(sh: Shift, now: Instant)
    requires 0 <= sh.from < DAY_NS && 0 <= sh.to < DAY_NS && ActiveAt(sh, SinceMidnight(now))
    ensures NextAt(now, sh.to, SwitchOf(sh, now))
  {
    SameOrNextDay(now, SwitchOf(sh, now));
  }

  lemma StartIsNext(from: int, now: Instant)
    requires 0 <= from < DAY_NS
    ensures var start := Midnight(now) + from;
      NextAt(now, from, if now < start then start else start + DAY_NS)
  {
    var start := Midnight(now) + from;
    SameOrNextDay(now, if now < start then start else start + DAY_NS);
  }

  /** There is only one such instant. */
  lemma NextAtUnique(now: Instant, d: int, t: Instant, u: Instant)
    requires NextAt(now, d, t) && NextAt(now, d, u)
    ensures t == u
  {
    if t < u { SameOrNextDay(t, u); } else { SameOrNextDay(u, t); }
  }

  /** For any list of shifts with times of day, tiling or not, equal ends included: the shift chosen is the
      first in the list that is active, until its end comes next; if none is active, it is the first of all,
      until its start comes next. */
  lemma ChosenExactly(now: Instant, shifts: seq<Shift>, i: nat)
    requires i < |shifts| && 0 <= shifts[i].from < DAY_NS && 0 <= shifts[i].to < DAY_NS
    ensures ActiveAt(shifts[i], SinceMidnight(now))
            && (forall j :: 0 <= j < i ==> !ActiveAt(shifts[j], SinceMidnight(now))) ==>
              Chosen(now, shifts).0 == shifts[i] && NextAt(now, shifts[i].to, Chosen(now, shifts).1)
    ensures i == 0 && (forall j :: 0 <= j < |shifts| ==> !ActiveAt(shifts[j], SinceMidnight(now))) ==>
              Chosen(now, shifts).0 == shifts[0] && NextAt(now, shifts[0].from, Chosen(now, shifts).1)
  {
    var k := FirstActive(shifts, SinceMidnight(now));
    if k == i {
      SwitchIsNext(shifts[i], now);
    } else if k == |shifts| && i == 0 {
      StartIsNext(shifts[0].from, now);
    }
  }

  /** One active shift, seen from any instant of it. */
  lemma SwitchIsStable(iv: Interval, now: Instant, t: Instant)
    requires iv.from != iv.to && ActiveAt(Scaled(iv), SinceMidnight(now))
    requires now <= t < SwitchOf(Scaled(iv), now)
    ensures ActiveAt(Scaled(iv), SinceMidnight(t))
    ensures SwitchOf(Scaled(iv), t) == SwitchOf(Scaled(iv), now)
  {
    SameOrNextDay(now, t);
  }

  lemma SwitchInstant(iv: Interval, now: Instant)
    requires iv.from != iv.to && ActiveAt(Scaled(iv), SinceMidnight(now))
    ensures now < SwitchOf(Scaled(iv), now) < now + DAY_NS
    ensures SinceMidnight(SwitchOf(Scaled(iv), now)) == iv.to * MINUTE
    ensures SinceMidnight(now) == iv.from * MINUTE ==> SwitchOf(Scaled(iv), now) == now + Length(iv) * MINUTE
  {
    SameOrNextDay(now, SwitchOf(Scaled(iv), now));
  }

  lemma OnDutyAtStart(ivs: seq<Interval>, i: nat, now: Instant)
    requires Tiles(ivs) && i < |ivs| && SinceMidnight(now) == ivs[i].from * MINUTE
    ensures OnDuty(ivs, now) == i
  {
    assert MinuteAt(SinceMidnight(now)) == ivs[i].from;
    ShiftStart(ivs, i);
  }

  /** `nextSwitch` is later than now by less than a day; the same shift, with the same `nextSwitch`,
      is chosen at every instant before it; and at that instant another shift takes over, the one
      that starts where the old one ends. */
  lemma NextSwitchIsNext(shifts: seq<Shift>, ivs: seq<Interval>, now: Instant, t: Instant)
    requires Tiles(ivs) && Scales(shifts, ivs) && shifts != []
    requires now <= t < Chosen(now, shifts).1
    ensures now < Chosen(now, shifts).1 < now + DAY_NS
    ensures Chosen(t, shifts) == Chosen(now, shifts)
    ensures OnDuty(ivs, Chosen(now, shifts).1) == Handoff(ivs, OnDuty(ivs, now)) != OnDuty(ivs, now)
    ensures Chosen(Chosen(now, shifts).1, shifts).0.from == Chosen(now, shifts).0.to
  {
    var i := OnDuty(ivs, now);
    ChosenIsOnDuty(shifts, ivs, now);
    ChosenIsOnDuty(shifts, ivs, t);
    var next := Chosen(now, shifts).1;
    ChosenIsOnDuty(shifts, ivs, next);
    assert ivs[i].from != ivs[i].to;
    ActiveCovers(ivs[i], SinceMidnight(now));
    SwitchIsStable(ivs[i], now, t);
    SwitchInstant(ivs[i], now);
    ActiveCovers(ivs[i], SinceMidnight(t));
    OwnerUnique(ivs, MinuteAt(SinceMidnight(t)), i);
    HandoffMeets(ivs, i);
    OnDutyAtStart(ivs, Handoff(ivs, i), next);
  }

  ghost function NextSwitch(shifts: seq<Shift>): Instant -> Instant
    requires shifts != []
  {
    t => Chosen(t, shifts).1
  }

  ghost function Iterated(next: Instant -> Instant, now: Instant, k: nat): Instant {
    if k == 0 then now else next(Iterated(next, now, k - 1))
  }

  /** The instant of the `k`-th switch after `now`. */
  ghost function SwitchAt(shifts: seq<Shift>, now: Instant, k: nat): Instant
    requires shifts != []
  {
    Iterated(NextSwitch(shifts), now, k)
  }

  /** One switch, from a shift start: the next shift starts when the length of this one has passed. */
  lemma OneSwitch(shifts: seq<Shift>, ivs: seq<Interval>, i: nat, now: Instant)
    requires Tiles(ivs) && Scales(shifts, ivs) && i < |ivs| && shifts != []
    requires SinceMidnight(now) == ivs[i].from * MINUTE
    ensures Chosen(now, shifts).1 == now + Nanos(Length(ivs[i]))
    ensures SinceMidnight(Chosen(now, shifts).1) == ivs[Handoff(ivs, i)].from * MINUTE
  {
    OnDutyAtStart(ivs, i, now);
    ChosenIsOnDuty(shifts, ivs, now);
    assert ivs[i].from != ivs[i].to;
    ActiveCovers(ivs[i], SinceMidnight(now));
    SwitchInstant(ivs[i], now);
    HandoffMeets(ivs, i);
  }

  function Nanos(minutes: int): int {
    minutes * 60_000_000_000
  }

  /** Time from the start of shift `i` to the k-th handoff. */
  ghost function Elapsed(ivs: seq<Interval>, i: nat, k: nat): int
    requires Tiles(ivs) && i < |ivs|
  {
    if k == 0 then 0 else Elapsed(ivs, i, k - 1) + Nanos(Length(ivs[Walk(ivs, i, k - 1)]))
  }

  lemma {:induction false} ElapsedIsClock(ivs: seq<Interval>, i: nat, k: nat)
    requires Tiles(ivs) && i < |ivs|
    ensures Elapsed(ivs, i, k) == (Clock(ivs, i, k) - ivs[i].from) * MINUTE
  {
    if k > 0 { ElapsedIsClock(ivs, i, k - 1); }
  }

  /** Shift `w` starts at the instant. */
  ghost predicate StartsAt(ivs: seq<Interval>, w: nat, t: Instant)
    requires w < |ivs|
  {
    SinceMidnight(t) == ivs[w].from * MINUTE
  }

  /** From the start of shift `w`, `next` leads to the start of the shift after it. */
  ghost predicate Advances(ivs: seq<Interval>, next: Instant -> Instant, w: nat, t: Instant)
    requires Tiles(ivs) && w < |ivs|
  {
    StartsAt(ivs, w, t) ==> next(t) == t + Nanos(Length(ivs[w])) && StartsAt(ivs, Handoff(ivs, w), next(t))
  }

  lemma {:induction false} AdvancesFollowWalk(ivs: seq<Interval>, i: nat, next: Instant -> Instant, now: Instant,
                                              k: nat)
    requires Tiles(ivs) && i < |ivs| && StartsAt(ivs, i, now)
    requires forall w: nat, t {:trigger Advances(ivs, next, w, t)} :: w < |ivs| ==> Advances(ivs, next, w, t)
    ensures StartsAt(ivs, Walk(ivs, i, k), Iterated(next, now, k))
    ensures Iterated(next, now, k) == now + Elapsed(ivs, i, k)
  {
    if k > 0 {
      AdvancesFollowWalk(ivs, i, next, now, k - 1);
      assert Advances(ivs, next, Walk(ivs, i, k - 1), Iterated(next, now, k - 1));
    }
  }

  /** Switching on from a shift start follows the walk round the tiling, minute for minute. */
  lemma {:induction false} SwitchesFollowWalk(shifts: seq<Shift>, ivs: seq<Interval>, i: nat, now: Instant, k: nat)
    requires Tiles(ivs) && Scales(shifts, ivs) && i < |ivs| && shifts != []
    requires SinceMidnight(now) == ivs[i].from * MINUTE
    ensures OnDuty(ivs, SwitchAt(shifts, now, k)) == Walk(ivs, i, k)
    ensures SwitchAt(shifts, now, k) == now + (Clock(ivs, i, k) - ivs[i].from) * MINUTE
  {
    var next := NextSwitch(shifts);
    forall w: nat, t | w < |ivs| ensures Advances(ivs, next, w, t) {
      if StartsAt(ivs, w, t) { OneSwitch(shifts, ivs, w, t); }
    }
    AdvancesFollowWalk(ivs, i, next, now, k);
    ElapsedIsClock(ivs, i, k);
    OnDutyAtStart(ivs, Walk(ivs, i, k), SwitchAt(shifts, now, k));
  }

  /** Following `nextSwitch` from any shift start: the first `|shifts|` switches bring every shift on
      duty exactly once, and the last of them comes exactly 24 hours later, at the same shift. */
  lemma {:induction false} SwitchesGoRoundDaily(shifts: seq<Shift>, ivs: seq<Interval>, i: nat, now: Instant)
    requires Tiles(ivs) && Scales(shifts, ivs) && i < |ivs| && shifts != []
    requires SinceMidnight(now) == ivs[i].from * MINUTE
    ensures SwitchAt(shifts, now, |shifts|) == now + DAY_NS
    ensures OnDuty(ivs, now + DAY_NS) == i
    ensures forall k: nat :: k < |shifts| ==> OnDuty(ivs, SwitchAt(shifts, now, k)) == Walk(ivs, i, k)
    ensures Permutation(Round(ivs, i, |shifts|), |shifts|)
  {
    DailyRound(ivs, i);
    SwitchesFollowWalk(shifts, ivs, i, now, |ivs|);
    forall k: nat | k < |shifts| ensures OnDuty(ivs, SwitchAt(shifts, now, k)) == Walk(ivs, i, k) {
      SwitchesFollowWalk(shifts, ivs, i, now, k);
    }
  }

  function ToShift(c: ShiftConfig): Shift {
    Shift(c.phone, HhmmToDuration(c.from), HhmmToDuration(c.to))
  }

  /** Conversion of the validated section for the scheduler. */
  method ConfigShiftsToScheduler(cfgShifts: seq<ShiftConfig>) returns (result: seq<Shift>)
    ensures |result| == |cfgShifts|
    ensures forall i :: 0 <= i < |result| ==> result[i] == ToShift(cfgShifts[i])
  {
    result := [];
    for i := 0 to |cfgShifts|
      invariant |result| == i
      invariant forall k :: 0 <= k < i ==> result[k] == ToShift(cfgShifts[k])
    {
      var s := cfgShifts[i];
      result := result + [Shift(s.phone, HhmmToDuration(s.from), HhmmToDuration(s.to))];
    }
  }

  predicate ReachesScheduler(hhmm: string) {
    ParseHHMM(hhmm).Minutes? && (PlainForm(hhmm) || ParseHHMM(hhmm).value == 0)
  }

  predicate Reaches(c: ShiftConfig) {
    ReachesScheduler(c.from) && ReachesScheduler(c.to)
  }

  /** The bridge from the validator to the scheduler: an accepted many-account section turns into a shift
      list on which everything above holds if and only if all its times are in plain form or mean
      midnight. */
  lemma AcceptedScalesIffPlain(s: Schedule, shifts: seq<Shift>)
    requires s.Good() && |s.phones| != 1 && |shifts| == |s.shifts|
    requires forall i :: 0 <= i < |shifts| ==> shifts[i] == ToShift(s.shifts[i])
    ensures Scales(shifts, IntervalsOf(s.phones, s.Readings())) <==>
      forall i {:trigger Reaches(s.shifts[i])} :: 0 <= i < |s.shifts| ==> Reaches(s.shifts[i])
  {
    var ivs := IntervalsOf(s.phones, s.Readings());
    forall i | 0 <= i < |shifts| ensures shifts[i] == Scaled(ivs[i]) <==> Reaches(s.shifts[i]) {
      assert ShiftOk(s.phones, s.Readings()[i]);
      ConversionAgrees(s.shifts[i], ivs[i]);
    }
  }

  lemma ConversionAgrees(c: ShiftConfig, iv: Interval)
    requires ParseHHMM(c.from).Minutes? && ParseHHMM(c.to).Minutes?
    requires iv == Interval(c.phone, ParseHHMM(c.from).value, ParseHHMM(c.to).value)
    ensures ToShift(c) == Scaled(iv) <==> Reaches(c)
  {
    DurationAgrees(c.from);
    DurationAgrees(c.to);
  }

  const SWALLOWED :=
    Schedule("UTC", true, ["A", "B"], [ShiftConfig("A", "0:00", "8:5"), ShiftConfig("B", "8:5", "0:00")])

  /** A shift whose ends are both midnight is active always. */
  lemma FirstForEver(shifts: seq<Shift>, now: Instant)
    requires shifts != [] && shifts[0].from == shifts[0].to == 0
    ensures Chosen(now, shifts).0 == shifts[0]
  {
    assert ActiveAt(shifts[0], SinceMidnight(now));
  }

  lemma SwallowedTiles(phones: seq<string>, a: Reading, b: Reading)
    requires a.phone in phones && b.phone in phones
    requires a.from == b.to == Minutes(0) && a.to == b.from == Minutes(485)
    ensures ShiftsGood(phones, [a, b])
  {
    var ivs := IntervalsOf(phones, [a, b]);
    assert ivs == [Interval(a.phone, 0, 485), Interval(b.phone, 485, 0)];
    forall m: Minute ensures Covered(ivs, m) {
      assert Covers(ivs[if m < 485 then 0 else 1], m);
    }
  }

  lemma ReadSwallowed()
    ensures ParseHHMM("0:00") == Minutes(0) && ParseHHMM("8:5") == Minutes(485)
    ensures HhmmToDuration("0:00") == 0 && HhmmToDuration("8:5") == 0
  {
    ShortNumber("0");
    ShortNumber("00");
    ShortNumber("8");
    ShortNumber("5");
    assert ColonAt("0:00") == 1 && "0:00"[..1] == "0" && "0:00"[2..] == "00";
    assert ColonAt("8:5") == 1 && "8:5"[..1] == "8" && "8:5"[2..] == "5";
    PlainAgrees("0:00");
    if ParseClock("8:5").Some? { ClockNeedsPlain("8:5"); }
  }

  /** Without the plain form the bridge fails: this section is accepted, shift B covers most of the
      day, and yet the scheduler keeps account A on duty at every instant. */
  lemma SwallowedShift(now: Instant)
    ensures SWALLOWED.Good()
    ensures Chosen(now, [ToShift(SWALLOWED.shifts[0]), ToShift(SWALLOWED.shifts[1])]).0.phone == "A"
  {
    ReadSwallowed();
    var a, b := ReadingOf(SWALLOWED.shifts[0]), ReadingOf(SWALLOWED.shifts[1]);
    assert SWALLOWED.Readings() == [a, b];
    SwallowedTiles(SWALLOWED.phones, a, b);
    assert !IsSpace(SWALLOWED.timezone[0]);
    FirstForEver([ToShift(SWALLOWED.shifts[0]), ToShift(SWALLOWED.shifts[1])], now);
  }
}

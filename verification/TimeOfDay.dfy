/** The two readings of an "HH:MM" string: the validator's own parser, and the clock-layout
    parser through which the scheduler gets its durations. */
module TimeOfDay {
  import opened Common

  // Durations are counted in nanoseconds.
  const MINUTE: int := 60_000_000_000

  predicate IsDigit(c: char) { '0' <= c <= '9' }

  function DigitValue(c: char): nat
    requires IsDigit(c)
  {
    c as int - '0' as int
  }

  predicate AllDigits(s: string) {
    forall i :: 0 <= i < |s| ==> IsDigit(s[i])
  }

  function DigitsValue(s: string): nat
    requires AllDigits(s)
  {
    if s == [] then 0 else DigitsValue(s[..|s| - 1]) * 10 + DigitValue(s[|s| - 1])
  }

  /** Positional notation: putting digits behind others multiplies by ten for each of them, and each digit
      counts its place among the ten. */
  lemma {:induction false} DigitsJoin(s: string, t: string)
    requires AllDigits(s) && AllDigits(t)
    ensures AllDigits(s + t) && DigitsValue(s + t) == DigitsValue(s) * Power(|t|) + DigitsValue(t)
  {
    if t == "" {
      assert s + t == s;
    } else {
      var front := t[..|t| - 1];
      DigitsJoin(s, front);
      assert (s + t)[..|s + t| - 1] == s + front;
      PowerStep(DigitsValue(s), |front|);
    }
  }

  function Power(n: nat): nat {
    if n == 0 then 1 else 10 * Power(n - 1)
  }

  lemma PowerStep(x: nat, n: nat)
    ensures x * Power(n + 1) == 10 * (x * Power(n))
  {
  }

  lemma {:induction false} DigitsAreTen(c: char, k: nat)
    ensures IsDigit(c) <==> c in "0123456789"
    ensures k < 10 ==> DigitsValue(["0123456789"[k]]) == k
  {
    if k < 10 {
      var d := "0123456789"[k];
      assert IsDigit(d) && DigitValue(d) == k;
      assert [d][..0] == "" && DigitsValue("") == 0;
    }
  }

  /** Decimal integer with an optional sign.  The original also refuses values beyond 64 bits; its
      only caller here refuses everything above 59, so that limit never decides. */
  function Atoi(s: string): Option<int> {
    var signed := |s| > 0 && (s[0] == '-' || s[0] == '+');
    var body := if signed then s[1..] else s;
    if body == [] || !AllDigits(body) then None
    else
      var v: int := DigitsValue(body);
      Some(if signed && s[0] == '-' then -v else v)
  }

  predicate Sign(c: char) {
    c == '+' || c == '-'
  }

  /** What counts as an integer: digits, at least one, alone or after one sign. */
  lemma {:induction false} AtoiExactly(s: string)
    ensures s == "" ==> Atoi(s) == None
    ensures s != "" && !Sign(s[0]) ==>
              Atoi(s) == if AllDigits(s) then Some(DigitsValue(s) as int) else None
    ensures s != "" && Sign(s[0]) ==>
              Atoi(s) == if s == [s[0]] || !AllDigits(s[1..]) then None
                         else if s[0] == '+' then Some(DigitsValue(s[1..]) as int)
                         else Some(-(DigitsValue(s[1..]) as int))
  {
  }

  /** Position of the first colon, or the length of the string. */
  function ColonAt(s: string): (k: nat)
    ensures k <= |s|
    ensures k < |s| ==> s[k] == ':'
    ensures forall j :: 0 <= j < k ==> s[j] != ':'
  {
    if s == [] || s[0] == ':' then 0 else 1 + ColonAt(s[1..])
  }

  datatype Parsed = Minutes(value: nat) | NoColon | BadHour | BadMinute

  /** The validator's parser: split at the first colon, both halves decimal and in range. */
  function ParseHHMM(s: string): (r: Parsed)
    ensures r.Minutes? ==> r.value < 1440
  {
    var k := ColonAt(s);
    if k == |s| then NoColon
    else
      match Atoi(s[..k])
      case None => BadHour
      case Some(h) =>
        if h < 0 || h > 23 then BadHour
        else
          match Atoi(s[k + 1..])
          case None => BadMinute
          case Some(m) => if m < 0 || m > 59 then BadMinute else Minutes(h * 60 + m)
  }

  predicate InClock(n: Option<int>, limit: int) {
    n.Some? && 0 <= n.value < limit
  }

  /** What the parser reads, for every string: without a colon nothing; otherwise an hour before the first
      colon and a minute after it, both decimal and in range, and then just their sum in minutes. */
  lemma ReadsExactly(s: string, hour: string, minute: string)
    requires ':' !in hour
    ensures ':' !in s <==> ParseHHMM(s) == NoColon
    ensures s == hour + ":" + minute ==>
      && (ParseHHMM(s).Minutes? <==> InClock(Atoi(hour), 24) && InClock(Atoi(minute), 60))
      && (ParseHHMM(s).Minutes? ==> ParseHHMM(s).value == 60 * Atoi(hour).value + Atoi(minute).value)
      && (ParseHHMM(s).BadHour? <==> !InClock(Atoi(hour), 24))
  {
    var k := ColonAt(s);
    if s == hour + ":" + minute {
      assert s[|hour|] == ':';
      assert forall j :: 0 <= j < |hour| ==> s[j] == hour[j];
      assert k == |hour|;
      assert s[..k] == hour && s[k + 1..] == minute;
    }
  }

  /** Leading number of a clock string: two digits, or one if the layout allows a single digit. */
  function LeadingNumber(s: string, twoDigits: bool): Option<(nat, string)> {
    if |s| < 1 || !IsDigit(s[0]) then None
    else if |s| < 2 || !IsDigit(s[1]) then
      if twoDigits then None else Some((DigitValue(s[0]), s[1..]))
    else Some((DigitValue(s[0]) * 10 + DigitValue(s[1]), s[2..]))
  }

  /** The layout "15:04": an hour of one or two digits, a colon, a minute of exactly two digits. */
  function ParseClock(s: string): Option<nat> {
    match LeadingNumber(s, false)
    case None => None
    case Some((h, rest)) =>
      if h > 23 || rest == [] || rest[0] != ':' then None
      else
        match LeadingNumber(rest[1..], true)
        case None => None
        case Some((m, tail)) => if m > 59 || tail != [] then None else Some(h * 60 + m)
  }

  /** Duration from midnight, as the scheduler gets it.  A string the layout refuses counts as 00:00,
      because the error is dropped and the zero time is used. */
  function HhmmToDuration(s: string): int {
    match ParseClock(s)
    case None => 0
    case Some(m) => m * MINUTE
  }

  /** Hour of one or two plain digits, colon, minute of two plain digits. */
  predicate PlainForm(s: string) {
    || (|s| == 4 && IsDigit(s[0]) && s[1] == ':' && IsDigit(s[2]) && IsDigit(s[3]))
    || (|s| == 5 && IsDigit(s[0]) && IsDigit(s[1]) && s[2] == ':' && IsDigit(s[3]) && IsDigit(s[4]))
  }

  lemma ShortNumber(s: string)
    requires 1 <= |s| <= 2 && AllDigits(s)
    ensures Atoi(s) == Some(if |s| == 1 then DigitValue(s[0]) else DigitValue(s[0]) * 10 + DigitValue(s[1]))
  {
    assert DigitsValue([s[0]]) == DigitValue(s[0]) by {
      assert [s[0]][..0] == [];
      assert DigitsValue([]) == 0;
    }
    if |s| == 1 {
      assert s == [s[0]];
    } else {
      assert s[..1] == [s[0]];
    }
  }

  lemma PlainAgrees(s: string)
    requires PlainForm(s) && ParseHHMM(s).Minutes?
    ensures ParseClock(s) == Some(ParseHHMM(s).value)
  {
    var k := |s| - 3;
    assert ColonAt(s) == k;
    assert s[k + 1..] == [s[k + 1], s[k + 2]];
    ShortNumber(s[..k]);
    ShortNumber(s[k + 1..]);
    assert s[k..][1..] == s[k + 1..];
    assert s[k + 1..][2..] == [];
  }

  lemma ClockNeedsPlain(s: string)
    requires ParseClock(s).Some?
    ensures PlainForm(s)
  {
    var n := if |s| < 2 || !IsDigit(s[1]) then 1 else 2;
    var rest := s[n..];
    assert rest[1..] == s[n + 1..];
    assert rest[1..][2..] == [];
  }

  /** The clock layout reads exactly the plain forms that the validator reads, and to the same value. */
  lemma ClockReadsExactly(s: string)
    ensures ParseClock(s).Some? <==> PlainForm(s) && ParseHHMM(s).Minutes?
    ensures ParseClock(s).Some? ==> ParseClock(s) == Some(ParseHHMM(s).value)
    ensures HhmmToDuration(s) ==
            if PlainForm(s) && ParseHHMM(s).Minutes? then ParseHHMM(s).value * 60_000_000_000 else 0
  {
    if ParseClock(s).Some? {
      ClockNeedsPlain(s);
      PlainIsRead(s);
    }
    if PlainForm(s) && ParseHHMM(s).Minutes? { PlainAgrees(s); }
  }

  lemma PlainIsRead(s: string)
    requires PlainForm(s) && ParseClock(s).Some?
    ensures ParseHHMM(s).Minutes?
  {
    var k := |s| - 3;
    assert ColonAt(s) == k;
    assert s[k + 1..] == [s[k + 1], s[k + 2]];
    ShortNumber(s[..k]);
    ShortNumber(s[k + 1..]);
    assert s[k..][1..] == s[k + 1..];
  }

  /** A time of day that passes validation reaches the scheduler unchanged exactly when it is
      written in the plain form, or means midnight anyway. */
  lemma DurationAgrees(s: string)
    requires ParseHHMM(s).Minutes?
    ensures HhmmToDuration(s) == ParseHHMM(s).value * MINUTE <==> PlainForm(s) || ParseHHMM(s).value == 0
  {
    if PlainForm(s) {
      PlainAgrees(s);
    } else if ParseClock(s).Some? {
      ClockNeedsPlain(s);
    }
  }

  function Digit(n: nat): (c: char)
    requires n < 10
    ensures IsDigit(c) && DigitValue(c) == n
  {
    '0' + n as char
  }

  /** The usual way to write a minute of the day: two digits, colon, two digits. */
  function Format(m: nat): string
    requires m < 1440
  {
    var h, r := m / 60, m % 60;
    [Digit(h / 10), Digit(h % 10), ':', Digit(r / 10), Digit(r % 10)]
  }

  /** Both readers give back every minute of the day from its usual form. */
  lemma UsualFormIsRead(m: nat)
    requires m < 1440
    ensures ParseHHMM(Format(m)) == Minutes(m) && HhmmToDuration(Format(m)) == m * MINUTE
  {
    var s, h, r := Format(m), m / 60, m % 60;
    assert s[..2] == [Digit(h / 10), Digit(h % 10)] && s[3..] == [Digit(r / 10), Digit(r % 10)];
    assert ColonAt(s) == 2 by { assert s[1..][0] == s[1] && s[1..][1..][0] == ':'; }
    ShortNumber(s[..2]);
    ShortNumber(s[3..]);
    PlainAgrees(s);
  }
}

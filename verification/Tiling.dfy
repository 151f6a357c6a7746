/** What a validated schedule means over time: the shifts form one closed round of 24 hours. */
module Tiling {
  import opened Common
  import opened Intervals

  /** The shift on duty at the minute in which shift `i` ends. */
  ghost function Handoff(ivs: seq<Interval>, i: nat): nat
    requires Tiles(ivs) && i < |ivs|
  {
    Owner(ivs, ivs[i].to)
  }

  /** No gap and no overrun at a boundary: the next shift begins in the very minute the last one ends. */
  lemma HandoffMeets(ivs: seq<Interval>, i: nat)
    requires Tiles(ivs) && i < |ivs|
    ensures Handoff(ivs, i) < |ivs|
    ensures Handoff(ivs, i) != i
    ensures ivs[Handoff(ivs, i)].from == ivs[i].to
  {
    var j := Handoff(ivs, i);
    assert ivs[i].from != ivs[i].to;
    var before: Minute := if ivs[i].to == 0 then DAY - 1 else ivs[i].to - 1;
    assert Covers(ivs[i], before) && !Covers(ivs[i], ivs[i].to);
    if ivs[j].from != ivs[i].to {
      assert Covers(ivs[j], before);
      assert Clash(ivs, if i < j then i else j, if i < j then j else i, before);
    }
  }

  /** Minute of the day, `len` minutes after unwrapped minute `c`. */
  lemma {:induction false} Wrap(c: nat, len: nat)
    requires len <= DAY
    ensures MinuteOf(c + len) == (if MinuteOf(c) + len < DAY then MinuteOf(c) + len else MinuteOf(c) + len - DAY)
  {
    if c >= DAY {
      Wrap(c - DAY, len);
    }
  }

  /** The shift on duty after `k` handoffs, starting with shift `i`. */
  ghost function Walk(ivs: seq<Interval>, i: nat, k: nat): (w: nat)
    requires Tiles(ivs) && i < |ivs|
    ensures w < |ivs|
  {
    if k == 0 then i else Handoff(ivs, Walk(ivs, i, k - 1))
  }

  /** The minute of the `k`-th handoff, counted on past midnight without wrapping. */
  ghost function Clock(ivs: seq<Interval>, i: nat, k: nat): nat
    requires Tiles(ivs) && i < |ivs|
  {
    if k == 0 then ivs[i].from else Clock(ivs, i, k - 1) + Length(ivs[Walk(ivs, i, k - 1)])
  }

  lemma {:induction false} WalkStarts(ivs: seq<Interval>, i: nat, k: nat)
    requires Tiles(ivs) && i < |ivs|
    ensures ivs[Walk(ivs, i, k)].from == MinuteOf(Clock(ivs, i, k))
  {
    if k > 0 {
      WalkStarts(ivs, i, k - 1);
      HandoffMeets(ivs, Walk(ivs, i, k - 1));
      Wrap(Clock(ivs, i, k - 1), Length(ivs[Walk(ivs, i, k - 1)]));
    }
  }

  lemma WalkCovers(ivs: seq<Interval>, i: nat, k: nat, x: nat)
    requires Tiles(ivs) && i < |ivs|
    requires Clock(ivs, i, k) <= x < Clock(ivs, i, k + 1)
    ensures Owner(ivs, MinuteOf(x)) == Walk(ivs, i, k)
  {
    WalkStarts(ivs, i, k);
    Wrap(Clock(ivs, i, k), x - Clock(ivs, i, k));
    assert ivs[Walk(ivs, i, k)].from != ivs[Walk(ivs, i, k)].to;
    OwnerUnique(ivs, MinuteOf(x), Walk(ivs, i, k));
  }

  lemma {:induction false} ClockGrows(ivs: seq<Interval>, i: nat, j: nat, k: nat)
    requires Tiles(ivs) && i < |ivs| && j <= k
    ensures Clock(ivs, i, k) >= Clock(ivs, i, j) + (k - j)
    decreases k
  {
    if j < k { ClockGrows(ivs, i, j, k - 1); }
  }

  /** The step during which unwrapped minute `x` passes. */
  lemma {:induction false} StepAt(ivs: seq<Interval>, i: nat, x: nat, bound: nat) returns (k: nat)
    requires Tiles(ivs) && i < |ivs|
    requires Clock(ivs, i, 0) <= x < Clock(ivs, i, bound)
    ensures k < bound && Clock(ivs, i, k) <= x < Clock(ivs, i, k + 1)
  {
    if x >= Clock(ivs, i, bound - 1) {
      k := bound - 1;
    } else {
      k := StepAt(ivs, i, x, bound - 1);
    }
  }

  /** The minute just before a boundary. */
  function Before(m: Minute): Minute {
    if m == 0 then DAY - 1 else m - 1
  }

  lemma ShiftStart(ivs: seq<Interval>, i: nat)
    requires Tiles(ivs) && i < |ivs|
    ensures Owner(ivs, ivs[i].from) == i
    ensures Owner(ivs, Before(ivs[i].from)) != i
  {
    assert ivs[i].from != ivs[i].to;
    OwnerUnique(ivs, ivs[i].from, i);
  }

  /** The shift on duty in the last minute before the start of shift `i` comes round ends right there. */
  lemma NoOverrun(ivs: seq<Interval>, i: nat, k: nat)
    requires Tiles(ivs) && i < |ivs|
    requires Clock(ivs, i, k) <= ivs[i].from + DAY - 1 < Clock(ivs, i, k + 1)
    ensures Clock(ivs, i, k + 1) == ivs[i].from + DAY
  {
    var start := ivs[i].from;
    ShiftStart(ivs, i);
    WalkCovers(ivs, i, k, start + DAY - 1);
    Wrap(start, DAY - 1);
    if Clock(ivs, i, k + 1) > start + DAY {
      WalkCovers(ivs, i, k, start + DAY);
      Wrap(start, DAY);
      assert false;
    }
  }

  /** Some number of handoffs brings the walk back to its first shift exactly one day later. */
  lemma LapCloses(ivs: seq<Interval>, i: nat) returns (laps: nat)
    requires Tiles(ivs) && i < |ivs|
    ensures Clock(ivs, i, laps) == ivs[i].from + DAY
    ensures Walk(ivs, i, laps) == i
  {
    ClockGrows(ivs, i, 0, DAY);
    var last := StepAt(ivs, i, ivs[i].from + DAY - 1, DAY);
    laps := last + 1;
    NoOverrun(ivs, i, last);
    WalkStarts(ivs, i, laps);
    Wrap(ivs[i].from, DAY);
    ShiftStart(ivs, i);
    ShiftStart(ivs, Walk(ivs, i, laps));
  }

  /** The shifts on duty after 0, 1, .. `n` - 1 handoffs. */
  ghost function Round(ivs: seq<Interval>, i: nat, n: nat): seq<nat>
    requires Tiles(ivs) && i < |ivs|
  {
    seq(n, (k: nat) => Walk(ivs, i, k))
  }

  lemma {:induction false} SameDayDistinct(ivs: seq<Interval>, i: nat, laps: nat, a: nat, b: nat)
    requires Tiles(ivs) && i < |ivs| && a < b < laps
    requires Clock(ivs, i, laps) == ivs[i].from + DAY
    ensures Walk(ivs, i, a) != Walk(ivs, i, b)
  {
    WalkStarts(ivs, i, a);
    WalkStarts(ivs, i, b);
    ClockGrows(ivs, i, 0, a);
    ClockGrows(ivs, i, a, b);
    ClockGrows(ivs, i, b, laps);
    var gap := Clock(ivs, i, b) - Clock(ivs, i, a);
    assert 0 < gap < DAY;
    Wrap(Clock(ivs, i, a), gap);
    assert MinuteOf(Clock(ivs, i, b)) != MinuteOf(Clock(ivs, i, a));
  }

  lemma {:induction false} RoundVisitsAll(ivs: seq<Interval>, i: nat, laps: nat)
    requires Tiles(ivs) && i < |ivs|
    requires Clock(ivs, i, laps) == ivs[i].from + DAY
    ensures Permutation(Round(ivs, i, laps), |ivs|)
  {
    var p := Round(ivs, i, laps);
    forall a, b | 0 <= a < b < laps ensures p[a] != p[b] {
      SameDayDistinct(ivs, i, laps, a, b);
    }
    forall j: nat | j < |ivs| ensures j in p {
      var m := ivs[j].from;
      var x := if m >= ivs[i].from then m else m + DAY;
      var k := StepAt(ivs, i, x, laps);
      WalkCovers(ivs, i, k, x);
      Wrap(m, if m >= ivs[i].from then 0 else DAY);
      ShiftStart(ivs, j);
      assert p[k] == j;
    }
  }

  ghost function Lengths(ivs: seq<Interval>): seq<int> {
    seq(|ivs|, k requires 0 <= k < |ivs| => Length(ivs[k]))
  }

  lemma RoundGrows(ivs: seq<Interval>, i: nat, k: nat)
    requires Tiles(ivs) && i < |ivs|
    ensures Sum(Pick(Lengths(ivs), Round(ivs, i, k + 1)))
         == Sum(Pick(Lengths(ivs), Round(ivs, i, k))) + Length(ivs[Walk(ivs, i, k)])
  {
    var longer := Pick(Lengths(ivs), Round(ivs, i, k + 1));
    assert longer[..k] == Pick(Lengths(ivs), Round(ivs, i, k));
  }

  lemma {:induction false} ClockIsSum(ivs: seq<Interval>, i: nat, k: nat)
    requires Tiles(ivs) && i < |ivs|
    ensures Clock(ivs, i, k) == ivs[i].from + Sum(Pick(Lengths(ivs), Round(ivs, i, k)))
  {
    if k > 0 {
      ClockIsSum(ivs, i, k - 1);
      RoundGrows(ivs, i, k - 1);
    }
  }

  /** From any shift, `|ivs|` handoffs visit every shift exactly once and end, 24 hours later,
      at the shift the walk began with. */
  lemma {:induction false} DailyRound(ivs: seq<Interval>, i: nat)
    requires Tiles(ivs) && i < |ivs|
    ensures Permutation(Round(ivs, i, |ivs|), |ivs|)
    ensures Walk(ivs, i, |ivs|) == i
    ensures Clock(ivs, i, |ivs|) == ivs[i].from + DAY
  {
    var laps := LapCloses(ivs, i);
    RoundVisitsAll(ivs, i, laps);
    PermutationSum(Lengths(ivs), Round(ivs, i, laps));
  }

  /** The shifts of a validated schedule last 1440 minutes together. */
  lemma LengthsFillTheDay(ivs: seq<Interval>)
    requires Tiles(ivs)
    ensures Sum(Lengths(ivs)) == DAY
  {
    var i := Owner(ivs, 0);
    DailyRound(ivs, i);
    ClockIsSum(ivs, i, |ivs|);
    PermutationSum(Lengths(ivs), Round(ivs, i, |ivs|));
  }

  /** Exactly one shift is an overnight one, and it is the shift of the last minute of the day. */
  lemma OneOvernightShift(ivs: seq<Interval>, i: nat)
    requires Tiles(ivs) && i < |ivs|
    ensures ivs[i].from > ivs[i].to <==> i == Owner(ivs, DAY - 1)
  {
    var night := Owner(ivs, DAY - 1);
    assert ivs[i].from != ivs[i].to && ivs[night].from != ivs[night].to;
    if ivs[i].from > ivs[i].to {
      OwnerUnique(ivs, DAY - 1, i);
    }
  }
}

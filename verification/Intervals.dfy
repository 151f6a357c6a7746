/** Circular minute intervals of a day: the shape in which a shift schedule is validated. */
module Intervals {

  const DAY: nat := 1440

  type Minute = m: nat | m < 1440

  /** Minute of the day of a minute counted on past midnight. */
  function MinuteOf(x: nat): Minute {
    if x < DAY then x else MinuteOf(x - DAY)
  }

  /** One shift in minutes since midnight, `[from, to)`, wrapping through midnight when `from > to`. */
  datatype Interval = Interval(phone: string, from: Minute, to: Minute)

  predicate Covers(iv: Interval, m: Minute) {
    if iv.from < iv.to then iv.from <= m < iv.to else iv.from <= m || m < iv.to
  }

  /** Number of minutes from the start of the interval to its end, going forward. */
  function Length(iv: Interval): nat {
    if iv.from < iv.to then iv.to - iv.from else iv.to + DAY - iv.from
  }

  ghost predicate ProperEnds(ivs: seq<Interval>) {
    forall i :: 0 <= i < |ivs| ==> ivs[i].from != ivs[i].to
  }

  ghost predicate Covered(ivs: seq<Interval>, m: Minute) {
    exists i :: 0 <= i < |ivs| && Covers(ivs[i], m)
  }

  ghost predicate Clash(ivs: seq<Interval>, i: nat, j: nat, m: Minute)
    requires i < |ivs| && j < |ivs|
  {
    Covers(ivs[i], m) && Covers(ivs[j], m)
  }

  ghost predicate NoOverlap(ivs: seq<Interval>) {
    forall m: Minute, i: nat, j: nat :: i < j < |ivs| ==> !Clash(ivs, i, j, m)
  }

  /** The intervals cut the circle of the day into pieces: every minute lies in exactly one. */
  ghost predicate Tiles(ivs: seq<Interval>) {
    && ProperEnds(ivs)
    && (forall m: Minute :: Covered(ivs, m))
    && NoOverlap(ivs)
  }

  /** The interval of a tiling that covers minute `m`. */
  ghost function Owner(ivs: seq<Interval>, m: Minute): (i: nat)
    requires Tiles(ivs)
    ensures i < |ivs| && Covers(ivs[i], m)
  {
    assert Covered(ivs, m);
    var i: nat :| i < |ivs| && Covers(ivs[i], m);
    i
  }

  /** No other interval covers it. */
  lemma OwnerUnique(ivs: seq<Interval>, m: Minute, i: nat)
    requires Tiles(ivs) && i < |ivs| && Covers(ivs[i], m)
    ensures i == Owner(ivs, m)
  {
    var j := Owner(ivs, m);
    if i < j { assert Clash(ivs, i, j, m); }
    if j < i { assert Clash(ivs, j, i, m); }
  }
}

/** The two derived statistics the frontend shows beside the raw counters
    (frontend/script.js, `viewPlayerStats`, `displayStats` and
    `displayLeaders`). They are computed as exact rationals here; the
    display rounding of `toFixed` is not modelled. */
module Metrics {
  import opened Entities

  /** Points per throw: points / throws, or 0 when there are no throws. */
  function PointsPerThrow(s: Stats): (r: real)
    ensures s.throws > 0 ==> r * (s.throws as real) == s.points as real
    ensures s.throws <= 0 ==> r == 0.0
  {
    if s.throws > 0 then (s.points as real) / (s.throws as real) else 0.0
  }

  /** Catch percentage: catches / (catches + drops) * 100, or 0 when there
      are no attempts. */
  function CatchPercentage(s: Stats): (r: real)
    ensures s.catches + s.drops > 0 ==>
              r * ((s.catches + s.drops) as real) == (s.catches as real) * 100.0
    ensures s.catches + s.drops <= 0 ==> r == 0.0
  {
    var attempts := s.catches + s.drops;
    if attempts > 0 then (s.catches as real) / (attempts as real) * 100.0 else 0.0
  }

  /** With non-negative counters the catch percentage is a percentage. */
  lemma CatchPercentageBounds(s: Stats)
    requires s.catches >= 0 && s.drops >= 0
    ensures 0.0 <= CatchPercentage(s) <= 100.0
  {
    var attempts := s.catches + s.drops;
    if attempts > 0 {
      var q := (s.catches as real) / (attempts as real);
      assert q * (attempts as real) == s.catches as real;
      assert 0.0 <= q <= 1.0;
    }
  }

  /** A player who never drops catches 100 percent of their attempts. */
  lemma NoDropsIsPerfect(s: Stats)
    requires s.catches > 0 && s.drops == 0
    ensures CatchPercentage(s) == 100.0
  {
  }

  /** With non-negative points and throws, points per throw is never
      negative and never exceeds the points. */
  lemma PointsPerThrowBounds(s: Stats)
    requires s.points >= 0 && s.throws >= 0
    ensures 0.0 <= PointsPerThrow(s)
    ensures PointsPerThrow(s) <= s.points as real
  {
    if s.throws > 0 {
      var q := PointsPerThrow(s);
      assert q * (s.throws as real) == s.points as real;
      assert q <= q * (s.throws as real);
    }
  }

  /** 25 points on 10 throws; 8 catches and 2 drops. */
  lemma Examples()
    ensures PointsPerThrow(Stats(25, 0, 10, 0, 0, 0)) == 2.5
    ensures CatchPercentage(Stats(0, 0, 0, 8, 2, 0)) == 80.0
    ensures PointsPerThrow(Stats(7, 0, 0, 0, 0, 0)) == 0.0
    ensures CatchPercentage(Stats(0, 0, 0, 0, 0, 0)) == 0.0
  {
  }
}

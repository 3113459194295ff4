/** The score of a correct guess: the round's maximum score, in proportion to
    the time left in the round, times the streak multiplier, rounded up. */
module Scoring {
  import opened Options

  /** `Math.ceil` on an exact real: the least integer not below `x`. */
  function Ceil(x: real): (r: int)
    ensures x <= r as real < x + 1.0
  {
    -((-x).Floor)
  }

  /** The score of a correct guess with `t` milliseconds left in the round and
      multiplier `m`; any positive time earns a point, and a whole round's time
      earns at most the maximum round score times the multiplier. */
  function RoundScore(t: real, m: int): (s: int)
    ensures t > 0.0 && m >= 1 ==> s >= 1
    ensures t <= RoundTime && m >= 0 ==> s <= MaxRoundScore * m
    ensures t <= 0.0 && m >= 0 ==> s <= 0
  {
    var rate := MaxRoundScore as real / RoundTime;
    var x := rate * t * m as real;
    assert t > 0.0 && m >= 1 ==> x > 0.0 by {
      if t > 0.0 && m >= 1 {
        assert t * m as real >= t;
      }
    }
    assert t <= RoundTime && m >= 0 ==> x <= (MaxRoundScore * m) as real by {
      if t <= RoundTime && m >= 0 {
        assert t * m as real <= RoundTime * m as real;
      }
    }
    assert t <= 0.0 && m >= 0 ==> x <= 0.0 by {
      if t <= 0.0 && m >= 0 {
        assert t * m as real <= 0.0;
      }
    }
    Ceil(x)
  }

  /** More time left never earns less. */
  lemma RoundScoreMonotonic(t1: real, t2: real, m: int)
    requires t1 <= t2 && m >= 0
    ensures RoundScore(t1, m) <= RoundScore(t2, m)
  {
    var rate := MaxRoundScore as real / RoundTime;
    assert t1 * m as real <= t2 * m as real;
    assert rate * t1 * m as real <= rate * t2 * m as real;
    CeilMonotonic(rate * t1 * m as real, rate * t2 * m as real);
  }

  lemma CeilMonotonic(x: real, y: real)
    requires x <= y
    ensures Ceil(x) <= Ceil(y)
  {
    assert (-y).Floor <= (-x).Floor;
  }

  /** A correct guess with 15000 ms left and multiplier 1 scores
      ceil(30 * 15000 / 20000) = ceil(22.5) = 23. */
  lemma RoundScoreExample()
    ensures RoundScore(15000.0, 1) == 23
  {
  }
}

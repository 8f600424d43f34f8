/** Win rates as exact fractions. The exporter divides `victories` by
    `games_played` in floating point; here a rate keeps numerator and
    denominator, and two rates are compared by cross-multiplication. */
module Rates {

  type Positive = n: nat | n > 0 witness 1

  datatype Rate = Rate(num: nat, den: Positive)

  /** `a <= b` as rational numbers. */
  predicate AtMost(a: Rate, b: Rate) { a.num * b.den <= b.num * a.den }

  /** `a < b` as rational numbers. */
  predicate Below(a: Rate, b: Rate) { a.num * b.den < b.num * a.den }

  /** `a == b` as rational numbers (`1/2` ties with `2/4`). */
  predicate Tie(a: Rate, b: Rate) { a.num * b.den == b.num * a.den }

  /** `victories / games_played if games_played > 0 else 0`. */
  function WinRate(victories: nat, games: nat): (r: Rate)
    ensures games > 0 ==> r.num * games == victories * r.den
    ensures games == 0 ==> r.num == 0
  {
    if games > 0 then Rate(victories, games) else Rate(0, 1)
  }

  /** A brawler never wins more often than always. */
  lemma WinRateAtMostOne(victories: nat, games: nat)
    requires victories <= games
    ensures AtMost(WinRate(victories, games), Rate(1, 1))
  {
  }

  lemma MulMonotone(x: int, y: int, z: nat)
    requires x <= y
    ensures x * z <= y * z
  {
  }

  lemma MulCancel(x: int, y: int, z: Positive)
    requires x * z <= y * z
    ensures x <= y
  {
    if x > y {
      MulStrict(y, x, z);
    }
  }

  lemma MulStrict(x: int, y: int, z: Positive)
    requires x < y
    ensures x * z < y * z
  {
  }

  lemma {:induction false} AtMostTransitive(a: Rate, b: Rate, c: Rate)
    requires AtMost(a, b) && AtMost(b, c)
    ensures AtMost(a, c)
  {
    MulMonotone(a.num * b.den, b.num * a.den, c.den);
    MulMonotone(b.num * c.den, c.num * b.den, a.den);
    assert (a.num * c.den) * b.den <= (c.num * a.den) * b.den by {
      calc {
        (a.num * c.den) * b.den;
        == (a.num * b.den) * c.den;
        <= (b.num * a.den) * c.den;
        == (b.num * c.den) * a.den;
        <= (c.num * b.den) * a.den;
        == (c.num * a.den) * b.den;
      }
    }
    MulCancel(a.num * c.den, c.num * a.den, b.den);
  }

  /** A rate strictly below one tied with `r` is not itself tied with `r`. */
  lemma {:induction false} BelowNotTie(y: Rate, x: Rate, r: Rate)
    requires Below(y, x) && Tie(x, r)
    ensures !Tie(y, r)
  {
    MulStrict(y.num * x.den, x.num * y.den, r.den);
    assert (y.num * r.den) * x.den < (r.num * y.den) * x.den by {
      calc {
        (y.num * r.den) * x.den;
        == (y.num * x.den) * r.den;
        < (x.num * y.den) * r.den;
        == (x.num * r.den) * y.den;
        == (r.num * x.den) * y.den;
        == (r.num * y.den) * x.den;
      }
    }
  }
}

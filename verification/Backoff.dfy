/**
 How long the client holds back after the platform signals risk. Durations are exact real
 numbers of seconds and a random draw is a parameter in [0, 1).
 */
module Backoff {
  datatype Config = Config(base: real, max: real, jitter: real)

  /** NewClient's defaults: every client has a positive base and cap and no negative jitter. */
  function Sane(c: Config): (r: Config)
    ensures Usable(r) && (Usable(c) ==> r == c)
    ensures c.base <= 0.0 ==> r.base == 2.0
    ensures c.max <= 0.0 ==> r.max == 30.0
    ensures c.jitter < 0.0 ==> r.jitter == 0.0
  {
    Config(
      if c.base <= 0.0 then 2.0 else c.base,
      if c.max <= 0.0 then 30.0 else c.max,
      if c.jitter < 0.0 then 0.0 else c.jitter)
  }

  predicate Usable(c: Config) {
    c.base > 0.0 && c.max > 0.0 && c.jitter >= 0.0
  }

  function Min(a: real, b: real): real {
    if a < b then a else b
  }

  function Max(a: real, b: real): real {
    if a < b then b else a
  }

  predicate Draw(u: real) {
    0.0 <= u < 1.0
  }

  function Factor(jitter: real, u: real): real {
    Max(1.0 + (u * 2.0 - 1.0) * jitter, 0.1)
  }

  function Grown(c: Config, backoff: real): real {
    Min(if backoff <= 0.0 then c.base else backoff * 2.0, c.max)
  }

  /** The next backoff, given the one in force (zero for none). */
  function Next(c: Config, backoff: real, u: real): real {
    if c.jitter > 0.0 then Grown(c, backoff) * Factor(c.jitter, u) else Grown(c, backoff)
  }

  class Risk {
    const config: Config
    var backoff: real
    var until: real

    constructor (c: Config)
      ensures config == Sane(c) && backoff == 0.0 && until == 0.0
    {
      config := Sane(c);
      backoff := 0.0;
      until := 0.0;
    }

    method Mark(now: real, u: real)
      requires Usable(config) && Draw(u)
      modifies this
      ensures backoff == Next(config, old(backoff), u) && until == now + backoff
    {
      var next := backoff;
      if next <= 0.0 {
        next := config.base;
      } else {
        next := next * 2.0;
      }
      if config.max > 0.0 && next > config.max {
        next := config.max;
      }
      if config.jitter > 0.0 {
        var factor := 1.0 + (u * 2.0 - 1.0) * config.jitter;
        if factor < 0.1 {
          factor := 0.1;
        }
        next := next * factor;
      }
      backoff := next;
      until := now + backoff;
    }

    method Reset()
      modifies this
      ensures backoff == 0.0 && until == 0.0
    {
      backoff := 0.0;
      until := 0.0;
    }
  }

  // ---- Runs ----------------------------------------------------------------------------------

  datatype Event = Mark(u: real) | Reset

  predicate Drawn(run: seq<Event>) {
    forall i :: 0 <= i < |run| && run[i].Mark? ==> Draw(run[i].u)
  }

  /** The backoff in force after the run. */
  function After(c: Config, run: seq<Event>): real {
    if run == [] then 0.0
    else
      var before := After(c, run[..|run| - 1]);
      match run[|run| - 1]
      case Mark(u) => Next(c, before, u)
      case Reset => 0.0
  }

  /** The number of marks since the last reset. */
  function Marks(run: seq<Event>): nat {
    if run == [] || run[|run| - 1].Reset? then 0 else Marks(run[..|run| - 1]) + 1
  }

  function Doubled(x: real, k: nat): real {
    if k == 0 then x else 2.0 * Doubled(x, k - 1)
  }

  /** Without jitter the k-th mark since a reset backs off for base * 2^(k-1), capped. */
  lemma {:induction false} WithoutJitterItDoubles(c: Config, run: seq<Event>)
    requires Usable(c) && c.jitter == 0.0
    ensures After(c, run) == if Marks(run) == 0 then 0.0 else Min(Doubled(c.base, Marks(run) - 1), c.max)
  {
    if run != [] && run[|run| - 1].Mark? {
      var front := run[..|run| - 1];
      WithoutJitterItDoubles(c, front);
      DoubledIsPositive(c.base, Marks(front));
      if Marks(front) > 0 {
        DoubledIsPositive(c.base, Marks(front) - 1);
      }
    }
  }

  lemma {:induction false} DoubledIsPositive(x: real, k: nat)
    requires x > 0.0
    ensures Doubled(x, k) > 0.0
  {
    if k > 0 {
      DoubledIsPositive(x, k - 1);
    }
  }

  // ---- Jitter --------------------------------------------------------------------------------

  function LowFactor(c: Config): real {
    Max(1.0 - c.jitter, 0.1)
  }

  function Least(c: Config): real {
    Min(c.base, c.max) * LowFactor(c)
  }

  function Most(c: Config): real {
    c.max * (1.0 + c.jitter)
  }

  /** A backoff that is not in force, or one that jitter has moved by no more than its share. */
  predicate InBounds(c: Config, backoff: real) {
    backoff == 0.0 || Least(c) <= backoff <= Most(c)
  }

  lemma FactorBounds(jitter: real, u: real)
    requires jitter >= 0.0 && Draw(u)
    ensures Max(1.0 - jitter, 0.1) <= Factor(jitter, u) <= 1.0 + jitter
  {
    assert 0.0 <= u * jitter <= jitter;
    assert (u * 2.0 - 1.0) * jitter == 2.0 * (u * jitter) - jitter;
  }

  lemma ProductBounds(a: real, b: real, x: real, y: real)
    requires 0.0 <= a <= b && 0.0 <= x <= y
    ensures a * x <= b * y
  {
    assert a * x <= b * x <= b * y;
  }

  lemma GrownInBounds(c: Config, backoff: real)
    requires Usable(c) && c.jitter <= 0.5 && InBounds(c, backoff)
    ensures 0.0 < Min(c.base, c.max) <= Grown(c, backoff) <= c.max
  {
    LeastIsHalf(c);
    var m := Min(c.base, c.max);
    assert backoff > 0.0 ==> backoff * 2.0 >= m;
  }

  lemma LeastIsHalf(c: Config)
    requires Usable(c) && c.jitter <= 0.5
    ensures 0.0 < Min(c.base, c.max) * 0.5 <= Least(c)
  {
    var m, low := Min(c.base, c.max), LowFactor(c);
    ProductBounds(m, m, 0.5, low);
    assert Least(c) == m * low;
  }

  lemma NextInBounds(c: Config, backoff: real, u: real)
    requires Usable(c) && c.jitter <= 0.5 && Draw(u) && InBounds(c, backoff)
    ensures Next(c, backoff, u) > 0.0 && InBounds(c, Next(c, backoff, u))
  {
    hide Grown, Factor, Min;
    GrownInBounds(c, backoff);
    var m, grown := Min(c.base, c.max), Grown(c, backoff);
    LeastIsHalf(c);
    if c.jitter > 0.0 {
      var low, f, high := LowFactor(c), Factor(c.jitter, u), 1.0 + c.jitter;
      FactorBounds(c.jitter, u);
      ProductBounds(m, grown, low, f);
      ProductBounds(grown, c.max, f, high);
      assert Least(c) == m * low && Most(c) == c.max * high;
    } else {
      assert LowFactor(c) == 1.0;
    }
  }

  lemma {:induction false} RunInBounds(c: Config, run: seq<Event>)
    requires Usable(c) && c.jitter <= 0.5 && Drawn(run)
    ensures InBounds(c, After(c, run)) && (Marks(run) > 0 ==> After(c, run) > 0.0)
  {
    if run != [] {
      var front, last := run[..|run| - 1], run[|run| - 1];
      RunInBounds(c, front);
      if last.Mark? {
        NextInBounds(c, After(c, front), last.u);
      }
    }
  }

  /** With more jitter two unlucky marks in a row fall below the bound. */
  lemma UnluckyMarks(c: Config)
    requires Usable(c) && c.jitter > 0.5
    ensures !InBounds(c, After(c, [Mark(0.0), Mark(0.0)]))
  {
    hide Next, Least, Most, Usable;
    var run := [Mark(0.0), Mark(0.0)];
    assert run[..1] == [Mark(0.0)] && run[..1][..0] == [];
    UnluckyMark(c, 0.0);
    assert After(c, run[..1]) == Least(c);
    UnluckyMark(c, Least(c));
    assert After(c, run) == Next(c, Least(c), 0.0);
  }

  lemma WorstDraw(c: Config)
    requires Usable(c) && c.jitter > 0.5
    ensures Factor(c.jitter, 0.0) == LowFactor(c) && 0.0 < LowFactor(c) < 0.5
    ensures 0.0 < Min(c.base, c.max) <= c.max
  {
  }

  /** The worst draw takes a first backoff to the least one and the least one below itself. */
  lemma UnluckyMark(c: Config, backoff: real)
    requires Usable(c) && c.jitter > 0.5 && (backoff == 0.0 || backoff == Least(c))
    ensures Least(c) > 0.0
    ensures var next := Next(c, backoff, 0.0); if backoff == 0.0 then next == Least(c) else 0.0 < next < Least(c)
  {
    hide Factor, LowFactor;
    WorstDraw(c);
    var m, low, grown := Min(c.base, c.max), LowFactor(c), Grown(c, backoff);
    Shrinks(m, low, m * low);
    assert Least(c) == m * low;
    assert backoff * 2.0 == backoff + backoff;
    assert if backoff == 0.0 then grown == m else grown == backoff * 2.0;
    if backoff != 0.0 {
      hide Min, Grown, Least, Usable;
      Scales(grown, m, low);
    }
  }

  lemma Shrinks(m: real, low: real, least: real)
    requires m > 0.0 && 0.0 < low < 0.5 && least == m * low
    ensures 0.0 < least && least + least < m
  {
    var half := 0.5 * m;
    Scales(low, 0.5, m);
    assert least == low * m < half && half + half == m;
  }

  lemma Scales(a: real, b: real, x: real)
    requires 0.0 < a < b && x > 0.0
    ensures 0.0 < a * x < b * x
  {
  }

  /** Every backoff stays within the jitter's share of the bounds in every run, exactly when the
      jitter is at most one half. */
  lemma JitterBoundsHold(c: Config)
    requires Usable(c)
    ensures (forall run :: Drawn(run) ==> InBounds(c, After(c, run))) <==> c.jitter <= 0.5
  {
    if c.jitter <= 0.5 {
      forall run | Drawn(run) ensures InBounds(c, After(c, run)) {
        RunInBounds(c, run);
      }
    } else {
      UnluckyMarks(c);
      assert Drawn([Mark(0.0), Mark(0.0)]);
    }
  }

  // ---- Between the extremes ------------------------------------------------------------------

  /** The jitter moves the doubled or first backoff along a line, from its share below for the least
      draw to its share above for the greatest, but never below a tenth. */
  lemma JitterIsLinear(c: Config, backoff: real, u: real)
    requires Usable(c) && Draw(u) && backoff >= 0.0
    ensures var grown := if backoff == 0.0 then Min(c.base, c.max) else Min(backoff + backoff, c.max);
      var share := c.jitter * grown;
      var line := grown - share + u * (share + share);
      Next(c, backoff, u) == if line < 0.1 * grown then 0.1 * grown else line
  {
    var grown := if backoff == 0.0 then Min(c.base, c.max) else Min(backoff + backoff, c.max);
    assert grown == Grown(c, backoff) && grown > 0.0;
    var f := 1.0 + (u * 2.0 - 1.0) * c.jitter;
    hide Grown, Min, Usable;
    LineIsProduct(grown, c.jitter, u);
    KeepsOrder(f, 0.1, grown);
  }

  lemma KeepsOrder(a: real, b: real, x: real)
    requires x > 0.0
    ensures x * a < x * b <==> a < b
  {
  }

  lemma LineIsProduct(grown: real, jitter: real, u: real)
    ensures grown * (1.0 + (u * 2.0 - 1.0) * jitter) == grown - jitter * grown + u * (jitter * grown + jitter * grown)
  {
    var share := jitter * grown;
    assert grown * ((u * 2.0 - 1.0) * jitter) == (u * 2.0 - 1.0) * share;
    assert (u * 2.0 - 1.0) * share == u * (share + share) - share;
  }
}

/** Properties of the modified SAR series: the three outcomes of a bar, the
    reversal rule, the bounds of the acceleration factor, the extreme point
    as the best price of the current regime, and a worked example. */
module ModifiedSarProperties {
  import opened ModifiedSar

  /** The larger of two prices, the first on a tie. */
  function Max(x: real, y: real): real {
    if y > x then y else x
  }

  /** The highest high of a non-empty run of bars. */
  function MaxHigh(bs: seq<Bar>): real
    requires |bs| > 0
  {
    if |bs| == 1 then bs[0].high else Max(MaxHigh(bs[..|bs| - 1]), bs[|bs| - 1].high)
  }

  /** The lowest low of a non-empty run of bars. */
  function MinLow(bs: seq<Bar>): real
    requires |bs| > 0
  {
    if |bs| == 1 then bs[0].low else Min(MinLow(bs[..|bs| - 1]), bs[|bs| - 1].low)
  }

  /** Bar i leaves the candidate stop untouched: an up regime's low stays
      strictly above it, a down regime's high strictly below it. */
  ghost predicate Untouched(bars: seq<Bar>, afStart: real, afLimit: real, i: nat)
    requires 1 <= i < |bars|
  {
    var p := States(bars, afStart, afLimit)[i - 1];
    var c := Candidate(p);
    (p.trend == Up && bars[i].low > c) || (p.trend == Down && bars[i].high < c)
  }

  /** No touch: the regime is kept and the stop is the candidate; the factor
      changes only if the bar makes a new extreme, and then it is bumped. */
  lemma NoTouchCase(bars: seq<Bar>, afStart: real, afLimit: real, i: nat)
    requires 1 <= i < |bars|
    requires Untouched(bars, afStart, afLimit, i)
    ensures var p := States(bars, afStart, afLimit)[i - 1];
            var q := States(bars, afStart, afLimit)[i];
            var b := bars[i];
            q.trend == p.trend && q.sar == Candidate(p)
            && (if p.trend == Up && b.high > p.ep then q.ep == b.high && q.af == Min(afLimit, p.af + afStart)
                else if p.trend == Down && b.low < p.ep then q.ep == b.low && q.af == Min(afLimit, p.af + afStart)
                else q.ep == p.ep && q.af == p.af)
  {
    StatesStep(bars, afStart, afLimit, i);
  }

  /** Touch without confirmation: the low (high) reaches the candidate but
      the close stays strictly above (below) it. The regime is kept, the stop
      is the candidate and the factor restarts at afStart, bumped once more
      if the bar also makes a new extreme. */
  lemma TouchHeldCase(bars: seq<Bar>, afStart: real, afLimit: real, i: nat)
    requires 1 <= i < |bars|
    requires var p := States(bars, afStart, afLimit)[i - 1]; var c := Candidate(p);
             (p.trend == Up && bars[i].low <= c && bars[i].close > c)
             || (p.trend == Down && bars[i].high >= c && bars[i].close < c)
    ensures var p := States(bars, afStart, afLimit)[i - 1];
            var q := States(bars, afStart, afLimit)[i];
            var b := bars[i];
            q.trend == p.trend && q.sar == Candidate(p)
            && (if p.trend == Up && b.high > p.ep then q.ep == b.high && q.af == Min(afLimit, afStart + afStart)
                else if p.trend == Down && b.low < p.ep then q.ep == b.low && q.af == Min(afLimit, afStart + afStart)
                else q.ep == p.ep && q.af == afStart)
  {
    StatesStep(bars, afStart, afLimit, i);
  }

  /** Confirmed reversal: the low (high) reaches the candidate and the close
      does not stay strictly on the regime's side. The regime flips, the stop
      jumps to the previous extreme, the factor restarts and the extreme is
      the bar's low (high); the extreme-point update leaves them as they are. */
  lemma ReversalCase(bars: seq<Bar>, afStart: real, afLimit: real, i: nat)
    requires 1 <= i < |bars|
    requires var p := States(bars, afStart, afLimit)[i - 1]; var c := Candidate(p);
             (p.trend == Up && bars[i].low <= c && bars[i].close <= c)
             || (p.trend == Down && bars[i].high >= c && bars[i].close >= c)
    ensures var p := States(bars, afStart, afLimit)[i - 1];
            var q := States(bars, afStart, afLimit)[i];
            q.trend == Opposite(p.trend) && q.sar == p.ep && q.af == afStart
            && q.ep == (if p.trend == Up then bars[i].low else bars[i].high)
  {
    StatesStep(bars, afStart, afLimit, i);
  }

  /** The regime changes from index i - 1 to index i exactly when the close
      confirms a touch of the candidate stop. */
  lemma TrendChangeIffReversal(bars: seq<Bar>, afStart: real, afLimit: real, i: nat)
    requires 1 <= i < |bars|
    ensures var p := States(bars, afStart, afLimit)[i - 1];
            var q := States(bars, afStart, afLimit)[i];
            var c := Candidate(p);
            q.trend != p.trend
            <==> (p.trend == Up && bars[i].low <= c && bars[i].close <= c)
                 || (p.trend == Down && bars[i].high >= c && bars[i].close >= c)
  {
    StatesStep(bars, afStart, afLimit, i);
  }

  /** With 0 < afStart <= afLimit every factor of the series lies in
      [afStart, afLimit]. */
  lemma {:induction false} AfInRange(bars: seq<Bar>, afStart: real, afLimit: real, i: nat)
    requires 0.0 < afStart <= afLimit
    requires i < |bars|
    ensures afStart <= States(bars, afStart, afLimit)[i].af <= afLimit
  {
    if i > 0 {
      AfInRange(bars, afStart, afLimit, i - 1);
      StatesStep(bars, afStart, afLimit, i);
    }
  }

  /** While the regime stays the same, the extreme point never moves against
      it: it does not fall in an up regime and does not rise in a down one. */
  lemma {:induction false} EpMonotoneWithinRegime(bars: seq<Bar>, afStart: real, afLimit: real, j: nat, k: nat)
    requires j <= k < |bars|
    requires forall m :: j <= m <= k ==>
               States(bars, afStart, afLimit)[m].trend == States(bars, afStart, afLimit)[j].trend
    ensures var s := States(bars, afStart, afLimit);
            (s[j].trend == Up ==> s[j].ep <= s[k].ep)
            && (s[j].trend == Down ==> s[j].ep >= s[k].ep)
  {
    if j < k {
      EpMonotoneWithinRegime(bars, afStart, afLimit, j, k - 1);
      TrendChangeIffReversal(bars, afStart, afLimit, k);
      StatesStep(bars, afStart, afLimit, k);
    }
  }

  /** The extreme point is the best price since the regime began: when the
      regime starts at index j (the first bar or a bar where it changed) and
      holds through index i, the extreme at i is the highest high (up) or the
      lowest low (down) of bars j through i. */
  lemma {:induction false} EpIsExtremeSinceRegimeStart(bars: seq<Bar>, afStart: real, afLimit: real, j: nat, i: nat)
    requires j <= i < |bars|
    requires j == 0 || States(bars, afStart, afLimit)[j].trend != States(bars, afStart, afLimit)[j - 1].trend
    requires forall m :: j <= m <= i ==>
               States(bars, afStart, afLimit)[m].trend == States(bars, afStart, afLimit)[j].trend
    ensures var s := States(bars, afStart, afLimit);
            (s[j].trend == Up ==> s[i].ep == MaxHigh(bars[j..i + 1]))
            && (s[j].trend == Down ==> s[i].ep == MinLow(bars[j..i + 1]))
  {
    var s := States(bars, afStart, afLimit);
    if i == j {
      assert bars[j..i + 1] == [bars[j]];
      if j > 0 {
        TrendChangeIffReversal(bars, afStart, afLimit, j);
        StatesStep(bars, afStart, afLimit, j);
      }
    } else {
      EpIsExtremeSinceRegimeStart(bars, afStart, afLimit, j, i - 1);
      TrendChangeIffReversal(bars, afStart, afLimit, i);
      StatesStep(bars, afStart, afLimit, i);
      assert bars[j..i + 1][..i - j] == bars[j..i];
      assert bars[j..i + 1][i - j] == bars[i];
    }
  }

  /** A series in which no bar touches the stop keeps its first regime
      throughout, every stop is the candidate, and (for 0 < afStart <= afLimit)
      the factor never falls back. */
  lemma {:induction false} NoTouchSeries(bars: seq<Bar>, afStart: real, afLimit: real, i: nat)
    requires 0.0 < afStart <= afLimit
    requires i < |bars|
    requires forall m :: 1 <= m < |bars| ==> Untouched(bars, afStart, afLimit, m)
    ensures var s := States(bars, afStart, afLimit);
            s[i].trend == s[0].trend
            && (i > 0 ==> s[i].sar == Candidate(s[i - 1]) && s[i - 1].af <= s[i].af)
  {
    if i > 0 {
      NoTouchSeries(bars, afStart, afLimit, i - 1);
      assert Untouched(bars, afStart, afLimit, i);
      AfInRange(bars, afStart, afLimit, i - 1);
      NoTouchCase(bars, afStart, afLimit, i);
    }
  }

  /** Three bars traced through the recurrence with the default parameters:
      an up regime that is taken over by a confirmed reversal on the third bar. */
  lemma WorkedExample()
    ensures var bars := [Bar(10.0, 9.0, 9.5), Bar(11.0, 9.5, 10.5), Bar(9.0, 8.0, 8.2)];
            var s := States(bars, DefaultAfStart, DefaultAfLimit);
            s == [State(9.0, Up, 0.02, 10.0), State(9.02, Up, 0.04, 11.0), State(11.0, Down, 0.02, 8.0)]
            && Candidate(s[1]) == 9.0992
  {
  }
}

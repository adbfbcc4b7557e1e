/** A model of the modified Parabolic Stop-And-Reverse indicator: the
    one-bar transition, the series it folds into, and the array-filling
    scan that computes that series in place. */
module ModifiedSar {

  /** The regime of the indicator; the scan stores it as 1 (up) or -1 (down). */
  datatype Trend = Up | Down

  /** The integer code of a trend in the trend array. */
  function Sign(t: Trend): int {
    if t == Up then 1 else -1
  }

  function Opposite(t: Trend): Trend {
    if t == Up then Down else Up
  }

  /** One price bar; only these three prices enter the computation. */
  datatype Bar = Bar(high: real, low: real, close: real)

  /** The four values carried from bar to bar: the stop, the regime, the
      acceleration factor and the extreme point. */
  datatype State = State(sar: real, trend: Trend, af: real, ep: real)

  /** Default parameters of the scan. */
  const DefaultAfStart: real := 0.02
  const DefaultAfLimit: real := 0.2

  /** Python's built-in two-argument `min`: the first argument unless the
      second is strictly smaller. */
  function Min(x: real, y: real): real {
    if y < x then y else x
  }

  /** The state at index 0: the regime is up exactly when the close of the
      bar at index min(1, n - 1) is strictly above the first close. On a
      single bar that compares the first close with itself, so the regime
      is down. */
  function Init(bars: seq<Bar>, afStart: real): (s: State)
    requires |bars| > 0
    ensures s.trend == Up <==> |bars| > 1 && bars[1].close > bars[0].close
    ensures s.trend == Up ==> s.sar == bars[0].low && s.ep == bars[0].high
    ensures s.trend == Down ==> s.sar == bars[0].high && s.ep == bars[0].low
    ensures s.af == afStart
  {
    var k := if |bars| - 1 < 1 then |bars| - 1 else 1;
    var trend := if bars[k].close > bars[0].close then Up else Down;
    State(if trend == Up then bars[0].low else bars[0].high,
          trend,
          afStart,
          if trend == Up then bars[0].high else bars[0].low)
  }

  /** The provisional stop computed from the previous state: the stop moves
      the fraction af of the way toward the extreme point, so with a factor
      in [0, 1] it lies between the previous stop and the extreme. */
  function Candidate(s: State): (c: real)
    ensures 0.0 <= s.af <= 1.0 && s.sar <= s.ep ==> s.sar <= c <= s.ep
    ensures 0.0 <= s.af <= 1.0 && s.ep <= s.sar ==> s.ep <= c <= s.sar
  {
    var d := s.ep - s.sar;
    var m := s.af * d;
    FractionBetween(s.af, d);
    s.sar + m
  }

  /** The fraction f in [0, 1] of a distance d lies between zero and d. */
  lemma FractionBetween(f: real, d: real)
    ensures 0.0 <= f <= 1.0 && 0.0 <= d ==> 0.0 <= f * d && f * d <= d
    ensures 0.0 <= f <= 1.0 && d <= 0.0 ==> d <= f * d && f * d <= 0.0
  {
  }

  /** What the current bar does to the candidate stop. */
  datatype Event = NoTouch | TouchHeld | Reversal

  /** An up regime is touched when the low reaches the candidate and a down
      regime when the high reaches it, both inclusively; the touch becomes
      a reversal unless the close stays strictly on the regime's side. */
  function Classify(prev: State, b: Bar): Event {
    var c := Candidate(prev);
    match prev.trend
    case Up => if b.low <= c then (if b.close > c then TouchHeld else Reversal) else NoTouch
    case Down => if b.high >= c then (if b.close < c then TouchHeld else Reversal) else NoTouch
  }

  /** The touch and reversal rules: the new stop, regime, factor and
      extreme before the extreme-point update. */
  function React(prev: State, b: Bar, afStart: real): State {
    var c := Candidate(prev);
    match Classify(prev, b)
    case NoTouch => State(c, prev.trend, prev.af, prev.ep)
    case TouchHeld => State(c, prev.trend, afStart, prev.ep)
    case Reversal =>
      State(prev.ep, Opposite(prev.trend), afStart,
            if prev.trend == Up then b.low else b.high)
  }

  /** The extreme-point update: a strictly new extreme in the direction of
      the regime is recorded and bumps the factor, capped at the limit. */
  function Extend(s: State, b: Bar, afStart: real, afLimit: real): State {
    match s.trend
    case Up =>
      if b.high > s.ep then s.(ep := b.high, af := Min(afLimit, s.af + afStart)) else s
    case Down =>
      if b.low < s.ep then s.(ep := b.low, af := Min(afLimit, s.af + afStart)) else s
  }

  /** The transition from the state at index i - 1 to the state at index i.
      The new stop is the candidate or, on a reversal, the previous extreme;
      the factor is kept, restarted, or bumped once from either. */
  function Step(prev: State, b: Bar, afStart: real, afLimit: real): (next: State)
    ensures next.sar == Candidate(prev) || next.sar == prev.ep
    ensures next.af in {prev.af, afStart, Min(afLimit, prev.af + afStart), Min(afLimit, afStart + afStart)}
  {
    Extend(React(prev, b, afStart), b, afStart, afLimit)
  }

  /** The states reached from s0 by stepping over rest, one per bar,
      preceded by s0 itself. */
  function Trace(s0: State, rest: seq<Bar>, afStart: real, afLimit: real): (r: seq<State>)
    ensures |r| == |rest| + 1 && r[0] == s0
    decreases |rest|
  {
    if rest == [] then [s0]
    else
      var t := Trace(s0, rest[..|rest| - 1], afStart, afLimit);
      t + [Step(t[|t| - 1], rest[|rest| - 1], afStart, afLimit)]
  }

  /** The whole series of states: one per bar, the first from Init. */
  function States(bars: seq<Bar>, afStart: real, afLimit: real): (r: seq<State>)
    requires |bars| > 0
    ensures |r| == |bars| && r[0] == Init(bars, afStart)
  {
    Trace(Init(bars, afStart), bars[1..], afStart, afLimit)
  }

  /** Each state of a trace after the first is the step of its predecessor. */
  lemma {:induction false} TraceStep(s0: State, rest: seq<Bar>, afStart: real, afLimit: real, i: nat)
    requires 1 <= i <= |rest|
    ensures Trace(s0, rest, afStart, afLimit)[i]
         == Step(Trace(s0, rest, afStart, afLimit)[i - 1], rest[i - 1], afStart, afLimit)
  {
    if i < |rest| {
      var pre := rest[..|rest| - 1];
      TraceStep(s0, pre, afStart, afLimit, i);
      assert pre[i - 1] == rest[i - 1];
    }
  }

  /** The recurrence of the series: the state at index i is the step of the
      state at index i - 1 over bar i. */
  lemma StatesStep(bars: seq<Bar>, afStart: real, afLimit: real, i: nat)
    requires 1 <= i < |bars|
    ensures States(bars, afStart, afLimit)[i]
         == Step(States(bars, afStart, afLimit)[i - 1], bars[i], afStart, afLimit)
  {
    TraceStep(Init(bars, afStart), bars[1..], afStart, afLimit, i);
    assert bars[1..][i - 1] == bars[i];
  }

  /** The scan itself: fills the stop, trend, factor and extreme arrays index
      by index and returns the stop and trend arrays, which hold exactly the
      series of States, the trend coded as 1 or -1. */
  method CalculateModifiedSar(bars: seq<Bar>, afStart: real := DefaultAfStart, afLimit: real := DefaultAfLimit)
    returns (sar: array<real>, trend: array<int>)
    requires |bars| > 0
    ensures fresh(sar) && fresh(trend)
    ensures sar.Length == |bars| && trend.Length == |bars|
    ensures forall i :: 0 <= i < |bars| ==> trend[i] == 1 || trend[i] == -1
    ensures forall i :: 0 <= i < |bars| ==>
              sar[i] == States(bars, afStart, afLimit)[i].sar
              && trend[i] == Sign(States(bars, afStart, afLimit)[i].trend)
  {
    var size := |bars|;
    sar := new real[size](_ => 0.0);
    trend := new int[size](_ => 1);
    var af := new real[size](_ => afStart);
    var ep := new real[size](_ => 0.0);
    ghost var s := States(bars, afStart, afLimit);

    var k := if size - 1 < 1 then size - 1 else 1;
    trend[0] := if bars[k].close > bars[0].close then 1 else -1;
    sar[0] := if trend[0] == 1 then bars[0].low else bars[0].high;
    ep[0] := if trend[0] == 1 then bars[0].high else bars[0].low;

    for i := 1 to size
      invariant forall j :: 0 <= j < i ==>
                  sar[j] == s[j].sar && trend[j] == Sign(s[j].trend)
                  && af[j] == s[j].af && ep[j] == s[j].ep
    {
      var prevSar, prevTrend, prevAf, prevEp := sar[i - 1], trend[i - 1], af[i - 1], ep[i - 1];
      var currentSar := prevSar + prevAf * (prevEp - prevSar);
      var newTrend, newAf, newEp := prevTrend, prevAf, prevEp;
      ghost var prev := s[i - 1];
      assert prevTrend == 1 <==> prev.trend == Up;
      assert currentSar == Candidate(prev);

      if prevTrend == 1 {
        if bars[i].low <= currentSar {
          if bars[i].close > currentSar {
            newAf := afStart;
          } else {
            newTrend := -1;
            currentSar := prevEp;
            newAf := afStart;
            newEp := bars[i].low;
          }
        }
      } else {
        if bars[i].high >= currentSar {
          if bars[i].close < currentSar {
            newAf := afStart;
          } else {
            newTrend := 1;
            currentSar := prevEp;
            newAf := afStart;
            newEp := bars[i].high;
          }
        }
      }

      ghost var reacted := React(prev, bars[i], afStart);
      assert newTrend == Sign(reacted.trend) && currentSar == reacted.sar
             && newAf == reacted.af && newEp == reacted.ep;

      if newTrend == 1 {
        if bars[i].high > newEp {
          newEp := bars[i].high;
          newAf := Min(afLimit, newAf + afStart);
        }
      } else {
        if bars[i].low < newEp {
          newEp := bars[i].low;
          newAf := Min(afLimit, newAf + afStart);
        }
      }

      StatesStep(bars, afStart, afLimit, i);
      sar[i], trend[i], af[i], ep[i] := currentSar, newTrend, newAf, newEp;
    }
  }
}

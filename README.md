# Modified Parabolic SAR, modelled in Dafny

This project models `calculate_modified_sar` from the Stockplot-Sar
repository. That function computes a "modified" Parabolic Stop-And-Reverse
indicator. It makes one forward pass over a series of price bars (high, low,
close). At each bar it carries four values: the stop level (`sar`), the
regime (`trend`, 1 for up and -1 for down), the acceleration factor (`af`)
and the extreme point (`ep`).

The "modified" rule is how a bar acts on the candidate stop
`sar + af * (ep - sar)`:

- An inclusive touch by the low (up regime) or the high (down regime) counts
  as a touch.
- A touch reverses the regime only when the close also fails to stay
  strictly on the regime's side of the candidate.
- A touch that the close holds only resets the factor to `af_start`.
- After that, a strictly new extreme in the regime's direction is recorded
  and bumps the factor by `af_start`, capped at `af_limit`.

Layout:

- `modified_sar.dfy`, module `ModifiedSar`. The data model: `Bar`, `Trend`
  and the carried `State`. The transition `Step`, which is `React` (the
  touch and reversal rules of app.py:43-70) followed by `Extend` (the
  extreme-point update of app.py:72-80). `Classify` names the three
  outcomes of a bar. `Trace` and `States` fold `Step` over the series,
  starting from `Init`. `CalculateModifiedSar` is the scan as the source
  writes it. It allocates the four arrays with the source's initial fills,
  writes them index by index in a `for` loop, tests the trend code with
  `== 1` the way the source does, and returns the stop and trend arrays.
  Its postcondition says those arrays are exactly the series `States`.
- `modified_sar_properties.dfy`, module `ModifiedSarProperties`. The
  properties of that series.

Prices and factors are `real`, so there is no rounding. All comparisons keep
the source's exact inclusive (`<=`, `>=`) and strict (`<`, `>`) forms.

What the code does at its edges, which the model follows exactly:

- The first regime comes from comparing `close[min(1, n-1)]` with
  `close[0]` strictly. For a single bar that compares the first close with
  itself. So a single bar, and a tie between the first two closes, start in
  a DOWN regime, with `sar[0] = high[0]` and `ep[0] = low[0]`. `Init`
  states this.
- The function validates none of its parameters. In the model they are
  unconstrained. Only the factor-bound lemmas require
  `0 < af_start <= af_limit`, which the page's sliders guarantee
  (app.py:103-104).
- A non-empty series is a precondition. On an empty frame the source raises
  IndexError at app.py:32. Its only caller (app.py:122-130) calls it only on
  a non-empty frame.
- The default arguments `af_start = 0.02` and `af_limit = 0.2` (app.py:19)
  are the method's default parameter values.

No property needs `low <= high` on a bar, so the model does not assume it.

## Model

| member | source | states |
|---|---|---|
| `ModifiedSar.CalculateModifiedSar` | app.py:19-87 | The returned stop and trend arrays are new and as long as the input. Every trend entry is exactly 1 or -1. Entry i of each is the stop of state i of the series, and the code of its regime. So the in-place scan computes the fold of the one-bar transition. |
| `ModifiedSar.Init` | app.py:28-34 | The first regime is up exactly when there are at least two bars and the second close is strictly above the first. A single bar or a tie gives down. Up starts at stop low[0] and extreme high[0]; down at stop high[0] and extreme low[0]. The factor starts at af_start. |
| `ModifiedSar.Trace` | app.py:36-85 | The scan from a starting state yields one state per bar, and the first of them is the starting state. |
| `ModifiedSar.States` | app.py:24-34 | The series has exactly one state per input bar, and its first state is the initial state. |
| `ModifiedSar.Candidate` | app.py:43 | The provisional stop moves the fraction af of the way from the previous stop toward the extreme. So for af in [0, 1] it lies between the previous stop and the extreme, whichever side the extreme is on. |
| `ModifiedSar.Classify` | app.py:49-70 | Has no ensures. It names the three outcomes of a bar: no touch, touch held by the close, or confirmed reversal. The inclusive touch and strict close tests are the source's. NoTouchCase, TouchHeldCase, ReversalCase and TrendChangeIffReversal state what each outcome does, through StatesStep. |
| `ModifiedSar.React` | app.py:43-70 | Has no ensures. It gives the state after the touch and reversal rules, before the extreme-point update. It is specified by NoTouchCase, TouchHeldCase, ReversalCase and TrendChangeIffReversal, through StatesStep. |
| `ModifiedSar.Extend` | app.py:72-80 | Has no ensures. It records a strictly new extreme in the regime's direction and bumps the factor, capped at the limit. It is specified by the three case lemmas, EpMonotoneWithinRegime and EpIsExtremeSinceRegimeStart, through StatesStep. |
| `ModifiedSar.Step` | app.py:42-85 | The one-bar transition that the loop body computes. Its new stop is either the candidate or the previous extreme. Its new factor is one of: the previous factor, af_start, min(af_limit, af + af_start) or min(af_limit, 2*af_start). The case lemmas, through StatesStep, say which applies when. |
| `ModifiedSar.Sign` | app.py:27-33 | Has no ensures. It is the code 1 (up) or -1 (down) that the trend array holds. CalculateModifiedSar states that every trend entry is one of these two. |
| `ModifiedSar.Min` | app.py:76-80 | Has no ensures. It is Python's two-argument `min`, which caps the factor bump. AfInRange states the resulting bound. |
| `ModifiedSar.TraceStep` | app.py:36-85 | Every state after the first is the transition of its predecessor over the matching bar. |
| `ModifiedSar.StatesStep` | app.py:36-85 | State i of the series is the transition of state i-1 over bar i. This is the recurrence the loop body carries out. |
| `ModifiedSarProperties.NoTouchCase` | app.py:43-80 | If an up regime's low stays strictly above the candidate, or a down regime's high strictly below it: the regime is kept and the stop is the candidate. The factor and extreme change only on a strictly new extreme, and then the factor becomes min(af_limit, af + af_start). |
| `ModifiedSarProperties.TouchHeldCase` | app.py:49-80 | If the low (high) reaches the candidate inclusively but the close stays strictly above (below) it: the regime is kept, the stop is the candidate, and the factor restarts. The final factor is af_start, or min(af_limit, 2*af_start) if the bar also made a new extreme. |
| `ModifiedSarProperties.ReversalCase` | app.py:54-80 | If the touch is confirmed by the close: the regime flips, the stop becomes the previous extreme, the factor is af_start, and the extreme is the bar's low (up to down) or high (down to up). The extreme-point step leaves all of these unchanged. |
| `ModifiedSarProperties.TrendChangeIffReversal` | app.py:45-70 | The regime at i differs from the regime at i-1 if and only if the bar makes a confirmed reversal. |
| `ModifiedSarProperties.AfInRange` | app.py:28-80 | When 0 < af_start <= af_limit, every factor of the series lies in [af_start, af_limit]. |
| `ModifiedSarProperties.EpMonotoneWithinRegime` | app.py:72-80 | Over any stretch where the regime stays the same, the extreme never falls in an up regime and never rises in a down regime. |
| `ModifiedSarProperties.EpIsExtremeSinceRegimeStart` | app.py:32-85 | From the bar where a regime starts (index 0, or a bar where it changed) to any later bar in that regime, the extreme is the highest high (up) or lowest low (down) of those bars. |
| `ModifiedSarProperties.NoTouchSeries` | app.py:36-85 | If no bar after the first touches the candidate stop, the first regime holds throughout and every stop is the candidate. When 0 < af_start <= af_limit, the factor also never decreases. |
| `ModifiedSarProperties.WorkedExample` | app.py:19-87 | For bars (10, 9, 9.5), (11, 9.5, 10.5), (9, 8, 8.2) with af 0.02 and limit 0.2: stops are 9, 9.02, 11 and regimes up, up, down. On the way the factors are 0.02, 0.04, 0.02 and the extremes 10, 11, 8, and the candidate at index 2 is 9.0992. |

## Left out

- IEEE-754 doubles. Prices and factors are exact reals, so two things are
  not modelled:
  - reversal timing that depends on rounding at the stop boundary;
  - non-finite prices. For example, a NaN close after an up-regime touch
    reverses, because `close[i] > current_sar` is false (app.py:51). A NaN
    low never touches (app.py:50).
- The trend array holds integers 1 and -1. The source keeps them in a
  floating-point array, which changes nothing about the values.
- Extracting the High/Low/Close columns from the data frame and flattening
  its MultiIndex columns (app.py:21-23, app.py:127). These are calls into
  pandas/numpy, so the model takes the bars directly as a sequence.
- Page configuration, session state, sidebar widgets and the rerun button
  (app.py:8-16, app.py:89-108, app.py:195-196). These are user-interface
  code.
- The market-data download with its `.TW` / `.TWO` suffix retries and the
  ticker clean-up before it (app.py:111-124). These are network calls into a
  library outside the repository.
- Chart construction and the split into up and down markers
  (app.py:135-176). This is rendering.
- The latest-state summary: last close, last stop, distance percentage and
  formatted metrics (app.py:179-193). This is presentation arithmetic and
  string formatting.

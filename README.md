# Train dashboard: chart geometry, tooltip, count-up and notes

This project models the logic of the train-monitoring dashboard's single
React component, `frontend/src/App.jsx`. The dashboard polls a snapshot of
one train (speed, power, energy, mass, supply type, a free-text notes field
and a timeline of past samples) and draws it. The model covers the
deterministic part:

- **Full history charts** (`chartGeometry` / `createChart`). Each of the
  four metrics gets a 640 x 220 chart.
  - A missing reading counts as 0.
  - The axis runs from 0 up to the raw maximum plus 10% headroom, rounded up
    to a multiple of ten.
  - Samples are spread evenly left to right and joined by an `M`/`L` path.
  - The per-metric charts are collected by a `reduce` into one map.
- **Compact energy chart** (`energyConsumptionChart`). A 280 x 130 chart of
  only the last six samples, scaled between that window's own lowest and
  highest energy reading.
- **Hover tooltip** (`activeHover`). The 120-wide box is clamped inside the
  chart. The single hover slot is set when the mouse enters a point and
  cleared when it leaves or when the chart tab changes. The box is drawn only
  on the chart of the selected metric.
- **Headline count-up** (the animation effect). On the first snapshot, the
  `animatedValues` state for speed, power and energy eases from 0 to the
  snapshot's values over 900 ms with a cubic ease-out. From then on it
  mirrors each new snapshot verbatim. The headline cards (App.jsx lines
  219, 230 and 238) render the snapshot's own numbers and never read
  `animatedValues`, so the count-up is computed but not displayed.
- **Notes parser** (`notes`). `key=value` pairs separated by `;` become
  rows. The keys are shown with `_` as spaces, `Dato` stands in for an empty
  key, and `-` for a missing value.
- **Supply-colour chip** (`getPowerColor`) and the **speed bar**
  (`progress`).

JavaScript numbers are modelled as exact `real`s: the code only divides,
multiplies, takes `ceil`, `round`, `min` and `max`. `Math.ceil` and
`Math.round` are written out through `Floor`. A JSON field that may be
absent is an `Option`.

Modules, one per part of the component:

| module | file | models |
|---|---|---|
| `Wrappers` | wrappers.dfy | `Option` and `??` |
| `Telemetry` | telemetry.dfy | metrics, samples, `Number(x) \|\| 0`, one metric's series |
| `Geometry` | geometry.dfy | points, padding, `M`/`L` paths, even x spreading shared by both charts |
| `Scale` | scale.dfy | the full charts' axis |
| `FullChart` | full_chart.dfy | `createChart` and the `reduce` over the four metrics (a loop proved against a function) |
| `EnergyChart` | energy_chart.dfy | the compact energy chart |
| `Tooltip` | tooltip.dfy | the anchor clamp, `activeHover`, and the hover/tab state as a class |
| `Animator` | animator.dfy | the count-up effect as a class with a frame step |
| `Notes` | notes.dfy | `split`, `trim`, `filter(Boolean)`, `replace(/_/g, ' ')`, the notes rows; `Join` writes a notes text for the round-trip lemmas (the code itself never joins) |
| `Indicators` | indicators.dfy | `getPowerColor`, `toLowerCase`, `includes`, `progress` |

## Model

| member | source | states |
|---|---|---|
| Telemetry.Coerce | frontend/src/App.jsx:102 | `Number(x) \|\| 0` on a reading that is a number or absent: the number itself, or 0 when absent |
| Telemetry.Series | frontend/src/App.jsx:102-117 | one entry per timeline sample, in timeline order, holding that sample's timestamp and its coerced reading of the metric |
| Scale.Ceil | frontend/src/App.jsx:105 | `Math.ceil`: the result is an integer at least `x` and less than `x + 1` |
| Scale.RawMax | frontend/src/App.jsx:103 | `Math.max(...values, 1)` is at least 1, bounds every value, and is either 1 or one of the values |
| Scale.FullScale | frontend/src/App.jsx:102-107 | axis min 0 and range = max; max is a whole multiple of 10, at least 1.1 x rawMax and under 1.1 x rawMax + 10, hence at least 10 and above every value |
| Scale.FullScaleExample | frontend/src/App.jsx:102-107 | samples 50, 120, 90 give the axis 0..140 |
| Geometry.SpreadXBounds | frontend/src/App.jsx:109-111 | `left + (i / max(n - 1, 1)) * inner` lies in [left, left + inner], equals left at i = 0 and left + inner at the last index when n >= 2 |
| Geometry.SpreadXIncreasing | frontend/src/App.jsx:109-111 | a later index always gets a strictly larger x |
| Geometry.SpreadXLayout | frontend/src/App.jsx:155-158 | for all n points: x in bounds, first at left, last at left + inner when n >= 2, strictly increasing (shared by both charts) |
| Geometry.SpreadX | frontend/src/App.jsx:109-111 | `left + (i / max(n - 1, 1)) * inner`: index 0 is at `left` (also when n = 1) and the last index at `left + inner` when n >= 2; bounds and order are SpreadXBounds, SpreadXIncreasing, SpreadXLayout |
| Geometry.PathOf | frontend/src/App.jsx:127-129 | the path has one command per point, `M` first and `L` after, visiting the points' positions in order |
| Geometry.PathOfUnique | frontend/src/App.jsx:127-129 | any well-formed path through those positions is exactly `PathOf`: the path is determined by the points |
| FullChart.CreateChart | frontend/src/App.jsx:101-133 | `createChart` on one metric's series; no ensures of its own: its canvas, points and path are ChartFollowsSeries, its axis ChartAxis, its x layout ChartX and its y projection ChartY |
| FullChart.ProjectY | frontend/src/App.jsx:112-113 | `top + inner - ((v - min) / range) * inner`; no ensures of its own: YInCanvas bounds it in [20, 180] and YAntitone orders it; ChartY places 0 at 180 |
| FullChart.ChartFollowsSeries | frontend/src/App.jsx:101-132 | a 640 x 220 chart with padding 20/20/40/50, one point per sample in timeline order carrying its timestamp and value, and a path through exactly those points |
| FullChart.ChartAxis | frontend/src/App.jsx:102-107 | the chart's min is 0 and its max a multiple of ten, at least 10, above every sample |
| FullChart.ChartX | frontend/src/App.jsx:108-111 | every x in [50, 620]; x0 = 50 (also for one sample), last x = 620 when n >= 2; strictly increasing |
| FullChart.ChartY | frontend/src/App.jsx:112-113 | every non-negative sample has y in [20, 180]; value 0 lies on the x axis at 180; a larger value is never drawn lower |
| FullChart.YInCanvas | frontend/src/App.jsx:112-113 | a value between 0 and the axis max projects into [20, 180] |
| FullChart.YAntitone | frontend/src/App.jsx:112-113 | the y projection is antitone in the value |
| FullChart.ChartExample | frontend/src/App.jsx:101-120 | samples 50, 120, 90: axis top 140, first point at (50, 20 + 160 (1 - 50/140)), last at x = 620 |
| FullChart.EveryMetricCharted | frontend/src/App.jsx:4-9 | the metric list names all four metrics |
| FullChart.ChartGeometryOf | frontend/src/App.jsx:93-139 | an empty timeline gives the empty map, and only it does; otherwise every metric maps to the chart of its own series |
| FullChart.ChartGeometry | frontend/src/App.jsx:135-138 | the `reduce` loop that fills the accumulator metric by metric ends with exactly `ChartGeometryOf(timeline)` |
| FullChart.FilledAccumulator | frontend/src/App.jsx:135-138 | an accumulator holding the right chart for every listed metric equals the whole geometry |
| FullChart.ListedKeysAreAll | frontend/src/App.jsx:135-138 | holding every metric of the list means holding every metric |
| EnergyChart.Recent | frontend/src/App.jsx:147 | `slice(-6)`: the last min(6, n) samples, in order |
| EnergyChart.SeqMin | frontend/src/App.jsx:149 | `Math.min` of the window: a lower bound that some value reaches |
| EnergyChart.SeqMax | frontend/src/App.jsx:150 | `Math.max` of the window: an upper bound that some value reaches |
| EnergyChart.EnergyChartOf | frontend/src/App.jsx:141-142 | there is no chart exactly when the timeline is empty |
| EnergyChart.Energies | frontend/src/App.jsx:148 | one energy value per window sample, in order, each the sample's coerced `energia_kwh` (0 when absent) |
| EnergyChart.WindowChart | frontend/src/App.jsx:144-179 | the compact chart of a non-empty window; no ensures of its own: WindowChartFollowsSamples, WindowChartInCanvas and WindowChartExtremes state its canvas, points, path, bounds and extremes |
| EnergyChart.ProjectY | frontend/src/App.jsx:159-160 | `top + (1 - (v - min) / range) * inner`; no ensures of its own: YInCanvas bounds it in [12, 110] and YAtExtremes places the minimum at 110 and the maximum at 12 |
| EnergyChart.EnergyChartWindow | frontend/src/App.jsx:144-178 | a 280 x 130 chart with padding 12/12/20/12, one point per sample of the last min(6, n), in order, carrying timestamp and coerced energy, with a path through those points |
| EnergyChart.WindowChartFollowsSamples | frontend/src/App.jsx:148-178 | the chart of a window has one point per window sample carrying its timestamp and energy |
| EnergyChart.EnergyChartInCanvas | frontend/src/App.jsx:155-167 | every point lies in x 12..268, y 12..110; x starts at 12, ends at 268 for two or more samples, strictly increasing |
| EnergyChart.WindowChartInCanvas | frontend/src/App.jsx:155-167 | the same bounds for the chart of any non-empty window |
| EnergyChart.YInCanvas | frontend/src/App.jsx:159-160 | a value between the window's min and max projects into [12, 110] |
| EnergyChart.YAtExtremes | frontend/src/App.jsx:151-160 | the minimum projects to 110; the maximum to 12 when max - min >= 1 |
| EnergyChart.EnergyChartExtremes | frontend/src/App.jsx:149-160 | min and max bound every point's value and some sample reaches each; minimum samples sit at y = 110, maximum samples at y = 12 when the spread is at least 1 |
| EnergyChart.WindowChartExtremes | frontend/src/App.jsx:149-160 | the same extremes for the chart of any non-empty window |
| Tooltip.AnchorFor | frontend/src/App.jsx:378-388 | centreX is the hovered x when that lies between the two extreme centres, and the nearer extreme otherwise; topY is the larger of y - 46 and padding.top + 4 |
| Tooltip.TooltipStaysInside | frontend/src/App.jsx:380-388 | whenever the chart is wide enough, the box stays inside the left and right padding and below the top padding |
| Tooltip.FullChartAnchor | frontend/src/App.jsx:380-388 | on a full chart the centre stays in [110, 560], equals x inside that range and the nearer end outside it; topY >= 24 |
| Tooltip.ResolveHover | frontend/src/App.jsx:375-390 | a tooltip exists if and only if there is a hover, its metric is the selected one and that chart exists; it then carries the hover and its anchor |
| Tooltip.ResolveHoverOnTimeline | frontend/src/App.jsx:374-390 | over the charts of a timeline, the tooltip exists exactly when the hover's metric is selected and the timeline is not empty, and its centre then lies in [110, 560] |
| Tooltip.HoverState.constructor | frontend/src/App.jsx:22-29 | no hover, speed chart selected |
| Tooltip.HoverState.Active | frontend/src/App.jsx:375-390 | the tooltip of the current hover and tab, `ResolveHover` of the state; no ensures of its own: MouseEnter, MouseLeave and SelectTab state what it is after each event |
| Tooltip.HoverState.MouseEnter | frontend/src/App.jsx:447-454 | the entered point of that metric becomes the hover, the tab is unchanged, and on that metric's chart its tooltip is drawn at its anchor |
| Tooltip.HoverState.MouseLeave | frontend/src/App.jsx:455 | the hover is cleared and no tooltip is drawn on any chart |
| Tooltip.HoverState.SelectTab | frontend/src/App.jsx:360-363 | the tab switches and the hover is cleared, so no stale tooltip is drawn |
| Animator.Round | frontend/src/App.jsx:74-76 | `Math.round`: the integer within half a unit, halves going up |
| Animator.Progress | frontend/src/App.jsx:69-70 | t never exceeds 1, equals 1 exactly from 900 ms on, and is non-negative for non-negative elapsed time |
| Animator.EaseOut | frontend/src/App.jsx:71 | `1 - (1 - t)^3`; no ensures of its own: EaseOutMonotone states it is monotone within [0, 1] on [0, 1], FrameValueAtStart and FrameValueAtEnd its ends |
| Animator.FrameValue | frontend/src/App.jsx:69-76 | `round(target * eased)` at an elapsed time; no ensures of its own: FrameValueAtStart, FrameValueAtEnd, FrameValueMonotone and EarlyFrameUndershoots state it |
| Animator.FrameHeadline | frontend/src/App.jsx:73-77 | the three headline numbers of one frame, each `FrameValue` of its target; no ensures of its own: HeadlineAnimator.Frame stores it before 900 ms |
| Animator.FrameValueAtStart | frontend/src/App.jsx:70-76 | a frame at 0 ms stores 0 |
| Animator.FrameValueAtEnd | frontend/src/App.jsx:70-76 | a frame at 900 ms or later stores the rounded target, a whole target exactly |
| Animator.EaseOutMonotone | frontend/src/App.jsx:71 | the cubic ease-out is monotone and stays in [0, 1] on [0, 1] |
| Animator.FrameValueMonotone | frontend/src/App.jsx:68-77 | for a non-negative target and 0 <= e1 <= e2, the stored value never decreases and stays between 0 and the rounded target |
| Animator.EarlyFrameUndershoots | frontend/src/App.jsx:69-70 | a frame stamped before the start time is not clamped: target 100 at -900 ms stores -700 |
| Animator.HeadlineAnimator.constructor | frontend/src/App.jsx:20-28 | no snapshot, values 0, not yet animated, no frame scheduled |
| Animator.HeadlineAnimator.Effect | frontend/src/App.jsx:50-62 | without a snapshot nothing happens; once animated the values mirror the snapshot; otherwise a frame is scheduled; frames only run while animating |
| Animator.HeadlineAnimator.OnSnapshot | frontend/src/App.jsx:50-62 | a new snapshot is copied verbatim once the count-up has finished, and otherwise (re)starts it with the values left as they are |
| Animator.HeadlineAnimator.Frame | frontend/src/App.jsx:68-84 | at any elapsed time (the code does not clamp a frame stamped before the start): before 900 ms each value is `round(target * (1 - (1 - t)^3))` and frames continue; at 900 ms `hasAnimatedOnce` is set for good, frames stop and the snapshot's exact values are stored |
| Animator.HeadlineAnimator.Teardown | frontend/src/App.jsx:87 | the scheduled frame is cancelled and nothing else changes |
| Notes.Split | frontend/src/App.jsx:195 | `split`: at least one piece, none holding the separator |
| Notes.JoinSplit | frontend/src/App.jsx:195 | joining the pieces again gives back the text |
| Notes.SplitJoin | frontend/src/App.jsx:195 | splitting a join of separator-free pieces gives back the pieces |
| Notes.SplitNoSeparator | frontend/src/App.jsx:199 | text without the separator is a single piece |
| Notes.SplitAtFirst | frontend/src/App.jsx:199 | the text before the first separator is the first piece, and the rest splits on its own |
| Notes.SplitHead | frontend/src/App.jsx:199 | the first piece is everything up to the first separator |
| Notes.LeadingSpaces | frontend/src/App.jsx:196 | the longest all-whitespace prefix |
| Notes.TrailingSpaces | frontend/src/App.jsx:196 | the longest all-whitespace suffix |
| Notes.Trim | frontend/src/App.jsx:196 | `trim`: a slice of the text whose cut-off ends are whitespace and which neither starts nor ends with whitespace |
| Notes.TrimUnchanged | frontend/src/App.jsx:196 | text that neither starts nor ends with whitespace is left as it is |
| Notes.TrimKeeps | frontend/src/App.jsx:196 | trimming only removes characters |
| Notes.NonEmpty | frontend/src/App.jsx:197 | `filter(Boolean)`: keeps exactly the non-empty strings |
| Notes.NonEmptyAppend | frontend/src/App.jsx:197 | filtering keeps order: it distributes over concatenation |
| Notes.NonEmptyKeepsAll | frontend/src/App.jsx:197 | a list without empty strings is kept whole |
| Notes.Underscores | frontend/src/App.jsx:201 | same length, no `_` left, every `_` now a space, every other character kept |
| Notes.UnderscoresAppend | frontend/src/App.jsx:201 | the rewrite works piece by piece |
| Notes.UnderscoresNone | frontend/src/App.jsx:201 | text without `_` is unchanged |
| Notes.UnderscoreBetween | frontend/src/App.jsx:201 | `a_b` is shown as `a b` |
| Notes.ParseNote | frontend/src/App.jsx:198-203 | one `key=value` pair as a row; no ensures of its own: ParseNoteWithoutValue and ParseNoteFields state the row for every shape of pair |
| Notes.ParseNoteWithoutValue | frontend/src/App.jsx:199-202 | a pair without `=` is all key with the value `-` (`Dato` for an empty key) |
| Notes.ParseNoteFields | frontend/src/App.jsx:199-202 | `key=value...`: the caption comes from the key (`Dato` if empty); the value is the text up to a second `=`, untrimmed, and the rest is dropped |
| Notes.EmptyTextHasNoPieces | frontend/src/App.jsx:194-197 | an empty notes text has no pieces |
| Notes.Pieces | frontend/src/App.jsx:194-197 | the trimmed, non-empty `;`-pieces of the text; no ensures of its own: PiecesShape, EmptyTextHasNoPieces and PiecesOfJoin state them |
| Notes.Notes | frontend/src/App.jsx:194-204 | the `notes` rows, one per piece, in order; no ensures of its own: NotesMissing, NotesRoundTrip, TwoPairs and SeedNotes state them |
| Notes.NotesMissing | frontend/src/App.jsx:194-204 | a snapshot without notes text shows no rows |
| Notes.PiecesShape | frontend/src/App.jsx:194-197 | every piece is non-empty, `;`-free, has no whitespace at either end, and is the trim of a `;`-piece of the text |
| Notes.PairText | frontend/src/App.jsx:198-203 | a well-formed pair written `key=value` is one trimmed piece that parses back to the pair |
| Notes.PiecesOfJoin | frontend/src/App.jsx:194-197 | non-empty, trimmed, `;`-free pieces come back unchanged from their join |
| Notes.NotesRoundTrip | frontend/src/App.jsx:194-204 | parsing the text written from well-formed pairs gives one row per pair, in order, key with spaces for `_`, value unchanged |
| Notes.TwoPairs | frontend/src/App.jsx:194-204 | `a_b=v;c_d=w` gives the rows (`a b`, v) and (`c d`, w) |
| Notes.SeedNotes | frontend/src/App.jsx:194-204 | the seeded notes text `temperatura_freni=65C;pressione_linea=8bar` gives (`temperatura freni`, `65C`) and (`pressione linea`, `8bar`) |
| Indicators.LowerChar | frontend/src/App.jsx:12 | ASCII lower-casing of one character; no ensures of its own: ToLower states that the result is never an upper-case letter |
| Indicators.ToLower | frontend/src/App.jsx:12 | same length, each character lower-cased, no upper-case letter left |
| Indicators.ContainsOccurs | frontend/src/App.jsx:13-15 | the left-to-right `includes` scan succeeds exactly when the pattern occurs at some index |
| Indicators.Contains | frontend/src/App.jsx:13-15 | `includes` as a left-to-right scan; no ensures of its own: ContainsOccurs proves it succeeds exactly when the pattern occurs at some index |
| Indicators.PowerColor | frontend/src/App.jsx:11-17 | first match wins: blue if and only if the lower-cased name holds `25kv`; orange if and only if `3kv` without `25kv`; red if and only if `1.5kv` or `1,5kv` without the earlier ones; grey if and only if none |
| Indicators.PowerColorMissing | frontend/src/App.jsx:12 | a missing supply name is grey |
| Indicators.PowerColorSeeds | frontend/src/App.jsx:11-17 | the seeded supplies `25kV AC`, `3kV DC` and `1.5kV DC` are blue, orange and red |
| Indicators.SpeedProgress | frontend/src/App.jsx:193 | at most 100; exactly 100 from 350 km/h on; non-negative for non-negative speed; below 350 it is speed / 350 x 100 |
| Indicators.SpeedProgressMonotone | frontend/src/App.jsx:193 | a faster train never shows a shorter bar |

## Left out

- Display of the count-up: the headline cards render `train.velocita`, `train.potenza_kw` and `train.energia_kwh` directly (App.jsx lines 219, 230, 238), so `animatedValues` is written but never read. The model covers the `animatedValues` state only; nothing on screen depends on it.
- Polling (`fetchData`, `setInterval`, the error banner, lines 31-48 and 182-188): this is network I/O and timers. A snapshot arrives in the model as a call to `HeadlineAnimator.OnSnapshot`.
- `requestAnimationFrame` and `cancelAnimationFrame` scheduling: a scheduled frame is the `running` flag. The frame timestamp arrives as the `elapsed` argument of `HeadlineAnimator.Frame`.
- JSX markup, CSS classes, labels, units, colours of the metrics, the route list and the axis text: these are presentation only.
- Number-to-text formatting inside the path string (`${pt.x}`) and `toFixed(0)`: these are float printing rules. A path is a sequence of `M`/`L` commands with their coordinates.
- Telemetry.Coerce: `Number(x) || 0` on arbitrary JSON is modelled on readings that are either a number or absent. Strings, booleans and NaN are not represented.
- Scale.FullScale: uses exact arithmetic. IEEE doubles can round `rawMax * 1.1` up past a multiple of ten: rawMax 100 gives 110.00000000000001, so the code shows an axis of 120 where the model gives 110. The seeded history hits this: its power peak 5200 (backend/database.py line 11) gives 5720.000000000001 and an axis of 5730 in the code, 5720 in the model. A speed peak of 200 would likewise give 230 against 220.
- Notes.Trim: only ASCII whitespace (space, tab, LF, VT, FF, CR) is trimmed. Unicode spaces that JavaScript's `trim` also removes are not.
- Indicators.ToLower: only ASCII letters are lower-cased. Full Unicode case mapping is left out.
- Notes.Note: the row's `label` field is called `caption`, because `label` is a reserved word in Dafny.
- Tooltip.Hover: the hover record's `unit` and `label` fields are only displayed and are left out.
- The supply chips' fallback `point.tipo_alimentazione || train.tipo_alimentazione` (lines 513-515) only chooses which text is passed to `PowerColor`.
- backend/query.py, backend/database.py and backend/main.py are not part of this model. They are SQLite and Flask plumbing, and main.py calls functions that are not in the files shown.

# mad: a Dafny model of the scraper and the detection loop

`mad` scrapes a Prometheus text-format endpoint at a fixed interval. It picks the
value of one time series, given by a PromQL vector selector, and queues it with a
timestamp. A detection loop reads those samples into a window of at least 32 and
runs non-parametric change-point detection on their values. It logs each change
point, then trims the window.

This project models the two core files:

- `internal/scraper/scraper.go` is modelled in `scraper.dfy` (module `Scraper`):
  - the label-map comparison `vectorIsEqual`;
  - the per-line `search`, and `read`, which scans one payload and writes one sample;
  - the bounded sample queue `sampleChan` and the `Scraper` wrappers around it;
  - the validation order of `New`.
- `internal/algorithm/algorithm.go` is modelled in `algorithm.dfy` (module `Algorithm`):
  - `Run`: the stop poll, the fill loop, the value/timestamp split, the logging loop and the trim policy.

Two small modules support them:

- `promql.dfy` (module `PromQL`) holds the PromQL parser as a record of three
  arbitrary functions (`ParseExpr`, `ParseMetric`, `ParseSeriesDesc`). Every property
  proved about the scraper therefore holds for any parser behaviour.
- `wrappers.dfy` holds `Option` and `Result`.

## How the model is built

- **Imperative code stays imperative.** The Go loops become methods with loops:
  - `VectorIsEqual`, `Read`, `FillWindow`, `SplitWindow`, `ReportChangePoints`, `Run`;
  - the queue is a class whose methods change its `items`.

  Each method's `ensures` ties it to a pure specification function: `CompareSelectors`, `ReadBody`
  (that is, `Scan` over `Lines`), `Values`/`Timestamps`, `Report`, `Round` and `RunFrom`. The
  properties are proved as lemmas about those functions.
- **Things the code cannot see are parameters.**
  - The clock (`time.Now()`) is the `now` argument.
  - The change-point function is `detect`. The only thing assumed about it is that its indices lie inside its input (`DetectorInBounds`).
  - `url.Parse` is `parseUrl`.
  - The samples `ReadSample` hands out are the sequence `incoming`.
  - The stop channel and the context are `stopAt`: the number of polls that see no stop before one does.
- **Blocking becomes a precondition or an outcome.** A blocked channel operation is a
  precondition on the queue methods: a full queue for `Write`, an empty one for `Read`. In `Run`, a
  fill loop that runs out of samples would block forever in Go; it is the outcome `Blocked`.
- **Machine arithmetic is written out.**
  - `float64` is modelled as `real`.
  - `time.Duration(s) * time.Second` is computed in int64 two's complement (`IntervalNanos`): exact up to 9223372036 s, negative at 9223372037 s.
  - `uint8(len(ch))` is reduced mod 256, which never truncates because the queue holds at most 32 samples.
  - Go's `(len-1)/2` truncates toward zero, so an empty window gives 0. The model writes that case out.

### Where the code and its documentation disagree

The model follows the code in both cases:

- **Last match wins.** The help text of `--time-series-selector` (main.go:27) says that when
  several series match, the first is selected. In the code, `search` returns `nil` once it stores a
  value, so `read` ends up writing the value of the LAST matching line
  (`ReadLastMatchWins`, `ReadKeepsSecondOfTwoMatches`).
- **The not-found error never ends a scan in `read`.** The comment on `searchTargetNotFoundErr`
  (scraper.go:32) says `search` returns it when the target is not in the payload. The code returns
  it only for a nil `got` (scraper.go:250-253). `read` always passes a non-nil `got`
  (scraper.go:192), so a line that does not match gives `nil` and the scan goes on
  (`SearchOutcome`'s last `ensures`). Even the not-found break (scraper.go:207-208) would still
  write `*got` (scraper.go:215). A payload without a matching line therefore writes a sample of
  value 0 (`ReadNoMatchWritesZero`).

### Other behaviour the proofs bring out

- **`vectorIsEqual` is not symmetric.** It compares sizes, then reads `b[k]` for every key of `a`,
  and a missing key reads as `""`. So `{x=""}` equals `{y="1"}`, but not the reverse
  (`LabelsEqualEmptyValueMatchesMissingKey`). When no value of `a` is empty it is exactly map
  equality (`LabelsEqualIsMapEquality`).
- **The type check comes before the parse error.** `search` checks the leading token's type before
  looking at the parse error from `ParseExpr`.
- **An unterminated last line is dropped.** `read` never searches a last line without a `'\n'`
  (`ReadDropsUnterminatedTail`).
- **Change point 0 stalls the loop.** When the last change point reported for a full window is
  index 0, the window is kept whole. The next pass then reads no sample and runs detection on the
  same values again (`ZeroIndexRedetects`).

## Model

| member | source | states |
|---|---|---|
| Scraper.LabelsEqual | internal/scraper/scraper.go:272-283 | When the maps compare equal, every key of `a` with a non-empty value is in `b` with the same value; so such a key missing from `b` makes the comparison false. Every label map compares equal to itself. |
| Scraper.CompareSelectors | internal/scraper/scraper.go:259-284 | The comparison fails exactly when one of the printed selectors does not parse, naming `a` if it is `a` that fails. A selector that parses compares equal to itself. |
| Scraper.VectorIsEqual | internal/scraper/scraper.go:259-284 | The result is an error when either selector's printed form does not parse. Otherwise it is equality of sizes plus, for every key of `a`, `b`'s value (empty if missing) equal to `a`'s. A `true` implies both maps parsed with the same size. |
| Scraper.LabelsEqualSizeMismatch | internal/scraper/scraper.go:272-275 | Label maps of different sizes never compare equal. |
| Scraper.LabelsEqualValueDiffers | internal/scraper/scraper.go:276-280 | A key present in both maps with different values makes the comparison false. |
| Scraper.LabelsEqualIsMapEquality | internal/scraper/scraper.go:270-283 | When `a` has no empty label value, the comparison holds if and only if the two maps are equal. |
| Scraper.LabelsEqualEmptyValueMatchesMissingKey | internal/scraper/scraper.go:276-280 | The comparison is asymmetric: `{x=""}` equals `{y="1"}`, but `{y="1"}` does not equal `{x=""}`. |
| Scraper.IsCandidate | internal/scraper/scraper.go:220 | Comment lines (`#`) and lines starting with a space are never searched. A candidate has a non-empty leading token. |
| Scraper.LeadingToken | internal/scraper/scraper.go:221 | The token is a prefix of the line and contains no space. Either it is the whole line, or the next character is a space. |
| Scraper.SearchOutcome | internal/scraper/scraper.go:219-256 | A non-candidate line (not starting with `a`-`z`) yields no value and, with a non-nil `got`, no error. A leading token that is not vector-typed gives the type mismatch before any parse error. For a vector-typed token, each branch in order: a parse error gives the parse error; a failed comparison gives that comparison's error; a selector that does not match passes (not-found with a nil `got`); a matching line whose series description does not parse gives that error; one with a value count other than one gives that count. A value is stored if and only if the candidate's selector parses, matches and the line holds exactly that one value. Not-found needs a nil `got`. |
| Scraper.Search | internal/scraper/scraper.go:219-256 | The returned error, and what is written through `got`, follow `SearchOutcome`. `got` is changed only when a value is stored. |
| Scraper.Cell.constructor | internal/scraper/scraper.go:192 | A new out-parameter cell holds the given value; `read` starts from 0. |
| Scraper.ReadString | internal/scraper/scraper.go:194-198 | `io.EOF` comes back exactly when no `'\n'` is left, with the rest of the text. Otherwise the line ends in `'\n'`, has no earlier `'\n'`, and line plus rest is the input. |
| Scraper.Lines | internal/scraper/scraper.go:193-198 | Every line read ends in `'\n'`. |
| Scraper.Scan | internal/scraper/scraper.go:193-215 | The scan gives up only on a search error that is neither the type mismatch nor not-found. |
| Scraper.ReadBody | internal/scraper/scraper.go:191-215 | `read` gives up only on a real search error. A body without one complete line writes 0. |
| Scraper.LastStoredFront | internal/scraper/scraper.go:204-215 | The last value stored over the lines is the last stored over the tail, starting from the value after the first line. |
| Scraper.ScanAbortsIffFatal | internal/scraper/scraper.go:204-213 | `read` gives up if and only if some line gives a search error other than a type mismatch. |
| Scraper.ScanAbortsAtFirstFatal | internal/scraper/scraper.go:209-213 | The error `read` gives up with is the one from the first such line. |
| Scraper.ScanWritesLastStored | internal/scraper/scraper.go:204-215 | Without a fatal line, `read` runs to the end of the body and writes the last value stored. A match does not stop the scan. |
| Scraper.LastStoredIsLast | internal/scraper/scraper.go:235-247 | The value written is the value of the last line that stores one. |
| Scraper.LastStoredNone | internal/scraper/scraper.go:192 | With no storing line, the initial value of `*got` is written. |
| Scraper.ReadLastMatchWins | internal/scraper/scraper.go:191-216 | For a body without fatal lines, `read` writes the value of its last matching line. |
| Scraper.ReadKeepsSecondOfTwoMatches | internal/scraper/scraper.go:245-247 | With two matching lines, the second value is written, not the first. |
| Scraper.ReadNoMatchWritesZero | internal/scraper/scraper.go:192-215 | With no matching line and no fatal one, `read` still writes a sample, with value 0. |
| Scraper.ReadStringExtend | internal/scraper/scraper.go:194 | The first line read from a buffer does not depend on what follows it. |
| Scraper.LinesDropUnterminatedTail | internal/scraper/scraper.go:194-198 | Text after the last `'\n'` adds no line. |
| Scraper.ReadDropsUnterminatedTail | internal/scraper/scraper.go:194-198 | An unterminated last line does not change what `read` does. |
| Scraper.Read | internal/scraper/scraper.go:191-216 | The queue gains exactly one sample, `(now, v)`, when the scan of the body ends with `v`. It gains nothing when the scan gives up on an error. |
| Scraper.SampleChan.constructor | internal/scraper/scraper.go:142 | A new queue is empty, with capacity `MinSampleCount` (32). |
| Scraper.SampleChan.Read | internal/scraper/scraper.go:68-71 | Returns the oldest sample and removes it (FIFO). |
| Scraper.SampleChan.Write | internal/scraper/scraper.go:74-78 | Appends `(now, value)` at the back and keeps the capacity bound. |
| Scraper.SampleChan.Len | internal/scraper/scraper.go:81-86 | The `uint8` length equals the number of queued samples, which is at most 32. |
| Scraper.WrapInt64 | internal/scraper/scraper.go:137 | The result is an int64 congruent to the input modulo 2^64, so it is two's-complement wrap-around. It equals the input whenever the input already fits. |
| Scraper.IntervalNanos | internal/scraper/scraper.go:137 | The interval is an int64 congruent to `seconds * 10^9` modulo 2^64. |
| Scraper.IntervalExact | internal/scraper/scraper.go:137 | For 1 to 9223372036 seconds the interval is exactly `seconds * 10^9` ns, which is positive. |
| Scraper.IntervalWraps | internal/scraper/scraper.go:137 | At 9223372037 seconds the int64 product wraps to a negative duration. |
| Scraper.Configure | internal/scraper/scraper.go:120-144 | The checks are ordered: a selector parse error first (and exactly when the selector fails to parse), then a selector that is not a vector selector, then an endpoint parse error. On success it holds the selector, the parsed endpoint and the interval in ns. |
| Scraper.Scraper.constructor | internal/scraper/scraper.go:136-143 | The configuration is stored, with a fresh, empty queue. |
| Scraper.Scraper.ReadSample | internal/scraper/scraper.go:103-106 | Takes the oldest sample from the scraper's queue. |
| Scraper.Scraper.WriteSample | internal/scraper/scraper.go:109-111 | Appends `(now, value)` to the scraper's queue. |
| Scraper.Scraper.LenSamples | internal/scraper/scraper.go:114-117 | Returns the queue length. |
| Scraper.New | internal/scraper/scraper.go:120-144 | On each validation failure, returns no scraper and that error. On success, returns a fresh scraper with the validated configuration and an empty queue of capacity 32. |
| Algorithm.FillWindow | internal/algorithm/algorithm.go:27-31 | The window is extended by the next samples in order. It ends with exactly `32 - len` more when enough are available; otherwise it is blocked, with every sample read and fewer than 32 held. |
| Algorithm.Values | internal/algorithm/algorithm.go:34-39 | One value per sample. |
| Algorithm.Timestamps | internal/algorithm/algorithm.go:34-39 | One timestamp per sample. |
| Algorithm.ValuesAt | internal/algorithm/algorithm.go:37 | Value `i` is the value of sample `i`. |
| Algorithm.TimestampsAt | internal/algorithm/algorithm.go:38 | Timestamp `i` is the timestamp of sample `i`. |
| Algorithm.SplitWindow | internal/algorithm/algorithm.go:34-39 | The two slices are parallel to the window, element by element. |
| Algorithm.Report | internal/algorithm/algorithm.go:43-45 | One log entry per reported index. |
| Algorithm.ReportAt | internal/algorithm/algorithm.go:43-45 | Entry `j` is the sample at the `j`-th index, with its timestamp. |
| Algorithm.ReportChangePoints | internal/algorithm/algorithm.go:43-45 | The logging loop produces exactly those entries, in index order. |
| Algorithm.TrimStart | internal/algorithm/algorithm.go:48-51 | With in-bounds indices the start lies inside a non-empty window. Without change points it is at most half the window's length. |
| Algorithm.Trim | internal/algorithm/algorithm.go:48-52 | The kept window is no longer than the window and never empty when the window is not. |
| Algorithm.TrimIsSuffix | internal/algorithm/algorithm.go:48-52 | The trimmed window is a suffix of the window, and non-empty when the window is. |
| Algorithm.TrimWithoutChangePoints | internal/algorithm/algorithm.go:48-52 | With no change point, the window keeps its back `L - (L-1)/2` samples. For a full window that is strictly shorter and not empty. |
| Algorithm.TrimAtLastChangePoint | internal/algorithm/algorithm.go:49-52 | With change points, the window starts exactly at the last reported index. Index 0 keeps the whole window. |
| Algorithm.TrimDropsEarlierChangePoints | internal/algorithm/algorithm.go:47-52 | With ascending indices, every change point but the last lies before the kept window, and the last is its first sample. |
| Algorithm.Detect | internal/algorithm/algorithm.go:42 | The indices reported for a window's values lie inside the window. |
| Algorithm.Examine | internal/algorithm/algorithm.go:34-52 | Examination reads no sample. The log gains one entry per reported index, after the earlier entries. |
| Algorithm.ExamineWindow | internal/algorithm/algorithm.go:34-52 | After the split, detection, logging and trim, the window is the trimmed window and the log gains the reported change points. |
| Algorithm.Round | internal/algorithm/algorithm.go:26-52 | A pass either blocks (everything read, fewer than 32 held, log unchanged) or completes. A completed pass has read exactly the missing samples, keeps a non-empty window no longer than the filled one, and never shrinks the log. |
| Algorithm.RoundPreservesCoherence | internal/algorithm/algorithm.go:26-52 | Each pass keeps the window the most recent contiguous stretch of the samples read. |
| Algorithm.RoundCompletes | internal/algorithm/algorithm.go:27-52 | When enough samples arrive, the pass examines exactly the filled window. |
| Algorithm.FullWindowReadsNothing | internal/algorithm/algorithm.go:27 | A pass starting with 32 or more samples reads no sample. |
| Algorithm.ZeroIndexRedetects | internal/algorithm/algorithm.go:27-52 | When the last index of a full window is 0, the next pass starts from the same window and reads nothing. |
| Algorithm.RunFrom | internal/algorithm/algorithm.go:18-53 | A stop seen at the first poll returns `Stopped` at once: nothing read, window and log untouched. |
| Algorithm.After | internal/algorithm/algorithm.go:18-53 | A pass stuck in the fill loop blocks the loop for good with that state. A completed pass with no poll left stops with its end state. |
| Algorithm.RunFromMonotone | internal/algorithm/algorithm.go:18-53 | The loop never reads past the queue and never reads back, and the log only grows. |
| Algorithm.AfterMonotone | internal/algorithm/algorithm.go:18-53 | The same holds for the rest of the loop after a completed pass. |
| Algorithm.RunFromAdvances | internal/algorithm/algorithm.go:18-53 | A completed pass leaves the loop one stop poll closer to its end, from the pass's end state. |
| Algorithm.RunFromBlocks | internal/algorithm/algorithm.go:27-31 | A pass that blocks ends the loop with the partly filled window. |
| Algorithm.RunFromCoherent | internal/algorithm/algorithm.go:18-53 | However the loop ends, its window is the latest stretch of the samples read. A blocked loop has read every sample and holds fewer than 32. |
| Algorithm.AfterCoherent | internal/algorithm/algorithm.go:18-53 | The same holds for the rest of the loop after a pass that kept the window coherent. |
| Algorithm.RunRound | internal/algorithm/algorithm.go:26-52 | One pass of the loop ends in exactly the state `Round` gives, blocked or completed. |
| Algorithm.Run | internal/algorithm/algorithm.go:13-54 | The outcome and the final window, sample count and log are those of `RunFrom` from an empty window. The window is the latest stretch of the samples read. A blocked end has read every sample and holds fewer than 32. |

## Left out

- `Scraper.Scrape` (internal/scraper/scraper.go:147-188): the ticker, the HTTP request and the read of the response. These are I/O; the model takes the response body as a string.
- Concurrency:
  - `read` runs on its own goroutine for each tick, and the mutex guards `Write` and `Len`.
  - The model is sequential. Blocking channel operations are preconditions, or the `Blocked` outcome of `Run`.
  - Because of the goroutines, samples from two ticks may be enqueued in either order. The model takes `incoming` as whatever order the queue delivers.
- The PromQL parser, `url.Parse` and `changepoint.NonParametric` are external libraries, left as parameters. The only assumption about change points is that their indices lie inside the values.
- A vector-typed expression that is not a plain selector (an aggregation, say) makes the type assertions panic (scraper.go:138 and :230). `Expr` has no such value, so that panic is not modelled.
- When `ParseExpr` fails it can return a nil expression, and `metric.Type()` at scraper.go:222 then panics. The model gives a failed parse an expression, checks its type first, and then returns the parse error.
- The reader-error branch of `read` (scraper.go:199-203) is unreachable for an in-memory `bytes.Buffer`, so it is not modelled.
- `Scraper.Search`: requires that a nil `got` never meets a matching line, where Go would dereference nil. `read` always passes a non-nil `got`.
- `float64` arithmetic, NaN and infinities: values are reals and are only copied, never computed with.
- The change points logged at algorithm.go:44 are modelled, as `ChangePoint` entries of the log. Left out are their `klog` formatting and the error logs of `read`, `Scrape` and `New`.
- The `String()` methods, the `pretty` printing, `main.go`, `internal/options`, `internal/version` and the tests. They are context, not core.

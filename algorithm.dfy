/**
 * The detection loop of internal/algorithm/algorithm.go: fill a window of samples from
 * the scraper's queue, split it into values and timestamps, ask the change-point
 * function for indices, report them, and trim the window.
 *
 * The queue is modelled by `incoming`, the samples `ReadSample` hands out in order; the
 * stop signal and context cancellation by `stopAt`, the number of polls that see neither
 * before one does. The change-point function is the parameter `detect`.
 */
module Algorithm {
  import opened Scraper

  /** The sensitivity passed to the change-point function. */
  const Sensitivity: int := 1

  /** The change-point function: values and sensitivity to indices into the values. */
  type Detector = (seq<real>, int) -> seq<int>

  /** One logged change point: the sample and the timestamp at its index. */
  datatype ChangePoint = ChangePoint(sample: Sample, at: Timestamp)

  /** The loop's state: the window, how many samples were read so far, and the log. */
  datatype State = State(window: seq<Sample>, consumed: nat, log: seq<ChangePoint>)

  /** The end of one pass: completed, or blocked in the fill loop on an empty queue. */
  datatype RoundEnd = Completed(next: State) | StuckFilling(last: State)

  /** How Run ends: by the stop poll, or blocked for good once the samples run out. */
  datatype Outcome = Stopped | Blocked

  const Initial: State := State([], 0, [])

  predicate InBounds(indices: seq<int>, n: nat) {
    forall j :: 0 <= j < |indices| ==> 0 <= indices[j] < n
  }

  predicate Ascending(indices: seq<int>) {
    forall i, j :: 0 <= i < j < |indices| ==> indices[i] < indices[j]
  }

  /** Every index the change-point function reports lies inside its input. */
  ghost predicate DetectorInBounds(detect: Detector) {
    forall vs, s :: InBounds(detect(vs, s), |vs|)
  }

  /** The window is the most recent stretch of the samples read so far. */
  predicate Coherent(s: State, incoming: seq<Sample>) {
    && s.consumed <= |incoming|
    && |s.window| <= s.consumed
    && s.window == incoming[s.consumed - |s.window|..s.consumed]
  }

  // ---------------------------------------------------------------------------
  // Filling
  // ---------------------------------------------------------------------------

  /** How many samples the fill loop reads for a window of `n` samples. */
  function Need(n: nat): nat {
    if n < MinSampleCount then MinSampleCount - n else 0
  }

  /**
   * The fill loop: append samples from the queue until the window holds at least
   * `MinSampleCount`. When the queue has nothing more to give, the Go loop blocks for
   * good; that is `blocked`.
   */
  method FillWindow(window: seq<Sample>, incoming: seq<Sample>, consumed: nat)
    returns (filled: seq<Sample>, taken: nat, blocked: bool)
    requires consumed <= |incoming|
    ensures consumed <= taken <= |incoming|
    ensures filled == window + incoming[consumed..taken]
    ensures blocked <==> |filled| < MinSampleCount
    ensures blocked ==> taken == |incoming| && |incoming| - consumed < Need(|window|)
    ensures !blocked ==> taken == consumed + Need(|window|)
  {
    filled, taken := window, consumed;
    while |filled| < MinSampleCount
      invariant consumed <= taken <= |incoming|
      invariant filled == window + incoming[consumed..taken]
      invariant taken - consumed <= Need(|window|)
    {
      if taken == |incoming| {
        return filled, taken, true;
      }
      filled := filled + [incoming[taken]];
      taken := taken + 1;
    }
    blocked := false;
  }

  // ---------------------------------------------------------------------------
  // Splitting
  // ---------------------------------------------------------------------------

  function Values(w: seq<Sample>): (vs: seq<real>)
    ensures |vs| == |w|
  {
    if w == [] then [] else Values(w[..|w| - 1]) + [w[|w| - 1].value]
  }

  function Timestamps(w: seq<Sample>): (ts: seq<Timestamp>)
    ensures |ts| == |w|
  {
    if w == [] then [] else Timestamps(w[..|w| - 1]) + [w[|w| - 1].timestamp]
  }

  /** Value i is the value of sample i. */
  lemma {:induction false} ValuesAt(w: seq<Sample>)
    ensures forall i :: 0 <= i < |w| ==> Values(w)[i] == w[i].value
    decreases |w|
  {
    if w != [] {
      ValuesAt(w[..|w| - 1]);
    }
  }

  /** Timestamp i is the timestamp of sample i. */
  lemma {:induction false} TimestampsAt(w: seq<Sample>)
    ensures forall i :: 0 <= i < |w| ==> Timestamps(w)[i] == w[i].timestamp
    decreases |w|
  {
    if w != [] {
      TimestampsAt(w[..|w| - 1]);
    }
  }

  /** The split loop: parallel value and timestamp sequences, element i from sample i. */
  method SplitWindow(window: seq<Sample>) returns (values: seq<real>, stamps: seq<Timestamp>)
    ensures |values| == |window| && |stamps| == |window|
    ensures forall i :: 0 <= i < |window| ==>
      values[i] == window[i].value && stamps[i] == window[i].timestamp
    ensures values == Values(window) && stamps == Timestamps(window)
  {
    values, stamps := [], [];
    for i := 0 to |window|
      invariant values == Values(window[..i])
      invariant stamps == Timestamps(window[..i])
    {
      assert window[..i + 1][..i] == window[..i];
      values := values + [window[i].value];
      stamps := stamps + [window[i].timestamp];
    }
    assert window[..|window|] == window;
    ValuesAt(window);
    TimestampsAt(window);
  }

  // ---------------------------------------------------------------------------
  // Reporting
  // ---------------------------------------------------------------------------

  /** The change points logged for `indices`. */
  function Report(window: seq<Sample>, stamps: seq<Timestamp>, indices: seq<int>): (log: seq<ChangePoint>)
    requires |stamps| == |window| && InBounds(indices, |window|)
    ensures |log| == |indices|
  {
    if indices == [] then []
    else
      var last := indices[|indices| - 1];
      Report(window, stamps, indices[..|indices| - 1]) + [ChangePoint(window[last], stamps[last])]
  }

  /** Entry j logs the sample at the j-th reported index with its timestamp. */
  lemma {:induction false} ReportAt(window: seq<Sample>, stamps: seq<Timestamp>, indices: seq<int>)
    requires |stamps| == |window| && InBounds(indices, |window|)
    ensures forall j :: 0 <= j < |indices| ==>
      Report(window, stamps, indices)[j] == ChangePoint(window[indices[j]], stamps[indices[j]])
    decreases |indices|
  {
    if indices != [] {
      ReportAt(window, stamps, indices[..|indices| - 1]);
    }
  }

  /** The logging loop over the reported indices. */
  method ReportChangePoints(window: seq<Sample>, stamps: seq<Timestamp>, indices: seq<int>)
    returns (log: seq<ChangePoint>)
    requires |stamps| == |window| && InBounds(indices, |window|)
    ensures log == Report(window, stamps, indices)
  {
    log := [];
    for j := 0 to |indices|
      invariant log == Report(window, stamps, indices[..j])
    {
      assert indices[..j + 1][..j] == indices[..j];
      log := log + [ChangePoint(window[indices[j]], stamps[indices[j]])];
    }
    assert indices[..|indices|] == indices;
  }

  // ---------------------------------------------------------------------------
  // Trimming
  // ---------------------------------------------------------------------------

  /**
   * Where the retained window starts: the last reported index, else `(n - 1) / 2`.
   * Go's division truncates toward zero, so an empty window gives 0.
   */
  function TrimStart(n: nat, indices: seq<int>): (start: int)
    // With in-bounds indices the start is inside a non-empty window.
    ensures InBounds(indices, n) ==> 0 <= start <= n && (n > 0 ==> start < n)
    // Without change points at least the back half is kept.
    ensures |indices| == 0 ==> 0 <= start <= n / 2
  {
    if |indices| > 0 then indices[|indices| - 1]
    else if n == 0 then 0
    else (n - 1) / 2
  }

  /** The trimmed window `samples[fromIndex:]`. */
  function Trim(window: seq<Sample>, indices: seq<int>): (kept: seq<Sample>)
    requires InBounds(indices, |window|)
    ensures |kept| <= |window|
    // A non-empty window is never trimmed away.
    ensures |window| > 0 ==> |kept| > 0
  {
    window[TrimStart(|window|, indices)..]
  }

  /** The trimmed window is always a suffix of the window, and non-empty if the window was. */
  lemma TrimIsSuffix(window: seq<Sample>, indices: seq<int>)
    requires InBounds(indices, |window|)
    ensures var r := Trim(window, indices);
      |r| <= |window| && r == window[|window| - |r|..] && (|window| > 0 ==> |r| > 0)
  {
  }

  /** Without change points the back half is kept: `L - (L - 1) / 2` samples. */
  lemma TrimWithoutChangePoints(window: seq<Sample>)
    requires |window| >= 1
    ensures Trim(window, []) == window[(|window| - 1) / 2..]
    ensures |Trim(window, [])| == |window| - (|window| - 1) / 2
    ensures |window| >= MinSampleCount ==> 0 < |Trim(window, [])| < |window|
  {
  }

  /** With change points the window restarts exactly at the last one. */
  lemma TrimAtLastChangePoint(window: seq<Sample>, indices: seq<int>)
    requires InBounds(indices, |window|) && |indices| > 0
    ensures Trim(window, indices) == window[indices[|indices| - 1]..]
    ensures |Trim(window, indices)| == |window| - indices[|indices| - 1]
    ensures indices[|indices| - 1] == 0 ==> Trim(window, indices) == window
  {
  }

  /**
   * With ascending indices, every change point but the last lies before the retained
   * window, and the last one is its first sample.
   */
  lemma TrimDropsEarlierChangePoints(window: seq<Sample>, indices: seq<int>)
    requires InBounds(indices, |window|) && Ascending(indices) && |indices| > 0
    ensures forall j :: 0 <= j < |indices| - 1 ==> indices[j] < |window| - |Trim(window, indices)|
    ensures Trim(window, indices)[0] == window[indices[|indices| - 1]]
  {
  }

  // ---------------------------------------------------------------------------
  // One pass and the whole loop
  // ---------------------------------------------------------------------------

  /** The indices the change-point function reports for a window's values. */
  function Detect(w: seq<Sample>, detect: Detector): (indices: seq<int>)
    requires DetectorInBounds(detect)
    ensures InBounds(indices, |w|)
  {
    assert |Values(w)| == |w|;
    detect(Values(w), Sensitivity)
  }

  /** Detection, logging and trimming on a filled window `w`. */
  function Examine(w: seq<Sample>, consumed: nat, log: seq<ChangePoint>, detect: Detector): (t: State)
    requires DetectorInBounds(detect)
    // Nothing more is read; one log entry per reported index, after the earlier ones.
    ensures t.consumed == consumed
    ensures |t.log| == |log| + |Detect(w, detect)| && t.log[..|log|] == log
  {
    var indices := Detect(w, detect);
    State(Trim(w, indices), consumed, log + Report(w, Timestamps(w), indices))
  }

  /**
   * The body of a pass after the fill loop: split the window, detect with sensitivity 1,
   * log each change point, and keep the window from the last change point (or from the
   * middle when there is none).
   */
  method ExamineWindow(window: seq<Sample>, log: seq<ChangePoint>, detect: Detector)
    returns (kept: seq<Sample>, logged: seq<ChangePoint>)
    requires DetectorInBounds(detect)
    ensures kept == Trim(window, Detect(window, detect))
    ensures logged == log + Report(window, Timestamps(window), Detect(window, detect))
  {
    var values, stamps := SplitWindow(window);
    var indices := detect(values, Sensitivity);
    assert indices == Detect(window, detect);
    var entries := ReportChangePoints(window, stamps, indices);
    logged := log + entries;
    // Go's `(len(samples) - 1) / 2` truncates toward zero: 0 for an empty window.
    var fromIndex := if |window| == 0 then 0 else (|window| - 1) / 2;
    if |indices| > 0 {
      fromIndex := indices[|indices| - 1];
    }
    kept := window[fromIndex..];
  }

  /** One pass of the outer loop after a poll that saw no stop. */
  function Round(s: State, incoming: seq<Sample>, detect: Detector): (r: RoundEnd)
    requires s.consumed <= |incoming|
    requires DetectorInBounds(detect)
    ensures r.StuckFilling? ==>
      && r.last.consumed == |incoming| && |r.last.window| < MinSampleCount
      && r.last.window == s.window + incoming[s.consumed..] && r.last.log == s.log
    ensures r.Completed? ==>
      && r.next.consumed == s.consumed + Need(|s.window|) <= |incoming|
      && 0 < |r.next.window|
      && |r.next.window| <= |s.window| + Need(|s.window|)
      && |s.log| <= |r.next.log|
  {
    var k := Need(|s.window|);
    if |incoming| - s.consumed < k then
      StuckFilling(State(s.window + incoming[s.consumed..], |incoming|, s.log))
    else
      Completed(Examine(s.window + incoming[s.consumed..s.consumed + k], s.consumed + k, s.log, detect))
  }

  /** A stretch `x[a..b]` followed by `x[b..c]` is the stretch `x[a..c]`. */
  lemma SliceJoin<T>(x: seq<T>, a: nat, b: nat, c: nat)
    requires a <= b <= c <= |x|
    ensures x[a..b] + x[b..c] == x[a..c]
  {
  }

  /** A suffix of the stretch `x[a..b]` is itself a stretch ending at `b`. */
  lemma SuffixOfSlice<T>(x: seq<T>, a: nat, b: nat, t: seq<T>)
    requires a <= b <= |x|
    requires |t| <= b - a && t == x[a..b][b - a - |t|..]
    ensures t == x[b - |t|..b]
  {
  }

  /** Each pass keeps the window a contiguous stretch ending at the last sample read. */
  lemma RoundPreservesCoherence(s: State, incoming: seq<Sample>, detect: Detector)
    requires Coherent(s, incoming) && DetectorInBounds(detect)
    ensures match Round(s, incoming, detect)
      case Completed(t) => Coherent(t, incoming)
      case StuckFilling(t) => Coherent(t, incoming)
  {
    if |incoming| - s.consumed < Need(|s.window|) {
      StuckKeepsStretch(s, incoming);
    } else {
      var c := s.consumed + Need(|s.window|);
      var filled := s.window + incoming[s.consumed..c];
      RoundCompletes(s, incoming, detect, filled, c);
      ExamineKeepsStretch(s, incoming, detect, filled, c);
    }
  }

  lemma StuckKeepsStretch(s: State, incoming: seq<Sample>)
    requires Coherent(s, incoming)
    ensures Coherent(State(s.window + incoming[s.consumed..], |incoming|, s.log), incoming)
  {
    var c := s.consumed;
    SliceJoin(incoming, c - |s.window|, c, |incoming|);
    assert incoming[c..] == incoming[c..|incoming|];
  }

  lemma ExamineKeepsStretch(s: State, incoming: seq<Sample>, detect: Detector, filled: seq<Sample>, taken: nat)
    requires Coherent(s, incoming) && DetectorInBounds(detect)
    requires taken == s.consumed + Need(|s.window|) <= |incoming|
    requires filled == s.window + incoming[s.consumed..taken]
    ensures Coherent(Examine(filled, taken, s.log, detect), incoming)
  {
    var start := s.consumed - |s.window|;
    SliceJoin(incoming, start, s.consumed, taken);
    var indices := Detect(filled, detect);
    TrimKeepsStretch(incoming, start, taken, indices, s.log + Report(filled, Timestamps(filled), indices));
  }

  lemma TrimKeepsStretch(incoming: seq<Sample>, start: nat, stop: nat, indices: seq<int>, log: seq<ChangePoint>)
    requires start <= stop <= |incoming| && InBounds(indices, stop - start)
    ensures Coherent(State(Trim(incoming[start..stop], indices), stop, log), incoming)
  {
    SuffixOfSlice(incoming, start, stop, Trim(incoming[start..stop], indices));
  }

  /** A pass that finds enough samples completes with the filled window examined. */
  lemma RoundCompletes(s: State, incoming: seq<Sample>, detect: Detector, filled: seq<Sample>, taken: nat)
    requires DetectorInBounds(detect)
    requires taken == s.consumed + Need(|s.window|) <= |incoming|
    requires filled == s.window + incoming[s.consumed..taken]
    ensures Round(s, incoming, detect) == Completed(Examine(filled, taken, s.log, detect))
  {
  }

  /** A pass on a window already holding `MinSampleCount` samples reads nothing. */
  lemma FullWindowReadsNothing(s: State, incoming: seq<Sample>, detect: Detector)
    requires s.consumed <= |incoming| && DetectorInBounds(detect)
    requires |s.window| >= MinSampleCount
    ensures Round(s, incoming, detect).Completed?
    ensures Round(s, incoming, detect).next.consumed == s.consumed
  {
  }

  /**
   * When the last index reported for a full window is 0, the window is kept as it is,
   * so the next pass reads no sample and runs detection on the very same values.
   */
  lemma ZeroIndexRedetects(s: State, incoming: seq<Sample>, detect: Detector)
    requires s.consumed <= |incoming| && DetectorInBounds(detect)
    requires |s.window| >= MinSampleCount
    requires var indices := detect(Values(s.window), Sensitivity);
      |indices| > 0 && indices[|indices| - 1] == 0
    ensures Round(s, incoming, detect).Completed?
    ensures var t := Round(s, incoming, detect).next;
      t.window == s.window && t.consumed == s.consumed && Round(t, incoming, detect).Completed?
  {
    assert s.window + incoming[s.consumed..s.consumed] == s.window;
  }

  /** The loop as a function of the number of polls that see no stop. */
  function RunFrom(s: State, incoming: seq<Sample>, detect: Detector, polls: nat): (e: (Outcome, State))
    requires s.consumed <= |incoming| && DetectorInBounds(detect)
    // Without a poll that sees no stop, nothing happens.
    ensures polls == 0 ==> e == (Stopped, s)
    decreases polls, 1
  {
    if polls == 0 then (Stopped, s) else After(Round(s, incoming, detect), incoming, detect, polls - 1)
  }

  /** How the loop goes on after a pass ends with `r`, with `polls` more polls to see no stop. */
  function After(r: RoundEnd, incoming: seq<Sample>, detect: Detector, polls: nat): (e: (Outcome, State))
    requires r.Completed? ==> r.next.consumed <= |incoming|
    requires DetectorInBounds(detect)
    // A pass stuck in the fill loop blocks the loop for good.
    ensures r.StuckFilling? ==> e == (Blocked, r.last)
    ensures r.Completed? && polls == 0 ==> e == (Stopped, r.next)
    decreases polls, 2
  {
    match r
    case StuckFilling(t) => (Blocked, t)
    case Completed(t) => RunFrom(t, incoming, detect, polls)
  }

  /** A poll that sees no stop, followed by a completed pass, leaves one poll fewer. */
  lemma RunFromAdvances(s: State, t: State, incoming: seq<Sample>, detect: Detector, polls: nat)
    requires s.consumed <= |incoming| && DetectorInBounds(detect)
    requires Round(s, incoming, detect) == Completed(t)
    ensures RunFrom(s, incoming, detect, polls + 1) == RunFrom(t, incoming, detect, polls)
  {
  }

  /** A pass that blocks in the fill loop ends the loop with the partly filled window. */
  lemma RunFromBlocks(s: State, incoming: seq<Sample>, detect: Detector, polls: nat)
    requires s.consumed <= |incoming| && DetectorInBounds(detect)
    requires polls > 0 && Round(s, incoming, detect).StuckFilling?
    ensures RunFrom(s, incoming, detect, polls) == (Blocked, Round(s, incoming, detect).last)
  {
  }

  /** Where the loop ends: a coherent window, and a blocked loop has read everything. */
  predicate Settled(end: (Outcome, State), incoming: seq<Sample>) {
    && Coherent(end.1, incoming)
    && (end.0 == Blocked ==> end.1.consumed == |incoming| && |end.1.window| < MinSampleCount)
  }

  /**
   * However the loop ends, its window is the latest stretch of the samples read, and a
   * blocked loop has read everything and holds fewer than `MinSampleCount`.
   */
  lemma {:induction false} RunFromCoherent(s: State, incoming: seq<Sample>, detect: Detector, polls: nat)
    requires Coherent(s, incoming) && DetectorInBounds(detect)
    ensures Settled(RunFrom(s, incoming, detect, polls), incoming)
    decreases polls, 1
  {
    if polls > 0 {
      RoundPreservesCoherence(s, incoming, detect);
      AfterCoherent(Round(s, incoming, detect), incoming, detect, polls - 1);
    }
  }

  /** The same for the rest of the loop after a pass that kept the window coherent. */
  lemma {:induction false} AfterCoherent(r: RoundEnd, incoming: seq<Sample>, detect: Detector, polls: nat)
    requires DetectorInBounds(detect)
    requires r.Completed? ==> Coherent(r.next, incoming)
    requires r.StuckFilling? ==> Settled((Blocked, r.last), incoming)
    ensures Settled(After(r, incoming, detect, polls), incoming)
    decreases polls, 2
  {
    if r.Completed? {
      RunFromCoherent(r.next, incoming, detect, polls);
    }
  }

  /** The loop never reads past the queue, never reads back, and never drops a log entry. */
  lemma {:induction false} RunFromMonotone(s: State, incoming: seq<Sample>, detect: Detector, polls: nat)
    requires s.consumed <= |incoming| && DetectorInBounds(detect)
    ensures var e := RunFrom(s, incoming, detect, polls);
      s.consumed <= e.1.consumed <= |incoming| && |s.log| <= |e.1.log|
    decreases polls, 1
  {
    if polls > 0 {
      AfterMonotone(Round(s, incoming, detect), incoming, detect, polls - 1);
    }
  }

  /** The same for the rest of the loop after a pass ending in `r`. */
  lemma {:induction false} AfterMonotone(r: RoundEnd, incoming: seq<Sample>, detect: Detector, polls: nat)
    requires r.Completed? ==> r.next.consumed <= |incoming|
    requires DetectorInBounds(detect)
    ensures var e := After(r, incoming, detect, polls);
      r.Completed? ==> r.next.consumed <= e.1.consumed <= |incoming| && |r.next.log| <= |e.1.log|
    decreases polls, 2
  {
    if r.Completed? {
      RunFromMonotone(r.next, incoming, detect, polls);
    }
  }

  /** One pass of Run's loop after a poll that saw no stop: the fill loop, then examination. */
  method RunRound(window: seq<Sample>, consumed: nat, log: seq<ChangePoint>, incoming: seq<Sample>,
                  detect: Detector)
    returns (blocked: bool, window': seq<Sample>, consumed': nat, log': seq<ChangePoint>)
    requires consumed <= |incoming| && DetectorInBounds(detect)
    ensures blocked ==>
      Round(State(window, consumed, log), incoming, detect) == StuckFilling(State(window', consumed', log'))
    ensures !blocked ==>
      Round(State(window, consumed, log), incoming, detect) == Completed(State(window', consumed', log'))
  {
    window', consumed', blocked := FillWindow(window, incoming, consumed);
    log' := log;
    if blocked {
      assert incoming[consumed..] == incoming[consumed..consumed'];
      return;
    }
    RoundCompletes(State(window, consumed, log), incoming, detect, window', consumed');
    window', log' := ExamineWindow(window', log, detect);
  }

  /**
   * Run: poll for a stop, fill the window, split it, detect with sensitivity 1, log the
   * change points and trim, over and over.
   */
  method Run(incoming: seq<Sample>, stopAt: nat, detect: Detector)
    returns (outcome: Outcome, window: seq<Sample>, consumed: nat, log: seq<ChangePoint>)
    requires DetectorInBounds(detect)
    ensures (outcome, State(window, consumed, log)) == RunFrom(Initial, incoming, detect, stopAt)
    ensures consumed <= |incoming| && |window| <= consumed
    ensures window == incoming[consumed - |window|..consumed]
    ensures outcome == Blocked ==> consumed == |incoming| && |window| < MinSampleCount
  {
    RunFromCoherent(Initial, incoming, detect, stopAt);
    window, consumed, log := [], 0, [];
    var remaining := stopAt;
    while true
      invariant consumed <= |incoming|
      invariant RunFrom(State(window, consumed, log), incoming, detect, remaining) ==
        RunFrom(Initial, incoming, detect, stopAt)
      decreases remaining
    {
      // len(stop) > 0 || ctx.Err() != nil
      if remaining == 0 {
        return Stopped, window, consumed, log;
      }
      ghost var before := State(window, consumed, log);
      var blocked;
      blocked, window, consumed, log := RunRound(window, consumed, log, incoming, detect);
      if blocked {
        RunFromBlocks(before, incoming, detect, remaining);
        return Blocked, window, consumed, log;
      }
      ghost var after := State(window, consumed, log);
      remaining := remaining - 1;
      RunFromAdvances(before, after, incoming, detect, remaining);
    }
  }
}

/**
 * The scraper of internal/scraper/scraper.go: the label-map comparison, the per-line
 * search for the target series, the scan of one payload, the bounded sample queue and
 * the validation done when a scraper is built.
 */
module Scraper {
  import opened Wrappers
  import opened PromQL

  /** Samples needed before detection starts (`1 << 5`); also the queue's capacity. */
  const MinSampleCount: nat := 32

  newtype uint8 = x: int | 0 <= x < 0x100
  newtype uint64 = x: int | 0 <= x < 0x1_0000_0000_0000_0000

  /** A point in time; the clock itself (`time.Now()`) is a parameter of the model. */
  type Timestamp = int

  /** `TimestampedFloat64`; the float64 value is modelled as a real. */
  datatype Sample = Sample(timestamp: Timestamp, value: real)

  // ---------------------------------------------------------------------------
  // vectorIsEqual
  // ---------------------------------------------------------------------------

  /** Reading a Go map: a missing key yields the zero string. */
  function Lookup(m: Labels, k: string): string {
    if k in m then m[k] else ""
  }

  /** The decision vectorIsEqual takes once both label maps are in hand. */
  predicate LabelsEqual(a: Labels, b: Labels): (eq: bool)
    // A label set with a non-empty value is found in `b` with that value.
    ensures eq ==> forall k :: k in a && a[k] != "" ==> k in b && b[k] == a[k]
    // Equal label sets are equal.
    ensures a == b ==> eq
  {
    |a| == |b| && forall k :: k in a ==> Lookup(b, k) == a[k]
  }

  /** A selector whose printed form `ParseMetric` rejects. */
  datatype CompareError = UnparsableSelector(text: string)

  /** What vectorIsEqual returns for two selectors given by their printed forms. */
  function CompareSelectors(a: string, b: string, p: Parser): (r: Result<bool, CompareError>)
    // It fails exactly when a selector does not parse, naming the first one that does not.
    ensures r.Failure? <==> p.parseMetric(a).None? || p.parseMetric(b).None?
    ensures r.Failure? ==> r.error == UnparsableSelector(if p.parseMetric(a).None? then a else b)
    // A selector that parses matches itself.
    ensures a == b && p.parseMetric(a).Some? ==> r == Success(true)
  {
    match p.parseMetric(a)
    case None => Failure(UnparsableSelector(a))
    case Some(am) =>
      match p.parseMetric(b)
      case None => Failure(UnparsableSelector(b))
      case Some(bm) => Success(LabelsEqual(am, bm))
  }

  /** vectorIsEqual: parse both selectors, compare sizes, then look up every key of `a` in `b`. */
  method VectorIsEqual(a: string, b: string, p: Parser) returns (r: Result<bool, CompareError>)
    ensures r == CompareSelectors(a, b, p)
    ensures r.Success? && r.value ==>
      p.parseMetric(a).Some? && p.parseMetric(b).Some? &&
      |p.parseMetric(a).value| == |p.parseMetric(b).value|
  {
    var aparsed := p.parseMetric(a);
    if aparsed.None? {
      return Failure(UnparsableSelector(a));
    }
    var bparsed := p.parseMetric(b);
    if bparsed.None? {
      return Failure(UnparsableSelector(b));
    }
    var am, bm := aparsed.value, bparsed.value;
    if |am| != |bm| {
      return Success(false);
    }
    var keys := am.Keys;
    while keys != {}
      invariant keys <= am.Keys
      invariant forall k :: k in am && k !in keys ==> Lookup(bm, k) == am[k]
      decreases keys
    {
      var k :| k in keys;
      if Lookup(bm, k) != am[k] {
        return Success(false);
      }
      keys := keys - {k};
    }
    return Success(true);
  }

  /** Label maps of different sizes never compare equal. */
  lemma LabelsEqualSizeMismatch(a: Labels, b: Labels)
    requires |a| != |b|
    ensures !LabelsEqual(a, b)
  {
  }

  /** A key both maps hold with different values makes them unequal. */
  lemma LabelsEqualValueDiffers(a: Labels, b: Labels, k: string)
    requires k in a && k in b && a[k] != b[k]
    ensures !LabelsEqual(a, b)
  {
  }

  /**
   * When no label of `a` has the empty value, the comparison is exactly map equality
   * (and so symmetric).
   */
  lemma LabelsEqualIsMapEquality(a: Labels, b: Labels)
    requires forall k :: k in a ==> a[k] != ""
    ensures LabelsEqual(a, b) <==> a == b
  {
    if LabelsEqual(a, b) {
      assert a.Keys <= b.Keys by {
        forall k | k in a
          ensures k in b
        {
          assert Lookup(b, k) == a[k];
        }
      }
      SubsetOfSameSize(a.Keys, b.Keys);
      assert forall k :: k in a ==> a[k] == b[k] by {
        forall k | k in a
          ensures a[k] == b[k]
        {
          assert Lookup(b, k) == a[k];
        }
      }
    }
  }

  lemma SubsetOfSameSize<T>(s: set<T>, t: set<T>)
    requires s <= t && |s| == |t|
    ensures s == t
  {
    assert |t - s| == |t| - |s| == 0;
    assert t - s == {};
  }

  /**
   * A key of `a` whose value is empty matches a key that `b` lacks: `{x=""}` compares
   * equal to `{y="1"}`, though not the other way round.
   */
  lemma LabelsEqualEmptyValueMatchesMissingKey()
    ensures LabelsEqual(map["x" := ""], map["y" := "1"])
    ensures !LabelsEqual(map["y" := "1"], map["x" := ""])
  {
    var a, b := map["x" := ""], map["y" := "1"];
    assert a.Keys == {"x"} && b.Keys == {"y"};
    assert Lookup(a, "y") == "";
  }

  // ---------------------------------------------------------------------------
  // search
  // ---------------------------------------------------------------------------

  /** The errors search returns. The first two are the package's sentinel errors. */
  datatype SearchError =
    | VectorTypeMismatch
    | TargetNotFound
    | MetricParseError
    | CompareFailed(cause: CompareError)
    | SeriesDescParseError
    | ValueCountError(count: nat)

  /** The effect of one search call: nil and `*got` left alone, nil and `*got` set, or an error. */
  datatype SearchResult = Pass | Store(value: real) | Fail(err: SearchError)

  /** Only lines matching `^[a-z]` are looked at. */
  predicate IsCandidate(line: string): (c: bool)
    // Comment lines and lines starting with a space are skipped.
    ensures |line| > 0 && (line[0] == '#' || line[0] == ' ') ==> !c
    // A candidate always has a non-empty leading token.
    ensures c ==> |LeadingToken(line)| > 0
  {
    |line| > 0 && 'a' <= line[0] <= 'z'
  }

  /** `strings.SplitN(line, " ", 2)[0]`: the text before the first space. */
  function LeadingToken(line: string): (t: string)
    ensures |t| <= |line| && t == line[..|t|]
    ensures ' ' !in t
    ensures |t| < |line| ==> line[|t|] == ' '
  {
    if line == [] || line[0] == ' ' then [] else [line[0]] + LeadingToken(line[1..])
  }

  /**
   * What search does with one line, `gotIsNil` telling whether its out-parameter is nil.
   * `selector` is the target selector by its printed form.
   */
  function SearchOutcome(line: string, selector: string, p: Parser, gotIsNil: bool): (r: SearchResult)
    // Non-candidate lines: nothing is stored and no error comes back (got is never nil in read).
    ensures !IsCandidate(line) ==> r == (if gotIsNil then Fail(TargetNotFound) else Pass)
    // The type check on the leading token comes before its parse error.
    ensures IsCandidate(line) && !p.parseExpr(LeadingToken(line)).expr.VectorSelector? ==>
      r == Fail(VectorTypeMismatch)
    // A value is stored only for a matching candidate whose line yields exactly that one value.
    ensures r.Store? ==>
      && IsCandidate(line)
      && var parsed := p.parseExpr(LeadingToken(line));
      && parsed.expr.VectorSelector? && !parsed.failed
      && CompareSelectors(selector, parsed.expr.text, p) == Success(true)
      && p.parseSeriesDesc(line) == Some([r.value])
    // Conversely, such a line always stores its value.
    ensures (
      && IsCandidate(line)
      && var parsed := p.parseExpr(LeadingToken(line));
      && parsed.expr.VectorSelector? && !parsed.failed
      && CompareSelectors(selector, parsed.expr.text, p) == Success(true)
      && p.parseSeriesDesc(line).Some? && |p.parseSeriesDesc(line).value| == 1)
      ==> r == Store(p.parseSeriesDesc(line).value[0])
    // On a match, zero or several values are an error.
    ensures r.Fail? && r.err.ValueCountError? ==>
      p.parseSeriesDesc(line).Some? && r.err.count == |p.parseSeriesDesc(line).value| != 1
    // Each remaining branch for a candidate whose leading token is a vector selector.
    ensures IsCandidate(line) && p.parseExpr(LeadingToken(line)).expr.VectorSelector? ==>
      var m := p.parseExpr(LeadingToken(line));
      if m.failed then r == Fail(MetricParseError)
      else match CompareSelectors(selector, m.expr.text, p)
        case Failure(e) => r == Fail(CompareFailed(e))
        case Success(found) =>
          if !found then r == (if gotIsNil then Fail(TargetNotFound) else Pass)
          else match p.parseSeriesDesc(line)
            case None => r == Fail(SeriesDescParseError)
            case Some(v) => |v| != 1 ==> r == Fail(ValueCountError(|v|))
    // searchTargetNotFoundErr needs a nil out-parameter.
    ensures r == Fail(TargetNotFound) ==> gotIsNil
  {
    var fallThrough := if gotIsNil then Fail(TargetNotFound) else Pass;
    if !IsCandidate(line) then fallThrough
    else
      var metric := p.parseExpr(LeadingToken(line));
      if !metric.expr.VectorSelector? then Fail(VectorTypeMismatch)
      else if metric.failed then Fail(MetricParseError)
      else match CompareSelectors(selector, metric.expr.text, p)
        case Failure(e) => Fail(CompareFailed(e))
        case Success(found) =>
          if !found then fallThrough
          else match p.parseSeriesDesc(line)
            case None => Fail(SeriesDescParseError)
            case Some(v) =>
              if |v| != 1 then Fail(ValueCountError(|v|))
              else assert v == [v[0]]; Store(v[0])
  }

  /** The out-parameter `got *float64`. */
  class Cell {
    var value: real

    constructor (v: real)
      ensures value == v
    {
      value := v;
    }
  }

  /**
   * search, storing through `got`. Storing through a nil `got` would panic in Go, so a
   * nil `got` is admitted only where search would not store.
   */
  method Search(line: string, selector: string, p: Parser, got: Cell?) returns (err: Option<SearchError>)
    requires got == null ==> !SearchOutcome(line, selector, p, true).Store?
    modifies got
    ensures var r := SearchOutcome(line, selector, p, got == null);
      && err == (if r.Fail? then Some(r.err) else None)
      && (got != null ==> got.value == if r.Store? then r.value else old(got.value))
  {
    if IsCandidate(line) {
      var metric := p.parseExpr(LeadingToken(line));
      if !metric.expr.VectorSelector? {
        return Some(VectorTypeMismatch);
      }
      if metric.failed {
        return Some(MetricParseError);
      }
      var found := VectorIsEqual(selector, metric.expr.text, p);
      if found.Failure? {
        return Some(CompareFailed(found.error));
      }
      if found.value {
        var v := p.parseSeriesDesc(line);
        if v.None? {
          return Some(SeriesDescParseError);
        }
        if |v.value| != 1 {
          return Some(ValueCountError(|v.value|));
        }
        got.value := v.value[0];
        return None;
      }
    }
    if got == null {
      return Some(TargetNotFound);
    }
    return None;
  }

  // ---------------------------------------------------------------------------
  // read
  // ---------------------------------------------------------------------------

  /** What `bufio.Reader.ReadString('\n')` returns on an in-memory buffer. */
  datatype Chunk =
    | Line(line: string, rest: string)   // a line with its '\n', and what follows it
    | Eof(partial: string)               // no '\n' left: the remaining text, with io.EOF

  function ReadString(s: string): (r: Chunk)
    ensures r.Eof? <==> '\n' !in s
    ensures r.Eof? ==> r.partial == s
    ensures r.Line? ==>
      && r.line + r.rest == s
      && |r.line| > 0 && r.line[|r.line| - 1] == '\n'
      && '\n' !in r.line[..|r.line| - 1]
  {
    if s == [] then Eof([])
    else if s[0] == '\n' then Line("\n", s[1..])
    else
      assert s == [s[0]] + s[1..];
      assert '\n' in s <==> '\n' in s[1..];
      match ReadString(s[1..])
      case Eof(partial) => Eof([s[0]] + partial)
      case Line(line, rest) =>
        ConsLine(s[0], line, rest);
        Line([s[0]] + line, rest)
  }

  /** A character other than '\n' in front of a line keeps it a single line. */
  lemma ConsLine(c: char, line: string, rest: string)
    requires c != '\n' && |line| > 0 && line[|line| - 1] == '\n' && '\n' !in line[..|line| - 1]
    ensures var l := [c] + line;
      && l + rest == [c] + (line + rest)
      && |l| > 0 && l[|l| - 1] == '\n' && '\n' !in l[..|l| - 1]
  {
    ConsDropsLast(c, line);
  }

  /** Dropping the last element of a sequence with a new head drops it from the tail. */
  lemma ConsDropsLast(c: char, x: string)
    requires |x| > 0
    ensures ([c] + x)[..|x|] == [c] + x[..|x| - 1]
  {
    assert forall i :: 0 <= i < |x| ==> ([c] + x)[..|x|][i] == ([c] + x[..|x| - 1])[i];
  }

  /** The lines read searches: every '\n'-terminated line; an unterminated tail is dropped. */
  function Lines(s: string): (ls: seq<string>)
    ensures forall i :: 0 <= i < |ls| ==> |ls[i]| > 0 && ls[i][|ls[i]| - 1] == '\n'
    decreases |s|
  {
    match ReadString(s)
    case Eof(_) => []
    case Line(line, rest) => [line] + Lines(rest)
  }

  /** How read ends: one sample is written, or an error is logged and nothing written. */
  datatype ReadOutcome = Written(value: real) | Aborted(err: SearchError)

  /** What read does with the lines still ahead when `*got` holds `got`. */
  function Scan(lines: seq<string>, got: real, selector: string, p: Parser): (r: ReadOutcome)
    // Read gives up only on an error that search reports for real.
    ensures r.Aborted? ==> r.err != VectorTypeMismatch && r.err != TargetNotFound
    decreases |lines|
  {
    if lines == [] then Written(got)
    else
      match SearchOutcome(lines[0], selector, p, false)
      case Pass => Scan(lines[1..], got, selector, p)
      case Store(v) => Scan(lines[1..], v, selector, p)
      case Fail(VectorTypeMismatch) => Scan(lines[1..], got, selector, p)
      case Fail(TargetNotFound) => Written(got)
      case Fail(e) => Aborted(e)
  }

  /** What read does with a whole response body; `*got` starts at zero. */
  function ReadBody(body: string, selector: string, p: Parser): (r: ReadOutcome)
    ensures r.Aborted? ==> r.err != VectorTypeMismatch && r.err != TargetNotFound
    // A body without one complete line writes the zero value.
    ensures '\n' !in body ==> r == Written(0.0)
  {
    Scan(Lines(body), 0.0, selector, p)
  }

  /** A search result that makes read log the error and give up. */
  predicate IsFatal(r: SearchResult) {
    r.Fail? && r.err != VectorTypeMismatch && r.err != TargetNotFound
  }

  /** Reference definition: the value of the last line that stores one, else `got`. */
  function LastStored(lines: seq<string>, got: real, selector: string, p: Parser): real
    decreases |lines|
  {
    if lines == [] then got
    else
      match SearchOutcome(lines[|lines| - 1], selector, p, false)
      case Store(v) => v
      case _ => LastStored(lines[..|lines| - 1], got, selector, p)
  }

  /** `*got` after searching one line. */
  function Advance(line: string, got: real, selector: string, p: Parser): real {
    match SearchOutcome(line, selector, p, false)
    case Store(v) => v
    case _ => got
  }

  lemma {:induction false} LastStoredFront(lines: seq<string>, got: real, selector: string, p: Parser)
    requires |lines| > 0
    ensures LastStored(lines, got, selector, p) ==
      LastStored(lines[1..], Advance(lines[0], got, selector, p), selector, p)
    decreases |lines|
  {
    var n := |lines|;
    if n > 1 && !SearchOutcome(lines[n - 1], selector, p, false).Store? {
      assert lines[1..][..n - 2] == lines[..n - 1][1..];
      LastStoredFront(lines[..n - 1], got, selector, p);
    }
  }

  /** read aborts exactly when some line gives a search error other than a type mismatch. */
  lemma {:induction false} ScanAbortsIffFatal(lines: seq<string>, got: real, selector: string, p: Parser)
    ensures Scan(lines, got, selector, p).Aborted? <==>
      exists j :: 0 <= j < |lines| && IsFatal(SearchOutcome(lines[j], selector, p, false))
    decreases |lines|
  {
    if lines != [] {
      var r := SearchOutcome(lines[0], selector, p, false);
      var tail := lines[1..];
      if IsFatal(r) {
        assert Scan(lines, got, selector, p).Aborted?;
      } else {
        assert Scan(lines, got, selector, p) == Scan(tail, Advance(lines[0], got, selector, p), selector, p);
        ScanAbortsIffFatal(tail, Advance(lines[0], got, selector, p), selector, p);
        forall j | 0 <= j < |tail|
          ensures tail[j] == lines[j + 1]
        {
        }
      }
    }
  }

  /** The error read logs is the one of the first fatal line. */
  lemma {:induction false} ScanAbortsAtFirstFatal(lines: seq<string>, got: real, selector: string, p: Parser, j: nat)
    requires j < |lines| && IsFatal(SearchOutcome(lines[j], selector, p, false))
    requires forall i :: 0 <= i < j ==> !IsFatal(SearchOutcome(lines[i], selector, p, false))
    ensures Scan(lines, got, selector, p) == Aborted(SearchOutcome(lines[j], selector, p, false).err)
    decreases j
  {
    if j > 0 {
      assert !IsFatal(SearchOutcome(lines[0], selector, p, false));
      forall i | 0 <= i < j - 1
        ensures !IsFatal(SearchOutcome(lines[1..][i], selector, p, false))
      {
        assert lines[1..][i] == lines[i + 1];
      }
      ScanAbortsAtFirstFatal(lines[1..], Advance(lines[0], got, selector, p), selector, p, j - 1);
    }
  }

  /**
   * Without a fatal line the scan runs to the end and writes the value of the LAST
   * matching line: a match does not stop the scan.
   */
  lemma {:induction false} ScanWritesLastStored(lines: seq<string>, got: real, selector: string, p: Parser)
    requires forall i :: 0 <= i < |lines| ==> !IsFatal(SearchOutcome(lines[i], selector, p, false))
    ensures Scan(lines, got, selector, p) == Written(LastStored(lines, got, selector, p))
    decreases |lines|
  {
    if lines != [] {
      assert !IsFatal(SearchOutcome(lines[0], selector, p, false));
      forall i | 0 <= i < |lines| - 1
        ensures !IsFatal(SearchOutcome(lines[1..][i], selector, p, false))
      {
        assert lines[1..][i] == lines[i + 1];
      }
      ScanWritesLastStored(lines[1..], Advance(lines[0], got, selector, p), selector, p);
      LastStoredFront(lines, got, selector, p);
    }
  }

  /** LastStored picks the value of the last storing line. */
  lemma {:induction false} LastStoredIsLast(lines: seq<string>, got: real, selector: string, p: Parser, j: nat)
    requires j < |lines| && SearchOutcome(lines[j], selector, p, false).Store?
    requires forall i :: j < i < |lines| ==> !SearchOutcome(lines[i], selector, p, false).Store?
    ensures LastStored(lines, got, selector, p) == SearchOutcome(lines[j], selector, p, false).value
    decreases |lines|
  {
    if j < |lines| - 1 {
      var init := lines[..|lines| - 1];
      assert init[j] == lines[j];
      forall i | j < i < |init|
        ensures !SearchOutcome(init[i], selector, p, false).Store?
      {
        assert init[i] == lines[i];
      }
      LastStoredIsLast(init, got, selector, p, j);
    }
  }

  /** With no storing line, LastStored keeps the initial value. */
  lemma {:induction false} LastStoredNone(lines: seq<string>, got: real, selector: string, p: Parser)
    requires forall i :: 0 <= i < |lines| ==> !SearchOutcome(lines[i], selector, p, false).Store?
    ensures LastStored(lines, got, selector, p) == got
    decreases |lines|
  {
    if lines != [] {
      var init := lines[..|lines| - 1];
      forall i | 0 <= i < |init|
        ensures !SearchOutcome(init[i], selector, p, false).Store?
      {
        assert init[i] == lines[i];
      }
      LastStoredNone(init, got, selector, p);
    }
  }

  /** read writes the value of the last matching line of the body. */
  lemma ReadLastMatchWins(body: string, selector: string, p: Parser, j: nat)
    requires var ls := Lines(body);
      && j < |ls| && SearchOutcome(ls[j], selector, p, false).Store?
      && (forall i :: j < i < |ls| ==> !SearchOutcome(ls[i], selector, p, false).Store?)
      && (forall i :: 0 <= i < |ls| ==> !IsFatal(SearchOutcome(ls[i], selector, p, false)))
    ensures ReadBody(body, selector, p) == Written(SearchOutcome(Lines(body)[j], selector, p, false).value)
  {
    ScanWritesLastStored(Lines(body), 0.0, selector, p);
    LastStoredIsLast(Lines(body), 0.0, selector, p, j);
  }

  /** Two matching lines: the second one's value is written, not the first one's. */
  lemma ReadKeepsSecondOfTwoMatches(l1: string, l2: string, selector: string, p: Parser, v1: real, v2: real)
    requires SearchOutcome(l1, selector, p, false) == Store(v1)
    requires SearchOutcome(l2, selector, p, false) == Store(v2)
    ensures Scan([l1, l2], 0.0, selector, p) == Written(v2)
  {
    assert [l1, l2][0] == l1 && [l1, l2][1..] == [l2];
    assert Scan([l1, l2], 0.0, selector, p) == Scan([l2], v1, selector, p);
    assert [l2][0] == l2 && [l2][1..] == [];
    assert Scan([l2], v1, selector, p) == Scan([], v2, selector, p);
  }

  /** When no line matches and none fails, read still writes a sample: the zero value. */
  lemma ReadNoMatchWritesZero(body: string, selector: string, p: Parser)
    requires forall i :: 0 <= i < |Lines(body)| ==>
      var r := SearchOutcome(Lines(body)[i], selector, p, false);
      r == Pass || r == Fail(VectorTypeMismatch)
    ensures ReadBody(body, selector, p) == Written(0.0)
  {
    ScanWritesLastStored(Lines(body), 0.0, selector, p);
    LastStoredNone(Lines(body), 0.0, selector, p);
  }

  /** The first line of a buffer does not depend on what follows it. */
  lemma {:induction false} ReadStringExtend(s: string, t: string)
    requires ReadString(s).Line?
    ensures ReadString(s + t) == Line(ReadString(s).line, ReadString(s).rest + t)
    decreases |s|
  {
    assert (s + t)[0] == s[0] && (s + t)[1..] == s[1..] + t;
    if s[0] != '\n' {
      ReadStringExtend(s[1..], t);
    }
  }

  /** An unterminated last line is dropped without being searched. */
  lemma {:induction false} LinesDropUnterminatedTail(s: string, t: string)
    requires s == [] || s[|s| - 1] == '\n'
    requires '\n' !in t
    ensures Lines(s + t) == Lines(s)
    decreases |s|
  {
    if s == [] {
      assert s + t == t;
    } else {
      assert '\n' in s;
      var c := ReadString(s);
      ReadStringExtend(s, t);
      var rest := c.rest;
      assert rest == [] || rest[|rest| - 1] == '\n' by {
        if rest != [] {
          assert s[|s| - 1] == (c.line + rest)[|s| - 1] == rest[|rest| - 1];
        }
      }
      LinesDropUnterminatedTail(rest, t);
    }
  }

  lemma ReadDropsUnterminatedTail(body: string, tail: string, selector: string, p: Parser)
    requires body == [] || body[|body| - 1] == '\n'
    requires '\n' !in tail
    ensures ReadBody(body + tail, selector, p) == ReadBody(body, selector, p)
  {
    LinesDropUnterminatedTail(body, tail);
  }

  /**
   * read: scan the body line by line, skip type mismatches, give up on any other error,
   * and at the end of the body write `*got` to the queue.
   */
  method Read(body: string, selector: string, p: Parser, ch: SampleChan, now: Timestamp)
    requires ch.Valid()
    requires ReadBody(body, selector, p).Written? ==> |ch.items| < ch.capacity
    modifies ch
    ensures ch.Valid()
    ensures ch.items == old(ch.items) +
      match ReadBody(body, selector, p)
      case Written(v) => [Sample(now, v)]
      case Aborted(_) => []
  {
    var got := new Cell(0.0);
    var rest := body;
    while true
      invariant Scan(Lines(rest), got.value, selector, p) == ReadBody(body, selector, p)
      invariant ch.items == old(ch.items)
      decreases |rest|
    {
      var chunk := ReadString(rest);
      if chunk.Eof? {
        break;
      }
      rest := chunk.rest;
      var err := Search(chunk.line, selector, p, got);
      if err == Some(VectorTypeMismatch) {
        continue;
      } else if err == Some(TargetNotFound) {
        break;
      } else if err.Some? {
        return;
      }
    }
    ch.Write(got.value, now);
  }

  // ---------------------------------------------------------------------------
  // sampleChan
  // ---------------------------------------------------------------------------

  /**
   * sampleChan: a buffered channel of `MinSampleCount` samples. A full channel blocks
   * the writer and an empty one the reader; sequentially, those are preconditions.
   */
  class SampleChan {
    var items: seq<Sample>
    const capacity: nat := MinSampleCount

    ghost predicate Valid()
      reads this
    {
      |items| <= capacity
    }

    /** `make(chan TimestampedFloat64, MinSampleCount)` */
    constructor ()
      ensures Valid() && items == [] && capacity == MinSampleCount
    {
      items := [];
    }

    /** Takes the oldest sample. */
    method Read() returns (s: Sample)
      requires Valid() && |items| > 0
      modifies this
      ensures Valid()
      ensures s == old(items)[0] && items == old(items)[1..]
    {
      s := items[0];
      items := items[1..];
    }

    /** Appends a sample stamped with the current time `now`. */
    method Write(value: real, now: Timestamp)
      requires Valid() && |items| < capacity
      modifies this
      ensures Valid()
      ensures items == old(items) + [Sample(now, value)]
    {
      items := items + [Sample(now, value)];
    }

    /** `uint8(len(s.ch))`: the conversion never truncates, as the channel holds at most 32. */
    method Len() returns (n: uint8)
      requires Valid()
      ensures n as int == |items| <= MinSampleCount
    {
      n := (|items| % 0x100) as uint8;
    }
  }

  // ---------------------------------------------------------------------------
  // New and the Scraper
  // ---------------------------------------------------------------------------

  /** The endpoint as `url.Parse` returns it; its parts are never inspected here. */
  type Url = string

  /** options.Options */
  datatype Options = Options(scrapeInterval: uint64, timeSeriesSelector: string, endpoint: string)

  datatype ConfigError = SelectorParseError | SelectorNotVector | EndpointParseError

  /** What a Scraper holds besides its queue; the interval in nanoseconds. */
  datatype Config = Config(scrapeInterval: int, selector: string, endpoint: Url)

  const TwoTo63: int := 0x8000_0000_0000_0000
  const TwoTo64: int := 0x1_0000_0000_0000_0000

  /** Two's-complement wrap-around to int64. */
  function WrapInt64(x: int): (r: int)
    ensures -TwoTo63 <= r < TwoTo63
    ensures -TwoTo63 <= x < TwoTo63 ==> r == x
    ensures (x - r) % TwoTo64 == 0
  {
    (x + TwoTo63) % TwoTo64 - TwoTo63
  }

  /** `time.Duration(seconds) * time.Second`, both steps in int64. */
  function IntervalNanos(seconds: uint64): (r: int)
    ensures -TwoTo63 <= r < TwoTo63
    // The int64 interval is the exact product, modulo 2^64.
    ensures (seconds as int * 1_000_000_000 - r) % TwoTo64 == 0
  {
    var d := WrapInt64(seconds as int);
    var r := WrapInt64(d * 1_000_000_000);
    CongruentScale(seconds as int, d, 1_000_000_000);
    CongruentTrans(seconds as int * 1_000_000_000, d * 1_000_000_000, r);
    r
  }

  /** Multiplying preserves congruence modulo 2^64. */
  lemma CongruentScale(x: int, y: int, c: int)
    requires (x - y) % TwoTo64 == 0
    ensures (x * c - y * c) % TwoTo64 == 0
  {
    var k := (x - y) / TwoTo64;
    assert x - y == k * TwoTo64;
    assert x * c - y * c == (k * c) * TwoTo64;
  }

  /** Congruence modulo 2^64 is transitive. */
  lemma CongruentTrans(x: int, y: int, z: int)
    requires (x - y) % TwoTo64 == 0 && (y - z) % TwoTo64 == 0
    ensures (x - z) % TwoTo64 == 0
  {
    var k := (x - y) / TwoTo64;
    var m := (y - z) / TwoTo64;
    assert x - z == (k + m) * TwoTo64;
  }

  /** Up to 9223372036 seconds the interval is exact and positive. */
  lemma IntervalExact(seconds: uint64)
    requires 1 <= seconds <= 9_223_372_036
    ensures IntervalNanos(seconds) == seconds as int * 1_000_000_000 > 0
  {
  }

  /** One second more and the int64 product wraps to a negative duration. */
  lemma IntervalWraps()
    ensures IntervalNanos(9_223_372_037) < 0
  {
    assert 9_223_372_037 * 1_000_000_000 == TwoTo63 + 145_224_192;
  }

  /** The checks of New, in their order. */
  function Configure(options: Options, p: Parser, parseUrl: string -> Option<Url>): (r: Result<Config, ConfigError>)
    ensures p.parseExpr(options.timeSeriesSelector).failed <==> r == Failure(SelectorParseError)
    ensures r == Failure(SelectorNotVector) <==>
      !p.parseExpr(options.timeSeriesSelector).failed &&
      !p.parseExpr(options.timeSeriesSelector).expr.VectorSelector?
    ensures r == Failure(EndpointParseError) <==>
      !p.parseExpr(options.timeSeriesSelector).failed &&
      p.parseExpr(options.timeSeriesSelector).expr.VectorSelector? &&
      parseUrl(options.endpoint).None?
    ensures r.Success? ==>
      && r.value.selector == p.parseExpr(options.timeSeriesSelector).expr.text
      && Some(r.value.endpoint) == parseUrl(options.endpoint)
      && r.value.scrapeInterval == IntervalNanos(options.scrapeInterval)
  {
    var selector := p.parseExpr(options.timeSeriesSelector);
    if selector.failed then Failure(SelectorParseError)
    else if !selector.expr.VectorSelector? then Failure(SelectorNotVector)
    else match parseUrl(options.endpoint)
      case None => Failure(EndpointParseError)
      case Some(endpoint) =>
        Success(Config(IntervalNanos(options.scrapeInterval), selector.expr.text, endpoint))
  }

  class Scraper {
    const scrapeInterval: int
    const timeSeriesSelector: string
    const endpoint: Url
    const sampleChan: SampleChan

    ghost predicate Valid()
      reads this, sampleChan
    {
      sampleChan.Valid()
    }

    constructor (config: Config)
      ensures Valid() && fresh(sampleChan) && sampleChan.items == []
      ensures scrapeInterval == config.scrapeInterval
      ensures timeSeriesSelector == config.selector
      ensures endpoint == config.endpoint
    {
      scrapeInterval := config.scrapeInterval;
      timeSeriesSelector := config.selector;
      endpoint := config.endpoint;
      sampleChan := new SampleChan();
    }

    method ReadSample() returns (s: Sample)
      requires Valid() && |sampleChan.items| > 0
      modifies sampleChan
      ensures Valid()
      ensures s == old(sampleChan.items)[0] && sampleChan.items == old(sampleChan.items)[1..]
    {
      s := sampleChan.Read();
    }

    method WriteSample(value: real, now: Timestamp)
      requires Valid() && |sampleChan.items| < sampleChan.capacity
      modifies sampleChan
      ensures Valid()
      ensures sampleChan.items == old(sampleChan.items) + [Sample(now, value)]
    {
      sampleChan.Write(value, now);
    }

    method LenSamples() returns (n: uint8)
      requires Valid()
      ensures n as int == |sampleChan.items|
    {
      n := sampleChan.Len();
    }
  }

  /** New: validate the options and build a scraper with an empty queue. */
  method New(options: Options, p: Parser, parseUrl: string -> Option<Url>)
    returns (s: Scraper?, err: Option<ConfigError>)
    ensures match Configure(options, p, parseUrl)
      case Failure(e) => s == null && err == Some(e)
      case Success(c) =>
        && err == None && s != null && fresh(s) && fresh(s.sampleChan) && s.Valid()
        && s.scrapeInterval == c.scrapeInterval && s.timeSeriesSelector == c.selector
        && s.endpoint == c.endpoint && s.sampleChan.items == []
        && s.sampleChan.capacity == MinSampleCount
  {
    var timeSeriesSelector := p.parseExpr(options.timeSeriesSelector);
    if timeSeriesSelector.failed {
      return null, Some(SelectorParseError);
    }
    if !timeSeriesSelector.expr.VectorSelector? {
      return null, Some(SelectorNotVector);
    }
    var endpoint := parseUrl(options.endpoint);
    if endpoint.None? {
      return null, Some(EndpointParseError);
    }
    s := new Scraper(Config(IntervalNanos(options.scrapeInterval), timeSeriesSelector.expr.text, endpoint.value));
    err := None;
  }
}

/** `getPhysicalCpuCount` on Linux: a single pass over `/proc/cpuinfo`.
    The first `cpu cores : N` line answers N at once; otherwise the answer is
    the highest `core id` plus one, and when that is not positive, the
    highest `processor` index plus one (each maximum seeded with -1). */
module PhysicalCount {
  import opened Common
  import opened CText
  import opened Cpuinfo

  /** A `cpu cores` line with a ':' (a colon-less one is skipped). */
  predicate IsSummary(line: Line)
  {
    IsField(line, CpuCoresKey)
  }

  /** Index of the first summary line, if any. */
  function FirstSummary(lines: seq<Line>): (r: Option<nat>)
    ensures r.Some? ==> r.value < |lines| && IsSummary(lines[r.value])
    ensures r.Some? ==> forall j :: 0 <= j < r.value ==> !IsSummary(lines[j])
    ensures r.None? <==> forall j :: 0 <= j < |lines| ==> !IsSummary(lines[j])
  {
    if |lines| == 0 then None
    else if IsSummary(lines[0]) then Some(0)
    else match FirstSummary(lines[1..])
      case None =>
        assert forall j :: 1 <= j < |lines| ==> lines[j] == lines[1..][j - 1];
        None
      case Some(k) => Some(k + 1)
  }

  /** The lines the parser actually reads: up to the first summary line. */
  function ReadLines(lines: seq<Line>): seq<Line>
  {
    match FirstSummary(lines)
    case None => lines
    case Some(k) => lines[..k + 1]
  }

  /** Every `atoi` the parser evaluates, and every `+ 1` after it, stays in `int`. */
  predicate ValuesFit(lines: seq<Line>)
  {
    && CountsFit(ReadLines(lines), CoreIdKey)
    && CountsFit(ReadLines(lines), ProcessorKey)
    && (FirstSummary(lines).Some? ==> InInt(FieldValue(lines[FirstSummary(lines).value])))
  }

  /** The loop's variables: `cpuCount` (core-id maximum) and `processorCount`
      while scanning, or the summary value once it has returned. */
  datatype ScanState = Scanning(cores: int, processors: int) | Returned(summary: int)

  /** One iteration of the line loop (source/os.c:139-170). */
  function Step(cores: int, processors: int, line: Line): (st: ScanState)
    ensures st.Returned? <==> IsSummary(line)
    ensures st.Returned? ==> st.summary == FieldValue(line)
    ensures st.Scanning? ==> st.cores >= cores && st.processors >= processors
    ensures st.Scanning? && st.cores > cores ==> IsField(line, CoreIdKey) && st.cores == FieldValue(line) + 1
    ensures st.Scanning? && st.processors > processors ==> IsField(line, ProcessorKey) && st.processors == FieldValue(line) + 1
  {
    if StartsWith(line, CpuCoresKey) then
      if HasColon(line) then Returned(FieldValue(line)) else Scanning(cores, processors)
    else if StartsWith(line, ProcessorKey) && !HasColon(line) then
      Scanning(cores, processors)
    else
      var processors' := if IsField(line, ProcessorKey) && FieldValue(line) + 1 > processors
                         then FieldValue(line) + 1 else processors;
      if IsField(line, CoreIdKey) && FieldValue(line) + 1 > cores
      then Scanning(FieldValue(line) + 1, processors')
      else Scanning(cores, processors')
  }

  /** The line loop (source/os.c:137-171) from state `st`. */
  function Scan(st: ScanState, lines: seq<Line>): (r: ScanState)
    ensures st.Returned? ==> r == st
    ensures st.Scanning? && r.Scanning? ==> forall j :: 0 <= j < |lines| ==> !IsSummary(lines[j])
    ensures st.Scanning? && r.Returned? ==> exists j :: 0 <= j < |lines| && IsSummary(lines[j]) && r.summary == FieldValue(lines[j])
    decreases |lines|
  {
    if |lines| == 0 || st.Returned? then st
    else Scan(Step(st.cores, st.processors, lines[0]), lines[1..])
  }

  /** The scan computes, independently, the core-id and processor maxima, unless
      a summary line cuts it short. */
  lemma {:induction false} ScanComputesMaxima(cores: int, processors: int, lines: seq<Line>)
    ensures Scan(Scanning(cores, processors), lines) ==
      match FirstSummary(lines)
      case Some(k) => Returned(FieldValue(lines[k]))
      case None => Scanning(MaxCount(cores, lines, CoreIdKey), MaxCount(processors, lines, ProcessorKey))
    decreases |lines|
  {
    if |lines| > 0 {
      var line := lines[0];
      KeysExclusive(line);
      if !IsSummary(line) {
        var st := Step(cores, processors, line);
        assert st.Scanning?;
        ScanComputesMaxima(st.cores, st.processors, lines[1..]);
        match FirstSummary(lines[1..])
        case Some(k) => assert lines[1..][k] == lines[k + 1];
        case None =>
      }
    }
  }

  /** The Linux parse of a readable `/proc/cpuinfo`. */
  function PhysicalFromCpuinfo(lines: seq<Line>): (r: int)
    requires ValuesFit(lines)
    ensures FirstSummary(lines).Some? ==> r == FieldValue(lines[FirstSummary(lines).value])
    ensures FirstSummary(lines).None? ==>
      var cores := MaxCount(-1, lines, CoreIdKey);
      r == if cores > 0 then cores else MaxCount(-1, lines, ProcessorKey)
    ensures InInt(r)
  {
    ScanComputesMaxima(-1, -1, lines);
    match Scan(Scanning(-1, -1), lines)
    case Returned(v) => v
    case Scanning(cores, processors) => if cores <= 0 then processors else cores
  }

  /** `getPhysicalCpuCount` on Linux; `None` when the file cannot be opened,
      in which case both the core-id and processor counts keep their -1. */
  function PhysicalCpuCount(cpuinfo: Option<seq<Line>>): (r: int)
    requires cpuinfo.Some? ==> ValuesFit(cpuinfo.value)
    ensures cpuinfo.None? ==> r == -1
    ensures cpuinfo.Some? && FirstSummary(cpuinfo.value).Some? ==>
      r == FieldValue(cpuinfo.value[FirstSummary(cpuinfo.value).value])
    ensures cpuinfo.Some? && FirstSummary(cpuinfo.value).None? ==>
      var cores := MaxCount(-1, cpuinfo.value, CoreIdKey);
      r == if cores > 0 then cores else MaxCount(-1, cpuinfo.value, ProcessorKey)
  {
    match cpuinfo
    case None => -1
    case Some(lines) => PhysicalFromCpuinfo(lines)
  }

  /** A line no branch of the loop acts on. */
  predicate Ignored(line: Line)
  {
    !IsSummary(line) && !IsField(line, CoreIdKey) && !IsField(line, ProcessorKey)
  }

  lemma {:induction false} ScanSkipsIgnored(st: ScanState, pre: seq<Line>, line: Line, post: seq<Line>)
    requires Ignored(line)
    ensures Scan(st, pre + [line] + post) == Scan(st, pre + post)
    decreases |pre|
  {
    if st.Scanning? {
      if |pre| == 0 {
        assert (pre + [line] + post)[0] == line && (pre + [line] + post)[1..] == post;
        assert pre + post == post;
      } else {
        assert (pre + [line] + post)[0] == pre[0] == (pre + post)[0];
        assert (pre + [line] + post)[1..] == pre[1..] + [line] + post;
        assert (pre + post)[1..] == pre[1..] + post;
        ScanSkipsIgnored(Step(st.cores, st.processors, pre[0]), pre[1..], line, post);
      }
    }
  }

  /** Lines of other keys, and malformed (colon-less) `cpu cores`, `core id`
      or `processor` lines, are skipped without effect. */
  lemma IgnoredLineSkipped(pre: seq<Line>, line: Line, post: seq<Line>)
    requires Ignored(line)
    requires ValuesFit(pre + [line] + post) && ValuesFit(pre + post)
    ensures PhysicalFromCpuinfo(pre + [line] + post) == PhysicalFromCpuinfo(pre + post)
  {
    ScanSkipsIgnored(Scanning(-1, -1), pre, line, post);
    ScanComputesMaxima(-1, -1, pre + [line] + post);
    ScanComputesMaxima(-1, -1, pre + post);
  }

  /** The first summary line decides the answer; nothing after it is read. */
  lemma SummaryShortCircuits(pre: seq<Line>, summary: Line, rest: seq<Line>)
    requires forall j :: 0 <= j < |pre| ==> !IsSummary(pre[j])
    requires IsSummary(summary)
    requires ValuesFit(pre + [summary] + rest)
    ensures PhysicalFromCpuinfo(pre + [summary] + rest) == FieldValue(summary)
  {
    var lines := pre + [summary] + rest;
    assert lines[|pre|] == summary;
    assert forall j :: 0 <= j < |pre| ==> lines[j] == pre[j];
  }
}

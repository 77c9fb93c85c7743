/** `getLogicalCpuCount` on Linux: the online-processor count reported by
    `sysconf(_SC_NPROCESSORS_ONLN)`, and, when that is not positive, the
    highest `processor : N` index in `/proc/cpuinfo` plus one. */
module LogicalCount {
  import opened Common
  import opened CText
  import opened Cpuinfo

  /** `online` is the (int-cast) `sysconf` result; `cpuinfo` is the file's
      lines, or `None` when it cannot be opened. */
  function LogicalCpuCount(online: int, cpuinfo: Option<seq<Line>>): (r: int)
    requires online <= 0 && cpuinfo.Some? ==> CountsFit(cpuinfo.value, ProcessorKey)
    ensures online > 0 ==> r == online
    ensures online <= 0 && cpuinfo.None? ==> r == online
    ensures online <= 0 && cpuinfo.Some? ==> IsMaxCount(r, online, cpuinfo.value, ProcessorKey)
  {
    if online > 0 then online
    else match cpuinfo
      case None => online
      case Some(lines) => MaxCount(online, lines, ProcessorKey)
  }

  /** A cpuinfo line whose content is irrelevant to the logical count
      (another key, or a `processor` line without ':') may be dropped. */
  lemma OtherLinesIgnored(online: int, pre: seq<Line>, line: Line, post: seq<Line>)
    requires !IsField(line, ProcessorKey)
    requires online <= 0 ==> CountsFit(pre + [line] + post, ProcessorKey) && CountsFit(pre + post, ProcessorKey)
    ensures LogicalCpuCount(online, Some(pre + [line] + post)) == LogicalCpuCount(online, Some(pre + post))
  {
    if online <= 0 {
      MaxCountSkipsOtherLines(online, pre, line, post, ProcessorKey);
    }
  }

  function ProcessorLine(i: nat): (line: Line)
    requires i < 0x1_0000_0000
    ensures IsField(line, ProcessorKey) && FieldValue(line) == i
  {
    FieldLine(ProcessorKey, i)
  }

  /** The table `processor : 0` ... `processor : n-1`. */
  function ProcessorTable(n: nat): (lines: seq<Line>)
    requires n <= 0x1_0000_0000
    ensures |lines| == n && forall i :: 0 <= i < n ==> lines[i] == ProcessorLine(i)
  {
    if n == 0 then []
    else
      var prefix := ProcessorTable(n - 1);
      var lines := prefix + [ProcessorLine(n - 1)];
      assert forall i :: 0 <= i < n - 1 ==> lines[i] == prefix[i];
      lines
  }

  /** With no usable `sysconf` answer, a table listing processors 0 through
      n-1 gives exactly n logical CPUs. */
  lemma EnumeratedProcessorsCounted(online: int, n: nat)
    requires online <= 0 && 0 < n < IntMax
    ensures LogicalCpuCount(online, Some(ProcessorTable(n))) == n
  {
    var lines := ProcessorTable(n);
    var r := LogicalCpuCount(online, Some(lines));
    assert r >= FieldValue(lines[n - 1]) + 1;
  }

  /** The eight-processor table gives 8. */
  lemma EightProcessorsCounted(online: int)
    requires online <= 0
    ensures LogicalCpuCount(online, Some(ProcessorTable(8))) == 8
  {
    EnumeratedProcessorsCounted(online, 8);
  }
}

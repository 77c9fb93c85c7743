/** `getCpuName` on non-x86 Linux: the name buffer starts as "Unknown"; each
    `model name` or `Model` line with a ':' whose value ends (at '\n' or NUL)
    no later than byte 64 of the line overwrites it with the text from two
    bytes after the ':' up to that end; the first such line whose value ends
    later stops the scan, keeping whatever the buffer then holds. */
module CpuinfoBrand {
  import opened Common
  import opened CText
  import opened Cpuinfo

  const ModelNameKey: seq<char> := "model name"
  const ModelKey: seq<char> := "Model"
  const UnknownName: seq<char> := "Unknown"
  /** The last line position a copied value may end at (source/os.c:383). */
  const NameEndLimit: nat := 64

  /** The zeroed name buffer with "Unknown" and its terminator written at the
      front (source/os.c:344). */
  function InitialBuffer(): (buf: seq<char>)
    ensures |buf| == NameBufferSize && CString(buf) == UnknownName
  {
    var buf := UnknownName + Zeros(NameBufferSize - |UnknownName|);
    CStringOfTerminated(buf, UnknownName);
    buf
  }

  predicate IsValueEnd(c: char)
  {
    c == '\n' || c == '\0'
  }

  predicate IsModelLine(line: Line)
  {
    StartsWith(line, ModelNameKey) || StartsWith(line, ModelKey)
  }

  /** Where the value of a line with a ':' starts: two bytes past the ':'
      (source/os.c:372). */
  function ValueStart(line: Line): nat
    requires HasColon(line)
  {
    ColonIndex(line).value + 2
  }

  /** The search for the value's end (source/os.c:376-381): the first '\n' or
      NUL at or after `from`. A line is shorter than the buffer, so its
      terminator is always found. */
  function ValueEnd(line: Line, from: nat): (r: nat)
    requires from < LineBufferSize
    ensures from <= r < LineBufferSize && IsValueEnd(Buf(line, r))
    ensures forall j :: from <= j < r ==> !IsValueEnd(Buf(line, j))
    decreases LineBufferSize - from
  {
    if IsValueEnd(Buf(line, from)) then from
    else ValueEnd(line, from + 1)
  }

  /** What one line does to the scan. */
  datatype LineEffect = Skip | Copy(text: seq<char>) | Stop

  /** Some '\n' or NUL lies in the buffer between `start` and position 64. */
  predicate EndWithin(line: Line, start: nat)
  {
    exists i :: start <= i <= NameEndLimit && IsValueEnd(Buf(line, i))
  }

  /** What a model line whose value starts at `start`, inside the buffer,
      does: it copies when a '\n' or NUL occurs at some position up to 64,
      and stops the scan otherwise (source/os.c:376-388). A copy is the text
      from `start` up to its first end. */
  function ValueEffect(line: Line, start: nat): (e: LineEffect)
    requires start < LineBufferSize
    ensures !e.Skip?
    ensures e.Copy? <==> EndWithin(line, start)
    ensures e.Stop? <==> !EndWithin(line, start)
    ensures e.Copy? ==>
      && start + |e.text| <= NameEndLimit
      && (forall k :: 0 <= k < |e.text| ==> e.text[k] == Buf(line, start + k) && !IsValueEnd(e.text[k]))
      && IsValueEnd(Buf(line, start + |e.text|))
  {
    var i := ValueEnd(line, start);
    if i > NameEndLimit then
      assert forall j :: start <= j <= NameEndLimit ==> !IsValueEnd(Buf(line, j));
      Stop
    else
      var text := seq(i - start, k requires 0 <= k < i - start => Buf(line, start + k));
      assert start + |text| == i && IsValueEnd(Buf(line, i));
      Copy(text)
  }

  /** What one line does to the scan: lines other than model lines with a
      ':' whose value starts inside the buffer are skipped (source/os.c:362-374). */
  function Effect(line: Line): (e: LineEffect)
    ensures e.Skip? <==> !IsModelLine(line) || !HasColon(line) || ValueStart(line) >= LineBufferSize
    ensures e.Copy? <==>
      && IsModelLine(line) && HasColon(line) && ValueStart(line) < LineBufferSize
      && EndWithin(line, ValueStart(line))
    ensures e.Stop? <==>
      && IsModelLine(line) && HasColon(line) && ValueStart(line) < LineBufferSize
      && !EndWithin(line, ValueStart(line))
    ensures e.Copy? ==>
      var start := ValueStart(line);
      && start + |e.text| <= NameEndLimit
      && |e.text| <= NameEndLimit - 2
      && (forall k :: 0 <= k < |e.text| ==> e.text[k] == Buf(line, start + k) && !IsValueEnd(e.text[k]))
      && IsValueEnd(Buf(line, start + |e.text|))
  {
    if IsModelLine(line) && HasColon(line) && ValueStart(line) < LineBufferSize then
      var e := ValueEffect(line, ValueStart(line));
      assert e.Copy? ==> |e.text| <= NameEndLimit - 2;
      e
    else Skip
  }

  /** Copying a value and its terminator to the front of the name buffer
      (source/os.c:390-391). */
  function StoreName(buf: seq<char>, text: seq<char>): (r: seq<char>)
    requires |buf| == NameBufferSize && |text| < NameBufferSize
    requires forall k :: 0 <= k < |text| ==> text[k] != '\0'
    ensures |r| == NameBufferSize && CString(r) == text
  {
    var r := text + ['\0'] + buf[|text| + 1..];
    CStringOfTerminated(r, text);
    r
  }

  /** The line loop over the name buffer (source/os.c:360-394). */
  function ScanBrand(buf: seq<char>, lines: seq<Line>): (r: seq<char>)
    requires |buf| == NameBufferSize
    ensures |r| == NameBufferSize
    ensures (forall j :: 0 <= j < |lines| ==> !Effect(lines[j]).Copy?) ==> r == buf
    decreases |lines|
  {
    if |lines| == 0 then buf
    else match Effect(lines[0])
      case Skip => ScanBrand(buf, lines[1..])
      case Copy(text) => ScanBrand(StoreName(buf, text), lines[1..])
      case Stop => buf
  }

  /** Whether the line loop left through the early return taken when a model
      line's first '\n' or NUL lies past byte 64 (source/os.c:383-388) rather than by reaching the end of the file. */
  function ScanReturnedEarly(lines: seq<Line>): (early: bool)
    ensures early <==> exists j :: 0 <= j < |lines| && Effect(lines[j]).Stop?
    decreases |lines|
  {
    if |lines| == 0 then false
    else
      assert forall j :: 1 <= j < |lines| ==> lines[1..][j - 1] == lines[j];
      Effect(lines[0]).Stop? || ScanReturnedEarly(lines[1..])
  }

  /** An ordinary `model name` line copies its value. */
  lemma ModelNameLineCopies(line: Line)
    requires line == "model name\t: Foo\n"
    ensures Effect(line) == Copy("Foo")
  {
    assert line[..|ModelNameKey|] == ModelNameKey;
    assert line[11] == ':' && forall k :: 0 <= k < 11 ==> line[k] != ':';
    assert ValueStart(line) == 13;
    assert IsValueEnd(Buf(line, 16));
    assert !IsValueEnd(Buf(line, 13)) && !IsValueEnd(Buf(line, 14)) && !IsValueEnd(Buf(line, 15));
    var e := Effect(line);
    assert e.Copy?;
    assert |e.text| == 3;
    assert e.text == "Foo";
  }

  /** A `Model` line whose ':' lies past byte 62 and before byte 254 stops
      the scan, however short its value (a ':' at byte 254 or later is
      skipped instead, its value starting outside the buffer). */
  lemma LateColonStops(line: Line)
    requires line == "Model" + seq(95, _ => 'A') + ": X\n"
    ensures Effect(line) == Stop
  {
    assert line[..|ModelKey|] == ModelKey;
    assert line[100] == ':' && forall k :: 0 <= k < 100 ==> line[k] != ':';
    assert ValueStart(line) == 102;
  }

  /** A value of forty two-byte UTF-8 characters (e.g. 'é', bytes C3h A9h)
      is eighty bytes long, so its '\n' lies at byte 93, past 64: the line
      stops the scan although it holds only forty characters. */
  lemma MultiByteValueStops(line: Line)
    requires line == "model name\t: " + seq(80, k => if k % 2 == 0 then '\U{C3}' else '\U{A9}') + "\n"
    ensures Effect(line) == Stop
  {
    assert line[..|ModelNameKey|] == ModelNameKey;
    assert line[11] == ':' && forall k :: 0 <= k < 11 ==> line[k] != ':';
    assert ValueStart(line) == 13;
    assert forall j :: 13 <= j <= NameEndLimit ==> !IsValueEnd(Buf(line, j));
  }

  /** The name buffer after the cpuinfo branch: "Unknown" when the file cannot
      be opened. */
  function CpuinfoNameBuffer(cpuinfo: Option<seq<Line>>): (buf: seq<char>)
    ensures |buf| == NameBufferSize
    ensures cpuinfo.None? ==> CString(buf) == UnknownName
  {
    match cpuinfo
    case None => InitialBuffer()
    case Some(lines) => ScanBrand(InitialBuffer(), lines)
  }

  // ---- Reference description of the scan --------------------------------

  /** Index of the first line that stops the scan, or |lines|. */
  function FirstStop(lines: seq<Line>): (n: nat)
    ensures n <= |lines|
    ensures n < |lines| ==> Effect(lines[n]).Stop?
    ensures forall j :: 0 <= j < n ==> !Effect(lines[j]).Stop?
  {
    if |lines| == 0 then 0
    else if Effect(lines[0]).Stop? then 0
    else
      assert forall j :: 1 <= j < |lines| ==> lines[1..][j - 1] == lines[j];
      FirstStop(lines[1..]) + 1
  }

  /** Index of the last copying line among the first `n`. */
  function LastCopy(lines: seq<Line>, n: nat): (r: Option<nat>)
    requires n <= |lines|
    ensures r.Some? ==> r.value < n && Effect(lines[r.value]).Copy?
    ensures r.Some? ==> forall j :: r.value < j < n ==> !Effect(lines[j]).Copy?
    ensures r.None? ==> forall j :: 0 <= j < n ==> !Effect(lines[j]).Copy?
  {
    if n == 0 then None
    else if Effect(lines[n - 1]).Copy? then Some(n - 1)
    else LastCopy(lines, n - 1)
  }

  /** The name the scan leaves: the value of the last copying line before
      the first stopping line, or what the buffer held before the scan. */
  function ExpectedName(prior: seq<char>, lines: seq<Line>): seq<char>
  {
    match LastCopy(lines, FirstStop(lines))
    case None => prior
    case Some(j) => Effect(lines[j]).text
  }

  lemma {:induction false} ScanStops(buf: seq<char>, pre: seq<Line>, line: Line, post: seq<Line>)
    requires |buf| == NameBufferSize
    requires Effect(line).Stop?
    ensures ScanBrand(buf, pre + [line] + post) == ScanBrand(buf, pre)
    decreases |pre|
  {
    var lines := pre + [line] + post;
    if |pre| == 0 {
      assert lines[0] == line;
    } else {
      assert lines[0] == pre[0];
      assert lines[1..] == pre[1..] + [line] + post;
      match Effect(pre[0])
      case Skip => ScanStops(buf, pre[1..], line, post);
      case Copy(text) => ScanStops(StoreName(buf, text), pre[1..], line, post);
      case Stop =>
    }
  }

  /** Appending one line to a run with no stopping line applies that line's effect last. */
  lemma {:induction false} ScanSnoc(buf: seq<char>, pre: seq<Line>, line: Line)
    requires |buf| == NameBufferSize
    requires forall j :: 0 <= j < |pre| ==> !Effect(pre[j]).Stop?
    ensures ScanBrand(buf, pre + [line]) ==
      var before := ScanBrand(buf, pre);
      match Effect(line)
      case Copy(text) => StoreName(before, text)
      case _ => before
    decreases |pre|
  {
    var lines := pre + [line];
    if |pre| == 0 {
      assert lines[0] == line && lines[1..] == [];
    } else {
      assert lines[0] == pre[0];
      assert lines[1..] == pre[1..] + [line];
      assert !Effect(pre[0]).Stop?;
      assert forall j :: 0 <= j < |pre| - 1 ==> pre[1..][j] == pre[j + 1];
      match Effect(pre[0])
      case Skip => ScanSnoc(buf, pre[1..], line);
      case Copy(text) => ScanSnoc(StoreName(buf, text), pre[1..], line);
    }
  }

  /** Over a run without stopping lines the last copying line wins. */
  lemma {:induction false} ScanNoStop(buf: seq<char>, lines: seq<Line>)
    requires |buf| == NameBufferSize
    requires forall j :: 0 <= j < |lines| ==> !Effect(lines[j]).Stop?
    ensures CString(ScanBrand(buf, lines)) ==
      match LastCopy(lines, |lines|)
      case None => CString(buf)
      case Some(j) => Effect(lines[j]).text
    decreases |lines|
  {
    if |lines| > 0 {
      var pre := lines[..|lines| - 1];
      var line := lines[|lines| - 1];
      assert lines == pre + [line];
      assert forall j :: 0 <= j < |pre| ==> pre[j] == lines[j];
      ScanSnoc(buf, pre, line);
      ScanNoStop(buf, pre);
      if !Effect(line).Copy? {
        assert LastCopy(lines, |lines|) == LastCopy(lines, |pre|);
        assert forall n :: 0 <= n <= |pre| ==> LastCopy(lines, n) == LastCopy(pre, n) by {
          forall n | 0 <= n <= |pre|
            ensures LastCopy(lines, n) == LastCopy(pre, n)
          {
            LastCopyPrefix(lines, pre, n);
          }
        }
      }
    }
  }

  lemma {:induction false} LastCopyPrefix(lines: seq<Line>, pre: seq<Line>, n: nat)
    requires |pre| <= |lines| && pre == lines[..|pre|] && n <= |pre|
    ensures LastCopy(lines, n) == LastCopy(pre, n)
    decreases n
  {
    if n > 0 {
      var line := lines[n - 1];
      assert pre[n - 1] == line;
      LastCopyPrefix(lines, pre, n - 1);
      if Effect(line).Copy? {
        assert LastCopy(lines, n) == Some(n - 1) == LastCopy(pre, n);
      } else {
        assert LastCopy(lines, n) == LastCopy(lines, n - 1);
        assert LastCopy(pre, n) == LastCopy(pre, n - 1);
      }
    }
  }

  /** The scan's result, as a C string, is the reference description. */
  lemma BrandIsLastCopyBeforeStop(buf: seq<char>, lines: seq<Line>)
    requires |buf| == NameBufferSize
    ensures CString(ScanBrand(buf, lines)) == ExpectedName(CString(buf), lines)
  {
    var n := FirstStop(lines);
    var pre := lines[..n];
    assert ScanBrand(buf, lines) == ScanBrand(buf, pre) by {
      if n < |lines| {
        assert lines == pre + [lines[n]] + lines[n + 1..];
        ScanStops(buf, pre, lines[n], lines[n + 1..]);
      } else {
        assert lines == pre;
      }
    }
    assert forall j :: 0 <= j < |pre| ==> !Effect(pre[j]).Stop? by {
      assert forall j :: 0 <= j < |pre| ==> pre[j] == lines[j];
    }
    ScanNoStop(buf, pre);
    LastCopyPrefix(lines, pre, n);
    assert LastCopy(pre, |pre|) == LastCopy(lines, n);
  }

  /** With a readable file the name is that of the last copying line before the
      first stopping line, and "Unknown" when there is none. */
  lemma CpuinfoNameIsExpected(lines: seq<Line>)
    ensures CString(CpuinfoNameBuffer(Some(lines))) == ExpectedName(UnknownName, lines)
  {
    BrandIsLastCopyBeforeStop(InitialBuffer(), lines);
  }

  /** A model line whose first '\n' or NUL lies past byte 64 stops the scan:
      nothing from that line on has any effect. */
  lemma LateValueEndStopsScan(pre: seq<Line>, line: Line, post: seq<Line>)
    requires Effect(line).Stop?
    ensures CpuinfoNameBuffer(Some(pre + [line] + post)) == CpuinfoNameBuffer(Some(pre))
  {
    ScanStops(InitialBuffer(), pre, line, post);
  }

  /** A later copying line overwrites an earlier one. */
  lemma LaterModelLineWins(pre: seq<Line>, line: Line, post: seq<Line>)
    requires forall j :: 0 <= j < |pre| ==> !Effect(pre[j]).Stop?
    requires Effect(line).Copy?
    requires forall j :: 0 <= j < |post| ==> Effect(post[j]).Skip?
    ensures CString(CpuinfoNameBuffer(Some(pre + [line] + post))) == Effect(line).text
  {
    var lines := pre + [line] + post;
    assert lines[|pre|] == line;
    assert forall j :: |pre| < j < |lines| ==> lines[j] == post[j - |pre| - 1];
    assert forall j :: 0 <= j < |pre| ==> lines[j] == pre[j];
    CpuinfoNameIsExpected(lines);
  }
}

/** The `/proc/cpuinfo` table as the Linux parsers see it: a sequence of
    lines as read into the parsers' 256-byte line buffer, each `key : value`.
    A field line starts with its key and contains a ':'; lines without the
    delimiter are skipped by every parser. */
module Cpuinfo {
  import opened Common
  import opened CText

  /** Size of the line buffer each parser reads into (source/os.c:76, :129, :353). */
  const LineBufferSize: nat := 256

  /** One line as the reader hands it over, one `char` per byte of the file:
      at most 255 bytes, the last buffer byte being reserved for the
      terminator. A multi-byte character of the file is several `char`s here. */
  type Line = l: seq<Byte> | |l| < LineBufferSize

  const ProcessorKey: seq<char> := "processor"
  const CoreIdKey: seq<char> := "core id"
  const CpuCoresKey: seq<char> := "cpu cores"

  /** The three keys the core-count parsers test are mutually exclusive. */
  lemma KeysExclusive(line: Line)
    ensures StartsWith(line, ProcessorKey) ==> !StartsWith(line, CoreIdKey) && !StartsWith(line, CpuCoresKey)
    ensures StartsWith(line, CoreIdKey) ==> !StartsWith(line, CpuCoresKey)
  {
    if StartsWith(line, ProcessorKey) { assert line[0] == 'p'; }
    if StartsWith(line, CoreIdKey) { assert line[1] == 'o'; }
    if StartsWith(line, CpuCoresKey) { assert line[0] == 'c' && line[1] == 'p'; }
  }

  /** The shape of `key\t: digits\n`: a line of the buffer that starts
      with the key, whose first ':' follows the tab, and whose field value
      is read from " digits\n". */
  lemma FieldLineShape(key: seq<char>, digits: seq<char>)
    requires |key| <= 32 && forall k :: 0 <= k < |key| ==> IsByte(key[k]) && key[k] != ':'
    requires |digits| <= 10 && AllDigits(digits)
    ensures var line := key + "\t: " + digits + "\n";
      && |line| < LineBufferSize
      && (forall k :: 0 <= k < |line| ==> IsByte(line[k]))
      && StartsWith(line, key)
      && ColonIndex(line) == Some(|key| + 1)
      && Atoi(line[|key| + 2..]) == Atoi(" " + digits + "\n")
  {
    var line := key + "\t: " + digits + "\n";
    assert forall k :: 0 <= k < |line| ==> IsByte(line[k]);
    assert line[..|key|] == key;
    assert line[|key| + 1] == ':';
    assert forall k :: 0 <= k < |key| + 1 ==> line[k] != ':';
    assert line[|key| + 2..] == " " + digits + "\n";
  }

  /** The line `key\t: n` as the kernel writes it. */
  function FieldLine(key: seq<char>, n: nat): (line: Line)
    requires |key| <= 32 && (forall k :: 0 <= k < |key| ==> IsByte(key[k])) && forall k :: 0 <= k < |key| ==> key[k] != ':'
    requires n < 0x1_0000_0000
    ensures StartsWith(line, key) && HasColon(line) && FieldValue(line) == n
  {
    DecimalLength(n);
    var digits := Decimal(n);
    FieldLineShape(key, digits);
    AtoiOfDecimal(" ", false, n, "\n");
    assert " " + "" + digits + "\n" == " " + digits + "\n";
    key + "\t: " + digits + "\n"
  }

  /** A line that supplies a value for `key`. */
  predicate IsField(line: Line, key: seq<char>)
  {
    StartsWith(line, key) && HasColon(line)
  }

  /** `atoi` of the text after the line's first ':'. */
  function FieldValue(line: Line): int
    requires HasColon(line)
  {
    Atoi(line[ColonIndex(line).value + 1..])
  }

  /** Every `key` line's parsed value, plus one, is computed without signed overflow. */
  predicate CountsFit(lines: seq<Line>, key: seq<char>)
  {
    forall i :: 0 <= i < |lines| && IsField(lines[i], key) ==>
      IntMin <= FieldValue(lines[i]) && FieldValue(lines[i]) + 1 <= IntMax
  }

  /** `r` is the maximum of `seed` and of `value + 1` over the `key` lines. */
  predicate IsMaxCount(r: int, seed: int, lines: seq<Line>, key: seq<char>)
  {
    && r >= seed
    && (forall i :: 0 <= i < |lines| && IsField(lines[i], key) ==> r >= FieldValue(lines[i]) + 1)
    && (r == seed || exists i :: 0 <= i < |lines| && IsField(lines[i], key) && r == FieldValue(lines[i]) + 1)
  }

  /** The parsers' running maximum (source/os.c:83-95): each `key` line with
      a ':' proposes its parsed value plus one, and a larger proposal replaces
      the accumulator. */
  function MaxCount(acc: int, lines: seq<Line>, key: seq<char>): (r: int)
    ensures IsMaxCount(r, acc, lines, key)
    decreases |lines|
  {
    if |lines| == 0 then acc
    else
      var acc' := if IsField(lines[0], key) && FieldValue(lines[0]) + 1 > acc
                  then FieldValue(lines[0]) + 1 else acc;
      var r := MaxCount(acc', lines[1..], key);
      assert forall i :: 1 <= i < |lines| ==> lines[1..][i - 1] == lines[i];
      assert r != acc' ==> exists i :: 1 <= i < |lines| && IsField(lines[i], key) && r == FieldValue(lines[i]) + 1 by {
        if r != acc' {
          var j :| 0 <= j < |lines[1..]| && IsField(lines[1..][j], key) && r == FieldValue(lines[1..][j]) + 1;
          assert lines[1..][j] == lines[j + 1];
        }
      }
      r
  }

  /** A line that is not a `key` field (another key, or a `key` line without
      ':') leaves the running maximum unchanged. */
  lemma {:induction false} MaxCountSkipsOtherLines(acc: int, pre: seq<Line>, line: Line, post: seq<Line>, key: seq<char>)
    requires !IsField(line, key)
    ensures MaxCount(acc, pre + [line] + post, key) == MaxCount(acc, pre + post, key)
    decreases |pre|
  {
    if |pre| == 0 {
      assert (pre + [line] + post)[1..] == pre + post;
      assert (pre + [line] + post)[0] == line;
    } else {
      var acc' := if IsField(pre[0], key) && FieldValue(pre[0]) + 1 > acc
                  then FieldValue(pre[0]) + 1 else acc;
      assert (pre + [line] + post)[1..] == pre[1..] + [line] + post;
      assert (pre + post)[1..] == pre[1..] + post;
      assert (pre + [line] + post)[0] == pre[0] == (pre + post)[0];
      MaxCountSkipsOtherLines(acc', pre[1..], line, post, key);
    }
  }
}

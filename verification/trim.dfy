/** The post-processing of `getCpuName`: trailing spaces are cut by scanning
    backwards from the last byte down to byte 1 (byte 0 is never looked at)
    and ending the string just after the first non-space found; when every
    byte from 1 on is a space the length is left as it was. */
module BrandTrim {

  /** The backward scan of source/os.c:403-410 from position `i` down to
      position 1: the length it settles on. */
  function TrimmedLength(name: seq<char>, i: int): (n: nat)
    requires -1 <= i < |name|
    ensures || (n == |name| && forall j :: 1 <= j <= i ==> name[j] == ' ')
            || (2 <= n <= i + 1 && name[n - 1] != ' ' && forall j :: n <= j <= i ==> name[j] == ' ')
    decreases i
  {
    if i <= 0 then |name|
    else if name[i] != ' ' then i + 1
    else TrimmedLength(name, i - 1)
  }

  /** The trimmed name. */
  function TrimTrailingSpaces(name: seq<char>): (r: seq<char>)
    ensures |r| <= |name| && r == name[..|r|]
    ensures forall k :: |r| <= k < |name| ==> name[k] == ' '
    ensures |r| < |name| ==> |r| >= 2 && r[|r| - 1] != ' '
    ensures |r| == |name| ==> |name| <= 1 || name[|name| - 1] != ' ' || forall k :: 1 <= k < |name| ==> name[k] == ' '
    ensures |name| > 0 ==> |r| > 0
  {
    name[..TrimmedLength(name, |name| - 1)]
  }

  /** Trimming a trimmed name changes nothing. */
  lemma TrimIdempotent(name: seq<char>)
    ensures TrimTrailingSpaces(TrimTrailingSpaces(name)) == TrimTrailingSpaces(name)
  {
    var r := TrimTrailingSpaces(name);
    if |r| < |name| {
      assert TrimmedLength(r, |r| - 1) == |r|;
    }
  }

  /** Byte 0 is never examined: a single character followed by spaces is kept whole. */
  lemma FirstByteNeverExamined(c: char, spaces: nat)
    ensures TrimTrailingSpaces([c] + seq(spaces, _ => ' ')) == [c] + seq(spaces, _ => ' ')
  {
    var name := [c] + seq(spaces, _ => ' ');
    assert forall k :: 1 <= k < |name| ==> name[k] == ' ';
  }

  /** Trailing spaces after a later non-space are removed, and only they. */
  lemma TrailingSpacesRemoved(body: seq<char>, spaces: nat)
    requires |body| >= 2 && body[|body| - 1] != ' '
    ensures TrimTrailingSpaces(body + seq(spaces, _ => ' ')) == body
  {
    var name := body + seq(spaces, _ => ' ');
    assert name[|body| - 1] != ' ';
    assert forall k :: |body| <= k < |name| ==> name[k] == ' ';
    assert name[..|body|] == body;
  }
}

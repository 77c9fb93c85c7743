/** `getPhysicalCpuCount` and `getPerformanceCpuCount` on Windows: a walk over
    the buffer filled by `GetLogicalProcessorInformationEx` for processor cores,
    a packed list of variable-length `SYSTEM_LOGICAL_PROCESSOR_INFORMATION_EX`
    records, each starting with its own byte `Size`. The walk visits a record,
    advances by its size, and continues while the offset is below the reported
    size, so it always visits at least one record. */
module TopologyRecords {
  import opened Common

  /** `LOGICAL_PROCESSOR_RELATIONSHIP`. */
  datatype Relationship =
    | RelationProcessorCore
    | RelationNumaNode
    | RelationCache
    | RelationProcessorPackage
    | RelationGroup
    | RelationProcessorDie
    | RelationNumaNodeEx
    | RelationProcessorModule

  /** The fields of one record that the walks read: its byte size, its
      relationship, and `Processor.EfficiencyClass` (meaningful for cores). */
  datatype Record = Record(size: nat, relationship: Relationship, efficiencyClass: uint8)

  /** The buffer returned by the second API call, and the byte size it reported. */
  datatype TopologyBuffer = TopologyBuffer(records: seq<Record>, infoSize: nat)

  /** Total bytes of a run of records. */
  function SizeSum(rs: seq<Record>): nat
  {
    if |rs| == 0 then 0 else SizeSum(rs[..|rs| - 1]) + rs[|rs| - 1].size
  }

  /** What the walk needs of the buffer: at least one record (the do-while
      reads one before testing), every record advancing the offset (a zero
      `Size` would re-read the same record forever), and records covering
      the reported size. */
  predicate Walkable(b: TopologyBuffer)
  {
    && |b.records| >= 1
    && (forall i :: 0 <= i < |b.records| ==> b.records[i].size > 0)
    && SizeSum(b.records) >= b.infoSize
  }

  /** `k` records are visited: the least k >= 1 whose sizes reach `infoSize`. */
  predicate IsWalkLength(b: TopologyBuffer, k: nat)
  {
    && 1 <= k <= |b.records|
    && SizeSum(b.records[..k]) >= b.infoSize
    && forall j :: 1 <= j < k ==> SizeSum(b.records[..j]) < b.infoSize
  }

  lemma SizeSumStep(rs: seq<Record>, k: nat)
    requires k < |rs|
    ensures SizeSum(rs[..k + 1]) == SizeSum(rs[..k]) + rs[k].size
  {
    assert rs[..k + 1][..k] == rs[..k];
  }

  /** Prefix sums of positive sizes strictly increase. */
  lemma {:induction false} SizeSumGrows(rs: seq<Record>, j: nat, k: nat)
    requires j < k <= |rs|
    requires forall i :: 0 <= i < |rs| ==> rs[i].size > 0
    ensures SizeSum(rs[..j]) < SizeSum(rs[..k])
    decreases k - j
  {
    SizeSumStep(rs, k - 1);
    if j < k - 1 {
      SizeSumGrows(rs, j, k - 1);
    }
  }

  /** Records visited: the `cpuCount++` of the physical walk. */
  method PhysicalWalk(b: TopologyBuffer) returns (count: nat)
    requires Walkable(b)
    ensures IsWalkLength(b, count)
  {
    var rs := b.records;
    var offset: nat := 0;
    count := 0;
    SizeSumStep(rs, 0);
    offset := offset + rs[count].size;
    count := count + 1;
    while offset < b.infoSize
      invariant 1 <= count <= |rs|
      invariant offset == SizeSum(rs[..count])
      invariant forall j :: 1 <= j < count ==> SizeSum(rs[..j]) < b.infoSize
      decreases |rs| - count
    {
      assert rs[..|rs|] == rs;
      SizeSumStep(rs, count);
      offset := offset + rs[count].size;
      count := count + 1;
    }
  }

  /** The walk length is unique, so it is a function of the buffer. */
  lemma WalkLengthUnique(b: TopologyBuffer, k1: nat, k2: nat)
    requires IsWalkLength(b, k1) && IsWalkLength(b, k2)
    ensures k1 == k2
  {
  }

  /** The number of records the walk visits, searched from `k` upwards. */
  function WalkLengthFrom(b: TopologyBuffer, k: nat): (n: nat)
    requires Walkable(b) && 1 <= k <= |b.records|
    requires forall j :: 1 <= j < k ==> SizeSum(b.records[..j]) < b.infoSize
    ensures IsWalkLength(b, n)
    decreases |b.records| - k
  {
    if SizeSum(b.records[..k]) >= b.infoSize then k
    else
      assert k < |b.records| by { assert b.records[..|b.records|] == b.records; }
      WalkLengthFrom(b, k + 1)
  }

  function WalkLength(b: TopologyBuffer): (n: nat)
    requires Walkable(b)
    ensures IsWalkLength(b, n)
  {
    WalkLengthFrom(b, 1)
  }

  /** The do-while reads the first record before any test, so even a
      reported size of 0 visits one record. */
  lemma ZeroSizeVisitsOne(b: TopologyBuffer)
    requires Walkable(b) && b.infoSize == 0
    ensures WalkLength(b) == 1
  {
  }

  /** When the records fill exactly the reported size, as the API promises,
      every record is visited. */
  lemma ExactBufferVisitsAll(b: TopologyBuffer, k: nat)
    requires Walkable(b) && SizeSum(b.records) == b.infoSize
    requires IsWalkLength(b, k)
    ensures k == |b.records|
  {
    if k < |b.records| {
      assert b.records[..|b.records|] == b.records;
      SizeSumGrows(b.records, k, |b.records|);
    }
  }

  /** A visited record counted by the performance walk. */
  predicate IsPerformanceCore(r: Record)
  {
    r.relationship == RelationProcessorCore && r.efficiencyClass > 0
  }

  function PerformanceCores(rs: seq<Record>): (n: nat)
    ensures n <= |rs|
  {
    if |rs| == 0 then 0
    else PerformanceCores(rs[..|rs| - 1]) + (if IsPerformanceCore(rs[|rs| - 1]) then 1 else 0)
  }

  lemma PerformanceCoresStep(rs: seq<Record>, k: nat)
    requires k < |rs|
    ensures PerformanceCores(rs[..k + 1]) == PerformanceCores(rs[..k]) + (if IsPerformanceCore(rs[k]) then 1 else 0)
  {
    assert rs[..k + 1][..k] == rs[..k];
  }

  /** The performance walk: among the records the walk visits, those that
      are cores with `EfficiencyClass > 0`. */
  method PerformanceWalk(b: TopologyBuffer) returns (count: nat)
    requires Walkable(b)
    ensures count == PerformanceCores(b.records[..WalkLength(b)])
  {
    var rs := b.records;
    var offset: nat := 0;
    var visited: nat := 0;
    count := 0;
    SizeSumStep(rs, 0);
    PerformanceCoresStep(rs, 0);
    if IsPerformanceCore(rs[visited]) {
      count := count + 1;
    }
    offset := offset + rs[visited].size;
    visited := visited + 1;
    while offset < b.infoSize
      invariant 1 <= visited <= |rs|
      invariant offset == SizeSum(rs[..visited])
      invariant count == PerformanceCores(rs[..visited])
      invariant forall j :: 1 <= j < visited ==> SizeSum(rs[..j]) < b.infoSize
      decreases |rs| - visited
    {
      assert rs[..|rs|] == rs;
      SizeSumStep(rs, visited);
      PerformanceCoresStep(rs, visited);
      if IsPerformanceCore(rs[visited]) {
        count := count + 1;
      }
      offset := offset + rs[visited].size;
      visited := visited + 1;
    }
    WalkLengthUnique(b, visited, WalkLength(b));
  }

  /** `getPhysicalCpuCount` on Windows: -1 when either API call fails
      (`None`), otherwise the number of records visited. */
  method WindowsPhysicalCpuCount(query: Option<TopologyBuffer>) returns (r: int)
    requires query.Some? ==> Walkable(query.value)
    ensures query.None? ==> r == -1
    ensures query.Some? ==> r >= 1 && IsWalkLength(query.value, r)
  {
    match query {
      case None => r := -1;
      case Some(b) => r := PhysicalWalk(b);
    }
  }

  /** The fallback to the physical count (source/os.c:267-268), shared by
      every platform: `tier` is the platform's own answer. */
  function PerformanceFallback(tier: int, physical: int): (r: int)
    ensures r > 0 ==> r == tier || r == physical
    ensures tier > 0 <==> r == tier && r > 0
    ensures tier <= 0 ==> r == physical
  {
    if tier <= 0 then physical else tier
  }

  /** `getPerformanceCpuCount` on Windows: -1 when either API call fails,
      otherwise the performance-core count of the walk, falling back to
      `physical` (a fresh `getPhysicalCpuCount()`) when it is zero. */
  method WindowsPerformanceCpuCount(query: Option<TopologyBuffer>, physical: int) returns (r: int)
    requires query.Some? ==> Walkable(query.value)
    ensures query.None? ==> r == -1
    ensures query.Some? ==>
      var visited := WalkLength(query.value);
      var cores := PerformanceCores(query.value.records[..visited]);
      (cores > 0 ==> r == cores && r <= visited) && (cores == 0 ==> r == physical)
  {
    match query {
      case None => r := -1;
      case Some(b) =>
        var cores := PerformanceWalk(b);
        r := PerformanceFallback(cores, physical);
    }
  }

  /** When the fallback reads the same buffer, the performance count is
      positive and never exceeds the physical count. */
  method SameBufferPerformanceBounded(b: TopologyBuffer) returns (performance: int, physical: int)
    requires Walkable(b)
    ensures 1 <= performance <= physical
    ensures IsWalkLength(b, physical)
  {
    physical := WindowsPhysicalCpuCount(Some(b));
    performance := WindowsPerformanceCpuCount(Some(b), physical);
  }

  /** `getPerformanceCpuCount` on Linux: no classification is read yet, so
      the answer is always the physical count. */
  function LinuxPerformanceCpuCount(physical: int): (r: int)
    ensures r == physical
  {
    PerformanceFallback(-1, physical)
  }
}

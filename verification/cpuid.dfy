/** `getCpuName` on x86: the 48-byte processor brand string of the CPUID
    instruction (Intel SDM Vol. 2A, CPUID leaves 80000002h-80000004h),
    assembled into a zeroed 65-byte buffer. CPUID itself is an input: a
    function from leaf number to the four output registers. */
module CpuidBrand {
  import opened Common
  import opened CText

  /** The four output registers of one CPUID query, in the order the source
      stores them (source/os.c:328-329). */
  datatype Regs = Regs(eax: uint32, ebx: uint32, ecx: uint32, edx: uint32)

  type Cpuid = uint32 -> Regs

  /** Leaf 80000000h reports, in EAX, the highest extended leaf supported. */
  const ExtendedLeafBase: uint32 := 0x8000_0000
  const BrandLeafFirst: uint32 := 0x8000_0002
  const BrandLeafLast: uint32 := 0x8000_0004
  const BrandLength: nat := 48

  /** The four bytes of a register as they lie in memory (little endian). */
  function WordBytes(w: uint32): (s: seq<char>)
    ensures |s| == 4
  {
    var v := w as int;
    [(v % 0x100) as char, (v / 0x100 % 0x100) as char,
     (v / 0x1_0000 % 0x100) as char, (v / 0x100_0000) as char]
  }

  /** The 16 bytes one leaf contributes to the name buffer: the four registers
      in order (source/os.c:336-340). */
  function RegsBytes(r: Regs): (s: seq<char>)
    ensures |s| == 16
  {
    WordBytes(r.eax) + WordBytes(r.ebx) + WordBytes(r.ecx) + WordBytes(r.edx)
  }

  /** The 16 bytes leaf `leaf` contributes once every leaf up to `last` has
      been queried: its output if it was queried, the zeros of `calloc` if not. */
  function Block(last: int, cpuid: Cpuid, leaf: uint32): (s: seq<char>)
    ensures |s| == 16
  {
    if leaf as int <= last then RegsBytes(cpuid(leaf)) else Zeros(16)
  }

  /** Reference layout: the buffer once every extended leaf up to `last` has
      been queried. Leaves 80000002h, 80000003h and 80000004h own bytes
      0..15, 16..31 and 32..47; bytes 48..64 are never written. */
  function BrandBuffer(last: int, cpuid: Cpuid): (buf: seq<char>)
    ensures |buf| == NameBufferSize
  {
    Block(last, cpuid, 0x8000_0002) + Block(last, cpuid, 0x8000_0003) + Block(last, cpuid, 0x8000_0004)
      + Zeros(NameBufferSize - BrandLength)
  }

  /** One loop iteration's copy: leaves 80000002h, 80000003h, 80000004h go to
      offsets 0, 16, 32; every other leaf is queried and discarded. */
  function Deposit(buf: seq<char>, leaf: uint32, regs: Regs): (r: seq<char>)
    requires |buf| == NameBufferSize
    ensures |r| == NameBufferSize
    ensures BrandLeafFirst <= leaf <= BrandLeafLast ==>
      var offset := 16 * (leaf - BrandLeafFirst) as int;
      && r[offset..offset + 16] == RegsBytes(regs)
      && r[..offset] == buf[..offset]
      && r[offset + 16..] == buf[offset + 16..]
    ensures leaf < BrandLeafFirst || BrandLeafLast < leaf ==> r == buf
  {
    if leaf == 0x8000_0002 then RegsBytes(regs) + buf[16..]
    else if leaf == 0x8000_0003 then buf[..16] + RegsBytes(regs) + buf[32..]
    else if leaf == 0x8000_0004 then buf[..32] + RegsBytes(regs) + buf[48..]
    else buf
  }

  /** Querying leaf `i` after all earlier leaves extends the reference layout by one leaf. */
  lemma DepositExtends(i: uint32, cpuid: Cpuid)
    ensures Deposit(BrandBuffer(i as int - 1, cpuid), i, cpuid(i)) == BrandBuffer(i as int, cpuid)
  {
    var before := BrandBuffer(i as int - 1, cpuid);
    var b2, b3, b4 := Block(i as int - 1, cpuid, 0x8000_0002), Block(i as int - 1, cpuid, 0x8000_0003), Block(i as int - 1, cpuid, 0x8000_0004);
    var tail := Zeros(NameBufferSize - BrandLength);
    assert before == b2 + b3 + b4 + tail;
    assert before[16..] == b3 + b4 + tail;
    assert before[..16] == b2;
    assert before[32..] == b4 + tail;
    assert before[..32] == b2 + b3;
    assert before[48..] == tail;
    assert before[..48] == b2 + b3 + b4;
  }

  /** Leaves past 80000004h never change the layout. */
  lemma BrandBufferSaturates(last: int, cpuid: Cpuid)
    requires last >= BrandLeafLast as int
    ensures BrandBuffer(last, cpuid) == BrandBuffer(BrandLeafLast as int, cpuid)
  {
  }

  /** Before leaf 80000002h is queried the buffer is still all zero. */
  lemma BrandBufferEmpty(last: int, cpuid: Cpuid)
    requires last < BrandLeafFirst as int
    ensures BrandBuffer(last, cpuid) == Zeros(NameBufferSize)
  {
  }

  /** The reference layout block by block: each 16-byte block is its leaf's
      output exactly when that leaf is at most `last`, and bytes 48..64 stay
      zero, so the name is NUL-terminated inside the buffer (and empty when
      the brand leaves are not supported). */
  lemma BrandBufferLayout(last: int, cpuid: Cpuid)
    ensures var buf := BrandBuffer(last, cpuid);
      && buf[0..16] == (if 0x8000_0002 <= last then RegsBytes(cpuid(0x8000_0002)) else Zeros(16))
      && buf[16..32] == (if 0x8000_0003 <= last then RegsBytes(cpuid(0x8000_0003)) else Zeros(16))
      && buf[32..48] == (if 0x8000_0004 <= last then RegsBytes(cpuid(0x8000_0004)) else Zeros(16))
      && buf[BrandLength..] == Zeros(NameBufferSize - BrandLength)
    ensures |CString(BrandBuffer(last, cpuid))| <= BrandLength
    ensures last < BrandLeafFirst as int ==> CString(BrandBuffer(last, cpuid)) == []
  {
    var buf := BrandBuffer(last, cpuid);
    var b2, b3, b4 := Block(last, cpuid, 0x8000_0002), Block(last, cpuid, 0x8000_0003), Block(last, cpuid, 0x8000_0004);
    assert buf[0..16] == b2;
    assert buf[16..32] == b3;
    assert buf[32..48] == b4;
    assert buf[BrandLength] == '\0';
    if last < BrandLeafFirst as int {
      BrandBufferEmpty(last, cpuid);
    }
  }

  /** The name-assembly loop, iterating the extended leaves from 80000000h up
      to the reported maximum but no further than 80000004h (the last leaf
      that is copied; see the finding on the unbounded loop). */
  method AssembleBrand(cpuid: Cpuid) returns (buf: seq<char>)
    ensures buf == BrandBuffer(cpuid(ExtendedLeafBase).eax as int, cpuid)
  {
    var maxLeaf := cpuid(ExtendedLeafBase).eax;
    buf := Zeros(NameBufferSize);
    BrandBufferEmpty(ExtendedLeafBase as int - 1, cpuid);
    var i: uint32 := ExtendedLeafBase;
    while i <= maxLeaf && i <= BrandLeafLast
      invariant ExtendedLeafBase <= i <= BrandLeafLast + 1
      invariant i == ExtendedLeafBase || i as int - 1 <= maxLeaf as int
      invariant buf == BrandBuffer(i as int - 1, cpuid)
      decreases BrandLeafLast as int - i as int
    {
      DepositExtends(i, cpuid);
      buf := Deposit(buf, i, cpuid(i));
      i := i + 1;
    }
    if i > BrandLeafLast {
      BrandBufferSaturates(maxLeaf as int, cpuid);
    }
  }

  // ---- The loop as written -------------------------------------------------

  /** Increment of a 32-bit unsigned counter, wrapping to 0. */
  function Increment(i: uint32): uint32
  {
    if i == UintMax then 0 else i + 1
  }

  /** The leaf loop as written (source/os.c:332-341): a 32-bit counter that
      runs from 80000000h while it does not exceed the reported maximum, run
      for at most `fuel` iterations; `None` when the fuel runs out first. */
  function AsWrittenLoop(maxLeaf: uint32, i: uint32, cpuid: Cpuid, buf: seq<char>, fuel: nat): (r: Option<seq<char>>)
    requires |buf| == NameBufferSize
    ensures r.Some? ==> |r.value| == NameBufferSize
    ensures r.None? ==> i <= maxLeaf
    decreases fuel
  {
    if i > maxLeaf then Some(buf)
    else if fuel == 0 then None
    else AsWrittenLoop(maxLeaf, Increment(i), cpuid, Deposit(buf, i, cpuid(i)), fuel - 1)
  }

  /** When 80000000h reports FFFFFFFFh, the loop guard holds for every
      32-bit counter value: the loop never exits, whatever the iteration budget. */
  lemma {:induction false} AsWrittenLoopNeverExits(i: uint32, cpuid: Cpuid, buf: seq<char>, fuel: nat)
    requires |buf| == NameBufferSize
    ensures AsWrittenLoop(UintMax, i, cpuid, buf, fuel) == None
    decreases fuel
  {
    if fuel > 0 {
      AsWrittenLoopNeverExits(Increment(i), cpuid, Deposit(buf, i, cpuid(i)), fuel - 1);
    }
  }

  lemma {:induction false} AsWrittenLoopFrom(maxLeaf: uint32, i: uint32, cpuid: Cpuid, fuel: nat)
    requires maxLeaf < UintMax
    requires ExtendedLeafBase <= i && i as int <= maxLeaf as int + 1
    requires fuel > maxLeaf as int - i as int
    ensures AsWrittenLoop(maxLeaf, i, cpuid, BrandBuffer(i as int - 1, cpuid), fuel) == Some(BrandBuffer(maxLeaf as int, cpuid))
    decreases maxLeaf as int + 1 - i as int
  {
    if i <= maxLeaf {
      DepositExtends(i, cpuid);
      AsWrittenLoopFrom(maxLeaf, i + 1, cpuid, fuel - 1);
    }
  }

  /** For every other reported maximum the loop as written terminates and
      yields the same buffer as `AssembleBrand`. */
  lemma AsWrittenLoopAgrees(cpuid: Cpuid)
    requires cpuid(ExtendedLeafBase).eax < UintMax
    ensures AsWrittenLoop(cpuid(ExtendedLeafBase).eax, ExtendedLeafBase, cpuid, Zeros(NameBufferSize), 0x8000_0000)
         == Some(BrandBuffer(cpuid(ExtendedLeafBase).eax as int, cpuid))
  {
    var maxLeaf := cpuid(ExtendedLeafBase).eax;
    BrandBufferEmpty(ExtendedLeafBase as int - 1, cpuid);
    if maxLeaf >= ExtendedLeafBase {
      AsWrittenLoopFrom(maxLeaf, ExtendedLeafBase, cpuid, 0x8000_0000);
    } else {
      BrandBufferEmpty(maxLeaf as int, cpuid);
    }
  }
}

/** `getCpuName`: one of the two brand sources fills the 65-byte buffer, and
    the C string it holds is trimmed of trailing spaces, except when the
    cpuinfo scan returns early because a model line's first '\n' or NUL
    lies past byte 64: that return
    (source/os.c:383-388) hands the buffer back untrimmed. */
module CpuNameQuery {
  import opened Common
  import opened CText
  import opened Cpuinfo
  import opened CpuidBrand
  import opened CpuinfoBrand
  import opened BrandTrim

  /** The brand source the build selects (source/os.c:327, :342-350), with its
      input: the CPUID instruction on x86, otherwise the lines of
      `/proc/cpuinfo` (`None` when the file cannot be opened). */
  datatype NameSource = X86(cpuid: Cpuid) | LinuxCpuinfo(cpuinfo: Option<seq<Line>>)

  method CpuName(src: NameSource) returns (name: seq<char>)
    ensures |name| < NameBufferSize
    ensures forall k :: 0 <= k < |name| ==> name[k] != '\0'
    ensures src.X86? ==> |name| <= BrandLength
    ensures src.X86? ==>
      name == TrimTrailingSpaces(CString(BrandBuffer(src.cpuid(ExtendedLeafBase).eax as int, src.cpuid)))
    ensures src.X86? && src.cpuid(ExtendedLeafBase).eax < BrandLeafFirst ==> name == []
    ensures src.LinuxCpuinfo? && src.cpuinfo.None? ==> name == UnknownName
    ensures src.LinuxCpuinfo? && src.cpuinfo.Some? && FirstStop(src.cpuinfo.value) == |src.cpuinfo.value| ==>
      name == TrimTrailingSpaces(ExpectedName(UnknownName, src.cpuinfo.value))
    ensures src.LinuxCpuinfo? && src.cpuinfo.Some? && FirstStop(src.cpuinfo.value) < |src.cpuinfo.value| ==>
      name == ExpectedName(UnknownName, src.cpuinfo.value)
  {
    var buf: seq<char>;
    var returnedEarly := false;
    match src {
      case X86(cpuid) =>
        buf := AssembleBrand(cpuid);
        BrandBufferLayout(cpuid(ExtendedLeafBase).eax as int, cpuid);
      case LinuxCpuinfo(cpuinfo) =>
        buf := CpuinfoNameBuffer(cpuinfo);
        if cpuinfo.Some? {
          CpuinfoNameIsExpected(cpuinfo.value);
          returnedEarly := ScanReturnedEarly(cpuinfo.value);
        }
    }
    var text := CString(buf);
    if returnedEarly {
      name := text;
    } else {
      name := TrimTrailingSpaces(text);
    }
    assert UnknownName[|UnknownName| - 1] != ' ';
  }
}

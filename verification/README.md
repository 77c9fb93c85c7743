# mpio host introspection — a Dafny model of the CPU parsers

This project models the decision logic of `source/os.c` in the mpio library:
the parts of the CPU topology and CPU identification queries that do more
than forward a single OS call. Every operation is a pure function (or a
method with a loop) whose inputs are what the operating system would have
supplied:

- `/proc/cpuinfo` as a sequence of lines, each as `fgets(buffer, 256, file)`
  returns it (`Cpuinfo.Line`, a sequence of at most 255 `char`s that may end
  in `'\n'`). Each `char` stands for one byte of the file (`CText.Byte`,
  values below 256), so a multi-byte UTF-8 character is several `char`s and
  every offset the parsers test is a byte offset;
- the `GetLogicalProcessorInformationEx` buffer as a sequence of
  variable-length records with the byte size the call reported
  (`TopologyRecords.TopologyBuffer`);
- the CPUID instruction as a function from leaf number to the four output
  registers (`CpuidBrand.Cpuid`);
- the `sysconf(_SC_NPROCESSORS_ONLN)` answer and the fallback
  `getPhysicalCpuCount()` result as plain integers.

Modules, leaf first:

| module | file | models |
|---|---|---|
| `Common` | common.dfy | `Option`, the C widths `uint8`, `uint32`, 32-bit `int` range |
| `CText` | ctext.dfy | `memcmp` prefix test, `memchr` for ':', the NUL-terminated view of a buffer, `atoi` |
| `Cpuinfo` | cpuinfo.dfy | `key : value` lines (shorter than the 256-byte line buffer) and the running maximum of parsed value + 1 that the parsers share |
| `LogicalCount` | logical.dfy | `getLogicalCpuCount` on Linux |
| `PhysicalCount` | physical.dfy | `getPhysicalCpuCount` on Linux |
| `TopologyRecords` | records.dfy | the Windows record walks of `getPhysicalCpuCount` / `getPerformanceCpuCount`, and the performance fallback |
| `CpuidBrand` | cpuid.dfy | the x86 brand-string assembly of `getCpuName` (CPUID leaves 80000002h–80000004h, Intel SDM Vol. 2A) |
| `CpuinfoBrand` | cpuinfo_brand.dfy | the `/proc/cpuinfo` brand extraction of `getCpuName` |
| `BrandTrim` | trim.dfy | the trailing-space trim of `getCpuName` |
| `CpuNameQuery` | cpuname.dfy | `getCpuName` as a whole |

Modelling decisions:

- The ':' search is per line. The source searches the whole 256-byte
  buffer. That could find a stale ':' left behind
  by an earlier, longer line. The model does not follow that.
- Where the brand scan reads past a line's NUL terminator, the byte is
  taken to be NUL. This happens only when ':' is the last byte of a final
  line with no newline.
- `atoi` is modelled with its mathematical value. Every parser requires
  that the values it converts, and the `+ 1` after them, fit in a 32-bit
  `int`: signed overflow is undefined behaviour in C.
- At source/os.c:176-177, `getPhysicalCpuCount` reads `processorCount`
  outside the `if (file)` block that declares it. As written this does not
  compile. The model follows the evident intent: with no readable file,
  both counts keep their initial -1, so the result is -1.
- The record walk requires every record size to be positive. A zero
  `Size` would make the do-while loop re-read the same record forever.
  It also requires at least one record, and records that cover the
  reported size.
- Performance cores are counted as the source does it: core records with
  `EfficiencyClass > 0`. This is not "above the minimum observed class".
- The trim never looks at byte 0, so `"X   "` is returned unchanged and a
  name can keep trailing spaces. This is modelled as written.
- An empty brand is a possible result. This happens on x86 without the
  brand leaves, or when a cpuinfo value is empty. tests/test_os.c:81
  treats an empty name as invalid. The model keeps the empty result that
  the code returns and does not turn it into a failure.

## Model

| member | source | states |
|---|---|---|
| `CText.StartsWithIsMemcmp` | source/os.c:85-86 | the key test is `memcmp` of the key against the start of the line buffer: for a key without NUL it holds exactly when each buffer byte up to the key length (NUL past the line) equals the key byte, which is exactly when the line is at least as long as the key and starts with it |
| `CText.ColonIndex` | source/os.c:88-90 | the delimiter search finds the first ':' of the line, or reports that the line has none |
| `CText.CString` | source/os.c:402 | `strlen`: the string is the longest NUL-free prefix of the buffer, ending at its first NUL |
| `CText.Atoi` | source/os.c:92 | `atoi`: leading white space, an optional sign, the maximal digit run; a text with no digit at all gives 0; `CText.AtoiOfDecimal` pins it as the inverse of decimal formatting |
| `CText.AtoiOfDecimal` | source/os.c:92 | `atoi` skips leading white space, takes an optional '-' and the maximal digit run: it recovers n from any padded `%d` rendering of n followed by a non-digit |
| `Cpuinfo.FieldValue` | source/os.c:88-92 | a field line's value is `atoi` of the text after its first ':'; `Cpuinfo.FieldLine` shows it recovers n from the kernel's `key\t: n` line |
| `Cpuinfo.FieldLine` | source/os.c:85-92 | a `key\t: n` line passes the key and colon tests and its parsed value is n |
| `Cpuinfo.MaxCount` | source/os.c:83-95 | the running maximum is the largest of the seed and `value + 1` over the lines that start with the key and contain ':' |
| `Cpuinfo.MaxCountSkipsOtherLines` | source/os.c:85-90 | a line of another key, or a key line without ':', leaves the running maximum unchanged |
| `LogicalCount.LogicalCpuCount` | source/os.c:67-99 | a positive `sysconf` answer is returned as is, and the file is then not read (so nothing is required of it); with no file the non-positive answer is returned; otherwise the result is the maximum of that answer and every `processor` index + 1 |
| `LogicalCount.OtherLinesIgnored` | source/os.c:85-90 | removing a non-`processor` or colon-less line from the table does not change the logical count |
| `LogicalCount.EnumeratedProcessorsCounted` | source/os.c:83-95 | a table listing `processor : 0` to `processor : n-1`, with a non-positive `sysconf` answer, gives exactly n |
| `LogicalCount.EightProcessorsCounted` | source/os.c:83-95 | `processor : 0` to `processor : 7` give 8 |
| `PhysicalCount.FirstSummary` | source/os.c:139-149 | finds the first `cpu cores` line that has a ':'; no earlier line is one |
| `PhysicalCount.Step` | source/os.c:139-170 | one iteration: it returns exactly on a summary line, with that line's value; otherwise the core-id and processor maxima only grow, each only to the value + 1 of a line of its own key |
| `PhysicalCount.Scan` | source/os.c:137-171 | the line loop: it ends still scanning only when no line is a summary line, and otherwise returns some summary line's value; `PhysicalCount.ScanComputesMaxima` equates it with the two independent maxima |
| `PhysicalCount.ScanComputesMaxima` | source/os.c:136-171 | the loop tracks the `core id` maximum and the `processor` maximum independently, unless a summary line returns first |
| `PhysicalCount.PhysicalFromCpuinfo` | source/os.c:136-177 | the first summary line's value is the result; without one the result is `max(core id) + 1` when positive, else `max(processor) + 1`, and -1 when neither key occurs |
| `PhysicalCount.PhysicalCpuCount` | source/os.c:124-177 | -1 when the file cannot be opened, otherwise the parse above |
| `PhysicalCount.IgnoredLineSkipped` | source/os.c:139-166 | lines of other keys, and colon-less `cpu cores`, `core id` or `processor` lines, have no effect (malformed rows are skipped, not fatal) |
| `PhysicalCount.SummaryShortCircuits` | source/os.c:139-149 | once the first summary line is read nothing after it has any effect |
| `TopologyRecords.WalkLength` | source/os.c:206-216 | the walk visits the least k >= 1 records whose sizes reach the reported size |
| `TopologyRecords.PhysicalWalk` | source/os.c:206-216 | the do-while walk terminates and counts exactly that least k |
| `TopologyRecords.ZeroSizeVisitsOne` | source/os.c:209-216 | a reported size of 0 still visits, and counts, one record |
| `TopologyRecords.ExactBufferVisitsAll` | source/os.c:206-216 | when the records fill exactly the reported size, every record is visited |
| `TopologyRecords.PerformanceWalk` | source/os.c:247-260 | the walk counts the visited records that are processor cores with `EfficiencyClass > 0` |
| `TopologyRecords.WindowsPhysicalCpuCount` | source/os.c:188-220 | -1 when an API call fails, otherwise the number of records visited (at least 1) |
| `TopologyRecords.PerformanceFallback` | source/os.c:267-268 | a positive platform answer is kept; a non-positive one is replaced by the physical count |
| `TopologyRecords.WindowsPerformanceCpuCount` | source/os.c:229-269 | -1 when an API call fails; otherwise the performance-core count when positive (never above the records visited), else the physical count |
| `TopologyRecords.SameBufferPerformanceBounded` | source/os.c:247-268 | with the fallback reading the same buffer, 1 <= performance <= physical |
| `TopologyRecords.LinuxPerformanceCpuCount` | source/os.c:225-268 | on Linux the performance count is always the physical count |
| `CpuidBrand.Deposit` | source/os.c:334-340 | one iteration's copy: a brand leaf's 16 register bytes land at offset 16·(leaf − 80000002h) and the rest of the buffer is unchanged; any other leaf changes nothing |
| `CpuidBrand.DepositExtends` | source/os.c:332-340 | querying leaf i after all earlier leaves copies its 16 bytes to its own block and nothing else |
| `CpuidBrand.BrandBufferLayout` | source/os.c:323-341 | block b (offset 16·b) holds leaf 80000002h+b's registers exactly when that leaf is at most the reported maximum; bytes 48..64 stay zero, so the name is NUL-terminated within the buffer and empty when the maximum is below 80000002h |
| `CpuidBrand.AssembleBrand` | source/os.c:327-341 | the leaf loop, with the maximum read from leaf 80000000h's EAX, builds exactly that layout |
| `CpuidBrand.AsWrittenLoop` | source/os.c:332-341 | the loop as written, run for a bounded number of iterations: it can run out of iterations only while the counter has not passed the maximum; `AsWrittenLoopNeverExits` and `AsWrittenLoopAgrees` pin its behaviour |
| `CpuidBrand.AsWrittenLoopNeverExits` | source/os.c:331-332 | with a reported maximum of FFFFFFFFh the 32-bit loop counter never exceeds it, so the loop as written never ends |
| `CpuidBrand.AsWrittenLoopAgrees` | source/os.c:331-341 | for every other maximum the loop as written ends with the same buffer as the bounded loop |
| `CpuinfoBrand.InitialBuffer` | source/os.c:344 | the buffer starts holding "Unknown" |
| `CpuinfoBrand.ValueEnd` | source/os.c:376-381 | finds the first '\n' or NUL at or after the start of the value; one always exists inside the 256-byte line buffer |
| `CpuinfoBrand.Effect` | source/os.c:362-393 | a line is skipped exactly when it is not a `model name`/`Model` line, has no ':', or its value would start at byte 256 or later; otherwise it copies exactly when a '\n' or NUL occurs at some position from the value start up to 64, and stops the scan exactly when none does; a copy is the text from two past the ':' up to the first '\n'/NUL, ends by position 64, so is at most 62 bytes, and contains neither |
| `CpuinfoBrand.StoreName` | source/os.c:390-391 | the copy plus terminator stays inside the 65-byte buffer and leaves exactly the copied text as its string |
| `CpuinfoBrand.ScanBrand` | source/os.c:360-394 | the line loop over the name buffer; when no line copies, the buffer is unchanged; `CpuinfoBrand.BrandIsLastCopyBeforeStop` pins its result |
| `CpuinfoBrand.BrandIsLastCopyBeforeStop` | source/os.c:360-394 | the scan leaves the text of the last copying line before the first stopping line, or the prior contents when there is none |
| `CpuinfoBrand.ModelNameLineCopies` | source/os.c:368-392 | the line `model name\t: Foo\n` copies "Foo" |
| `CpuinfoBrand.LateColonStops` | source/os.c:372-388 | a `Model` line whose ':' is at byte 100 stops the scan even though its value is one character long: the end index, not the value length, is what is tested |
| `CpuinfoBrand.MultiByteValueStops` | source/os.c:376-388 | a `model name` value of forty two-byte UTF-8 characters, given as its eighty bytes, stops the scan: the end test counts bytes, not characters |
| `CpuinfoBrand.ScanReturnedEarly` | source/os.c:383-388 | the loop leaves through the early return exactly when some model line's first '\n' or NUL lies past byte 64 (so the scan stops) |
| `CpuinfoBrand.CpuinfoNameBuffer` | source/os.c:344-398 | with no readable file the name is "Unknown" |
| `CpuinfoBrand.CpuinfoNameIsExpected` | source/os.c:344-398 | with a readable file the name is that of the last copying line before the first stopping line, else "Unknown" |
| `CpuinfoBrand.LateValueEndStopsScan` | source/os.c:383-388 | a model line whose first '\n' or NUL lies past byte 64 ends the scan: the lines from it on have no effect |
| `CpuinfoBrand.LaterModelLineWins` | source/os.c:390-392 | a later copying line overwrites an earlier one |
| `BrandTrim.TrimmedLength` | source/os.c:403-410 | the backward loop stops just after the last non-space at index >= 1, or keeps the full length when there is none |
| `BrandTrim.TrimTrailingSpaces` | source/os.c:402-411 | the result is a prefix of the input that drops only spaces; it is the input itself or ends in a non-space with length >= 2; a non-empty input gives a non-empty result |
| `BrandTrim.TrimIdempotent` | source/os.c:402-411 | trimming twice equals trimming once |
| `BrandTrim.FirstByteNeverExamined` | source/os.c:403 | a single character followed by spaces (such as "X   ") comes back unchanged |
| `BrandTrim.TrailingSpacesRemoved` | source/os.c:402-411 | spaces after a non-space at index >= 1 are all removed, and nothing else is |
| `CpuNameQuery.CpuName` | source/os.c:321-411 | the result has no NUL and is shorter than the buffer; on x86 it is the trimmed CPUID layout (empty without brand leaves, at most 48 bytes); on cpuinfo it is "Unknown" with no file, the expected name untrimmed when a model line whose first '\n' or NUL lies past byte 64 made the scan return early, and the trimmed expected name otherwise |

## Left out

- `getCurrentClock` (source/os.c:48-63): floating-point arithmetic over the OS monotonic timer, and `abort()`.
- The macOS branches (`sysctlbyname` for logical, physical and performance counts and the brand string, source/os.c:100-113, 178-186, 263-265, 346-348): each is a single OS read. The performance fallback after the read is modelled as `TopologyRecords.PerformanceFallback`.
- The Windows `GetSystemInfo` logical count (source/os.c:114-117): a single OS read.
- The `GetLogicalProcessorInformationEx` size query, the allocation and `GetLastError` (source/os.c:188-204, 229-245): these are foreign calls. Their failure is the `None` input of the Windows functions.
- The conversion of `sysconf`'s `long` to `int` (source/os.c:69): `online` is taken as already converted.
- File opening and reading: the file is the already-split sequence of lines, or `None` when `fopen` fails. A line longer than 255 bytes, which the reader would split, is outside the model's `Line` type. The stale-byte behaviour of the whole-buffer ':' search is not modelled (see above).
- Allocation failures: `malloc`/`calloc`/`realloc` returning NULL (source/os.c:76-81, 129-134, 323-325, 353-358, 413-418), and the line buffers that are not freed: the logical path never frees its buffer, and the physical path frees it on the `cpu cores` return (source/os.c:146) but not when the loop reaches the end of the file (source/os.c:173).
- `getTotalRamSize` and `getFreeRamSize` (source/os.c:272-319): one OS call and a multiplication each. The macOS free-RAM path divides by 1024³ (source/os.c:310-311), although include/mpio/os.h:58 documents the result as bytes. This is not modelled.
- Any ordering between logical, physical and performance counts: the code does not enforce one.
- The directory and file helpers (source/directory.c, include/mpio/directory.h, include/mpio/file.h, wrappers/cpp/mpio/directory.hpp): thin wrappers over single OS calls.
- wrappers/cpp/mpio/os.hpp:44,52 call `getCpuCount` and `getRamSize`, and tests/test_os.c:39 calls `getCpuCount`. source/os.c defines neither function, so there is nothing to model.
- `CpuidBrand.AsWrittenLoop` bounds the as-written loop by a fuel count, because that loop does not terminate for one input. `AsWrittenLoopAgrees` gives it 2^31 iterations, which is more than any terminating run needs.
- `PhysicalCount.PhysicalCpuCount`: requires the `atoi` results on the lines read before the first summary line to fit in `int`, because the source's overflow is undefined.

## Findings

| source | as written | input that shows it | evidently intended | confidence | as-written member | corrected member |
|---|---|---|---|---|---|---|
| source/os.c:331-332 | the leaf loop counts with a 32-bit unsigned `i` from 80000000h while `i <= nExIds`, where `nExIds` is the maximum leaf reported by CPUID 80000000h | EAX = FFFFFFFFh from leaf 80000000h: every 32-bit `i` satisfies `i <= nExIds`, and `++i` wraps to 0, so the loop never exits | the loop ends after the last brand leaf, 80000004h, which is the last leaf it copies | low, not executed | `CpuidBrand.AsWrittenLoopNeverExits` | `CpuidBrand.AssembleBrand` |

# Verified model of the station firmware's algorithms

The repository is firmware for an STM32F103 measuring station. Besides vendor headers and drivers it contains a
number of self-contained algorithms. This project models the hardest of them in Dafny and proves what they achieve.
`dafny verify dfyconfig.toml` checks everything.

| files | what they model |
|---|---|
| `Lfsr.dfy`, `LfsrPeriod.dfy` | the 32-bit Galois shift register of the disk checker: linearity, injectivity, observability, and its full period of 2^32 - 1 |
| `DiskChecker.dfy`, `DiskSeeds.dfy`, `DiskVerdicts.dfy`, `DiskDiagnosis.dfy` | `test_diskio`: the checker as a program over an arbitrary driver, its seed counter, its verdicts on honest, wrapping and lossy disks, and what each exit code says about the last call |
| `FatVolume.dfy`, `FatDriver.dfy` | the cluster layer of FatFs (`get_fat`, `put_fat`, `create_chain`, `remove_chain`, `f_lseek`, `f_truncate`) and `allocate_contiguous_clusters`, as functions and as classes over a mutable table |
| `Contiguous.dfy`, `ContiguousProofs.dfy`, `StrandedFiles.dfy`, `AllocatorErrors.dfy`, `SeekProofs.dfy` | what the contiguous allocator achieves, when its success does not mean that the file is contiguous, what it does on damaged tables, and where seeking takes a file |
| `DirectoryTree.dfy`, `DirectoryProofs.dfy`, `EmptyDirectory.dfy`, `DirectoryFaults.dfy` | `empty_directory` over a directory tree, with its single path buffer, and what a failing call does to it |
| `CodePages.dfy` | the double-byte and single-byte code page converters, over arbitrary tables |
| `Words.dfy`, `Clock.dfy`, `ClockDriver.dfy`, `ClockNumbers.dfy` | clock tree bring-up and recomputation of the core frequency, in register words and in Hz |
| `Priorities.dfy`, `Nvic.dfy` | interrupt priorities and the register banks of the interrupt controller |
| `Bluetooth.dfy`, `BluetoothStation.dfy` | Bluetooth frames, the command dispatcher, the dotted address decoder |
| `Options.dfy`, `Powers.dfy` | an optional value, powers of two |

Code that the repository writes as expressions is a function here; code that works by updating state is a class or a
method with loops whose postcondition ties it to a function, and the theorems are about that function.

The FatFs calls that the allocator and the directory cleaner make follow `FATFS/src/ff.c` (FatFs R0.11), the Bluetooth
task follows `THREAD/thread.c`, the clock chip's driver `HARDWARE/SD3078/sd3078rtc.c`, and the register constants
`USER/stm32f10x.h`. In the table below the members that model such a call are cited at the place that makes it, with
the lines of the called function in the last column.

## What turned out

Main results, and the places where the code does not quite do what its comments or callers suggest:

- **Disk checker.** The generator `pn` runs through all 2^32 - 1 nonzero words from every nonzero seed
  (`LfsrPeriod.FullPeriod`). With that the verdict on an honest disk is known for every number of cycles
  (`DiskVerdicts.HonestVerdict`): 0 exactly when the buffer has room for the sector plus five bytes and, on a drive
  beyond the 4 GiB barrier, for two sectors plus one byte, and when on such a drive fewer than 2^30 cycles are asked
  for. The guard `sz_buff < _MAX_SS + 4` is one byte too weak for the misaligned test and does not cover the barrier
  test: inside that gap the code accesses memory beyond the buffer (`OverrunExample`). The 2^30th cycle comes to seed
  0, where `pn` does not reseed, and always reports a good drive as faulty with code 24 (`EnduranceExample`). A disk
  that wraps at 4 GiB is always reported (`WrapVerdict`), and a pass means that no write after the first cycle was lost
  (`LossDetected`); on a disk whose tested sectors did not hold the data before, the verdict is 0 exactly when the
  buffer has room, the 2^30th cycle is not reached and no write at all was lost (`LossDecides`, and `LossExample` for
  one lost write). The checker divides by zero only for a reported sector size below 2 (`CycleReports`): for size 0
  exactly when the first write, its synchronisation and the read back succeed (`ZeroSizeVerdict`), for size 1 exactly
  when all three region tests pass (`OneSizeVerdict`); `DivisionExample` has a driver of each kind for size 0, and an
  honest disk with one-byte sectors always gets there (`OneByteVerdict`, `OneByteExample`). Whatever the driver
  answers, the exit code names the call that ended the run: every earlier call was answered as the checker wants, and
  the last one failed, or announced fewer than 128 sectors, or read other data (`DiskDiagnosis.Diagnosis`,
  `StartFailures`, `SmallDriveVerdict`); a completed cycle has made exactly the calls of `CycleCalls`.
- **Contiguous allocator.** For a file that is not empty, or owns no clusters, success means contiguous: the file lies
  in consecutive clusters already, or it is moved to the first free run, chained in order, with every other file's
  chain intact (`AllocateResult`, `NewChain`, `OtherFilesKept`). An empty file that owns clusters is the exception: its
  chain is not released and is stretched where it ends, so a success means contiguous exactly when that chain happens
  to go on through the clusters that follow it (`StrandedFiles.SuccessMeansContiguous`). `StrandedExample` reports
  success for clusters 2 and 4 while cluster 3 belongs to another file, which the program then goes on to overwrite.
  The allocator makes such files itself, when a link along the run cannot be written and the file had a size or was
  just created; an existing empty file then stays without clusters, and those chained for it belong to no file
  (`JamStrands`). It then also leaves a cluster marked that it has not counted, and that is exactly when a right count
  of the free clusters does not stay right (`AllocateCounts`). `RetryExample` is such a failure on an empty volume, and
  the false success of the next try. For `len > 2^32 - csz` the rounding overflows to no clusters: the call fails and
  has emptied the file; for an empty file with clusters it reports success instead if any cluster is free
  (`OverflowEmptiesFile`). The header comment of `app3.c` says a file opened without write access is only checked;
  nothing on the volume ever changes then (`ReadOnlyKeeps`), but the failing check leaves the access error in the file
  object (`ReadOnlyCheck`). The `;` after `&&` on line 40 of `app3.c` is read as part of the operator. On a damaged
  table, a file of the right size whose chain comes to an entry that is unreadable, free or reserved before the length
  is reached is left alone and the call fails (`AllocateDamaged`, `DamagedExample`); a file that would have to be moved
  then loses its start and its size, with only the clusters before an unreadable or reserved entry freed
  (`AllocateLosesFile`). Truncating keeps the free-cluster counter right exactly unless it cuts a file in a cluster
  that is itself marked free (`Contiguous.TruncateKeepsShape`, and `MiscountExample` for such a table).
- **Emptying a directory.** The path buffer is what it was on every return, or it was overrun; it is overrun exactly
  when the run comes to need more room than it has (`DirectoryCleaner.EmptyDirectory`), which for a run that succeeds
  is the length of the deepest path (`ReachPathFull`); five nested directories with names of twelve characters overrun
  the 64 bytes of the example program (`DeepTreeExample`). The first call that fails, at whatever depth, ends the run,
  and its error is the answer (`EmptyPathFaults`); what lies before the place reached is deleted by then, and what lies
  behind it is untouched (`EmptyDirReaches`). If no call fails, the directory is emptied exactly when nothing below it
  is read-only (`EmptyDirSucceeds`).
- **Code pages.** In both variants and directions codes up to 0x80 stay as they are, and any other code becomes the
  value listed for it, or 0 exactly if none is (`FfConvert`, `ConvertListed`). Sixteen probes find every key of every
  ascending table of 16-bit codes, because such a table cannot have more than 65535 pairs. For every zero-terminated
  table, `ff_wtoupper` is idempotent exactly when an upper entry that is also a lower code is its own upper case
  (`UpperIdempotent`).
- **Clock.** Every register state of the bring-up stays inside the flash and APB1 limits for every timing of the ready
  flags, from any state in which the core runs from the HSI. That holds also while the PLL never locks or the switch
  never happens, for which the code waits for ever, on the HSI (`SystemInit`, `ResponsiveIsPrompt`). For the targets of
  24, 36, 48, 56 and 72 MHz APB1 runs at 24, 36, 24, 28 and 36 MHz, with 0, 1, 1, 2 and 2 wait states
  (`ClockNumbers.BringUpNumbers`). `SystemCoreClockUpdate` is exact for every register content except the top PLL
  encoding, which the hardware (section 7.3.2 of RM0008) takes as 16 and the code as 17 (`CoreClockExact`;
  `TopEncodingExample` has the core at 64 MHz and the variable at 68 MHz). When the HSE does not start, the variable
  `SystemCoreClock` keeps a wrong value until it is recomputed, except for the two targets of 8 MHz (`SystemInit`,
  `NoHseExample`).
- **Interrupt controller.** Encoded order is lexicographic order, preemption in the sense of the priority grouping in
  section B1.5.4 of the ARMv7-M Architecture Reference Manual is decided by the encoded preemption priority, and both
  survive any sequence of calls (`PreemptionSurvivesRuns`). An interrupt is pending exactly if it was set pending and
  has been neither cleared nor, while enabled, taken since (`PendingAsLastSet`). Setting a priority for a core
  interrupt that has none, numbers -16 to -13, overwrites the configuration control register that lies before the
  priorities (`ControlExample`). A run leaves such a byte alone, whatever it holds, exactly when no number it sets a
  priority for has that slot (`ControlKept`), as with programmable priorities only (`ProgrammableKept`).
- **Bluetooth.** Each function in numbers: `CommandReplies`, `CommandChanges` and `CommandOverruns`. Over any command
  sequence the clock, the remote address and the replies are determined by the last commands (`RunResult`,
  `QueryReportsClock`, `QueryReportsLastSet`), as far as the clock chip answers: whether it did is never looked at, so
  a time that does not reach it is confirmed all the same (`LostSetUnnoticed`) and a query that cannot read it reports
  an unset structure. A well-formed command gets a well-formed reply, except that the reply to a set-time command
  always has sixteen bytes, whatever the command announces, and so is well formed exactly if those copied are eight
  content bytes and the end mark (`AnswerParses`, `LongSetTimeExample`). No buffer is overrun exactly when no 4G
  command announces more than 20 data bytes and no echoed command is longer than 50 bytes (`RunFits`,
  `OverrunExample`). A reported time fed back as a set-time command is a no-op only in 24-hour mode and for the same
  weekday; `set_real_time` never assigns the weekday it writes (`QueryThenSet`).

## Model

The main results come first, the operations they speak about and the steps in between after them.

| member | source | states |
|---|---|---|
| LfsrPeriod.FullPeriod | FATFS/doc/img/app4.c:26-31 | every nonzero register returns after 2^32 - 1 steps and not sooner |
| Lfsr.Observable | FATFS/doc/img/app4.c:26-32 | two registers that emit the same 32 bytes are equal |
| Lfsr.SeedsDiffer | FATFS/doc/img/app4.c:22-32 | patterns of different nonzero seeds differ within any 32 bytes |
| Lfsr.AdjacentSectorsDiffer | FATFS/doc/img/app4.c:241-283 | the two halves of a barrier pattern differ for every power-of-two sector size of at least 32 |
| DiskChecker.Checker.TestDiskio | FATFS/doc/img/app4.c:36-299 | on every driver, configuration, buffer and cycle count: the verdict (buffer overruns and divisions by zero included), log and register are those of the specification |
| DiskVerdicts.HonestVerdict | FATFS/doc/img/app4.c:54-298 | the verdict on every honest disk for every cycle count: 0, 1, a buffer overrun, or code 24 from the 2^30th cycle on |
| DiskVerdicts.OverrunExample | FATFS/doc/img/app4.c:54-57 | a buffer that passes the guard and is overrun |
| DiskVerdicts.EnduranceExample | FATFS/doc/img/app4.c:44-298 | a concrete 4 GB card passes every number of cycles below 2^30 and is reported from then on |
| DiskVerdicts.WrapVerdict | FATFS/doc/img/app4.c:237-289 | a large disk that takes addresses modulo 4 GiB gets code 24 in the first cycle |
| DiskVerdicts.WrapExample | FATFS/doc/img/app4.c:237-289 | a concrete 8 GB card behind a driver that drops high address bits gets code 24 |
| DiskVerdicts.LossDetected | FATFS/doc/img/app4.c:122-298 | verdict 0 implies, for every cycle count, that every write after the first cycle was carried out, and all of them if the contents were stale at first |
| DiskVerdicts.LossDecides | FATFS/doc/img/app4.c:54-298 | from stale contents the verdict is 0 exactly when the buffer has room, the cycle with seed 0 is not reached and every write issued was carried out |
| DiskVerdicts.LossExample | FATFS/doc/img/app4.c:122-298 | a blank card that loses one call passes exactly when that call is not a write |
| DiskVerdicts.ZeroCycleFails | FATFS/doc/img/app4.c:237-289 | the cycle with seed 0 is never passed after a passed one, whatever writes are lost |
| DiskVerdicts.CycleReports | FATFS/doc/img/app4.c:59-296 | on every driver a cycle cut short does not return 0, and divides by zero only for a reported sector size below 2 |
| DiskVerdicts.ZeroSizeVerdict | FATFS/doc/img/app4.c:122-163 | for a reported size of 0: division by zero exactly when the first write, sync and read succeed, else the code of the one that fails |
| DiskVerdicts.OneSizeVerdict | FATFS/doc/img/app4.c:122-239 | for a reported size of 1: division by zero exactly when the buffer holds six bytes and all three region tests pass |
| DiskVerdicts.DivisionExample | FATFS/doc/img/app4.c:91-163 | a driver that reports size 0: division by zero, or code 6 if its writes fail |
| DiskVerdicts.OneByteVerdict | FATFS/doc/img/app4.c:122-239 | an honest disk with one-byte sectors makes the checker divide by zero whenever the buffer has room |
| DiskVerdicts.OneByteExample | FATFS/doc/img/app4.c:122-239 | a concrete card of that kind |
| DiskVerdicts.ZeroMeansCompleted | FATFS/doc/img/app4.c:59-298 | on every driver a run of cycles that stops does not return 0 |
| DiskDiagnosis.Diagnosis | FATFS/doc/img/app4.c:54-298 | on every driver, for every number of cycles: all calls before the last were answered as the checker wants, and an exit code above 1 is that of the last call, which failed or is a read with other data |
| DiskDiagnosis.StartFailures | FATFS/doc/img/app4.c:63-98 | what the answers to the first calls decide: 2 not initialised, 3 no sector count, 4 fewer than 128 sectors, 5 no sector size |
| DiskDiagnosis.SmallDriveVerdict | FATFS/doc/img/app4.c:83-86 | every medium with fewer than 128 sectors gets 4 |
| DiskDiagnosis.CycleCalls | FATFS/doc/img/app4.c:59-296 | a completed cycle on any driver made exactly the calls listed, with the data of four successive seeds, in this order |
| DiskDiagnosis.PatternByte | FATFS/doc/img/app4.c:22-32 | each byte written is the low eight bits of the generator's word, counted from the 34th after the seed |
| DiskDiagnosis.GeneratorExample | FATFS/doc/img/app4.c:26-31 | the first four words from register 1 |
| FatDriver.File.AllocateContiguous | FATFS/doc/img/app3.c:20-71 | result, file object and volume are those of the specification |
| FatDriver.File.FindRun | FATFS/doc/img/app3.c:51-63 | for every FAT content: the smallest start of a free run of the length, 0 exactly if there is none |
| ContiguousProofs.AllocateResult | FATFS/doc/img/app3.c:20-71 | the whole call, for every readable file that is not an empty one with clusters, and every length that does not overflow, links that cannot be written included |
| ContiguousProofs.AllocateCounts | FATFS/doc/img/app3.c:20-71 | for such a file a right count of the free clusters stays right exactly unless a link along the run found cannot be written |
| StrandedFiles.SuccessMeansContiguous | FATFS/doc/img/app3.c:20-71 | a reported sector means a chain of at least the clusters needed from there, consecutive exactly if the file was not an empty one with clusters or its old chain goes on that way |
| StrandedFiles.AllocateStranded | FATFS/doc/img/app3.c:49-69 | the whole call for an empty file with clusters: nothing is released, the old chain is stretched |
| StrandedFiles.OthersKept | FATFS/doc/img/app3.c:66-67 | stretching a chain leaves every other chain as it is |
| StrandedFiles.StrandedExample | FATFS/doc/img/app3.c:49-69 | an empty file that owns cluster 2 gets clusters 2 and 4 and the call succeeds |
| StrandedFiles.JamStrands | FATFS/doc/img/app3.c:65-67 | when a link along the run cannot be written the call fails; the file opened again is an empty one with clusters exactly if it had a size or was created by this opening, else it owns nothing (ff.c lines 2496, 2777-2798) |
| StrandedFiles.RetryExample | FATFS/doc/img/app3.c:49-69 | a concrete failure of that kind, the count it leaves wrong, and the next try, which succeeds for clusters 2 and 4 |
| ContiguousProofs.NewChain | FATFS/doc/img/app3.c:65-67 | the new chain is the run found, or the part of it that could be linked, closed at its end |
| ContiguousProofs.OtherFilesKept | FATFS/doc/img/app3.c:49-67 | every chain disjoint from the old one is still the same chain and disjoint from the new one |
| ContiguousProofs.OverflowEmptiesFile | FATFS/doc/img/app3.c:30-49 | a length within one cluster of 4 GiB fails and empties the file, or for an empty file with clusters changes nothing and may report its first sector |
| ContiguousProofs.ReadOnlyKeeps | FATFS/doc/img/app3.c:6-7 | without write access the volume never changes, for every file, table and length |
| ContiguousProofs.ReadOnlyCheck | FATFS/doc/img/app3.c:28-49 | what such a call answers for every readable file, with any number of clusters, and every length |
| ContiguousProofs.WalkDecides | FATFS/doc/img/app3.c:35-45 | the walk accepts exactly the chains, however long, whose clusters up to the length, and the one after if there is one, are consecutive |
| ContiguousProofs.ClustersCeiling | FATFS/doc/img/app3.c:30-32 | the cluster count is the ceiling of the division exactly when the sum does not overflow |
| Contiguous.AllocateKeeps | FATFS/doc/img/app3.c:20-71 | for every table, file and length: a right count of the free clusters stays right exactly unless a cluster was marked that could not be linked |
| Contiguous.TruncateKeepsShape | FATFS/doc/img/app3.c:49 | truncating keeps a right counter right exactly unless it cuts in a cluster marked free with the counter known (ff.c lines 3429-3476) |
| Contiguous.MiscountExample | FATFS/doc/img/app3.c:49 | a table, counter and file for which the count goes wrong (ff.c lines 3460-3467) |
| AllocatorErrors.AllocateDamaged | FATFS/doc/img/app3.c:35-45 | a file of the right size whose chain comes to an unreadable, free or reserved entry before the length is reached: failure, nothing changed |
| AllocatorErrors.AllocateOutside | FATFS/doc/img/app3.c:35-45 | the same for a start cluster outside the table |
| AllocatorErrors.DamagedExample | FATFS/doc/img/app3.c:35-45 | a file whose second and last entry is damaged is not reported as contiguous |
| AllocatorErrors.AllocateRefused | FATFS/doc/img/app3.c:28-29 | a file object with an error, and the length 0, are refused with nothing changed |
| AllocatorErrors.AllocateLosesFile | FATFS/doc/img/app3.c:49 | a file to be moved whose chain comes to a damaged entry: the clusters before it are freed, start and size are gone, the error stays in the file object |
| DirectoryCleaner.EmptyDirectory | FATFS/doc/img/app2.c:7-43 | terminates; the path buffer is overrun exactly when the run needs more room, else restored on every return; result, tree and calls are those of the specification |
| DirectoryProofs.EmptyPathFrame | FATFS/doc/img/app2.c:19-42 | the whole call: outside nothing changes, inside objects only vanish, success means empty |
| DirectoryProofs.EmptyDirSucceeds | FATFS/doc/img/app2.c:19-42 | without failing calls it succeeds exactly if nothing inside is read-only |
| DirectoryProofs.ReachPathFull | FATFS/doc/img/app2.c:19-42 | a run without failing calls and read-only objects needs exactly the room of the deepest path |
| DirectoryProofs.DeepTreeExample | FATFS/doc/img/app2.c:47-58 | the 64-byte buffer of the program is overrun by nested directories exactly from the fifth on |
| DirectoryFaults.EmptyPathFaults | FATFS/doc/img/app2.c:19-42 | the first failing call, at whatever depth, ends the run, and its error is the answer; and the errors of a directory that cannot be opened |
| DirectoryFaults.EmptyDirReaches | FATFS/doc/img/app2.c:23-41 | however a run ends, the entries before some place are deleted and those behind it untouched; the answer is the error of the last call, or 7 if that was refused |
| DirectoryFaults.EmptyDirWorks | FATFS/doc/img/app2.c:19-42 | how many calls an undisturbed run makes |
| DoubleByteCodePage.Search | FATFS/src/option/cc932.c:3746-3756 | sixteen probes return the mapped value or 0 for every table, and never look at the closing pair of a nonempty one |
| DoubleByteCodePage.TinyVariantAgrees | FATFS/src/option/cc932.c:3738-3765 | the one-table variant equals the two-table variant on every code exactly for inverse tables |
| DoubleByteCodePage.RoundTrip | FATFS/src/option/cc932.c:3726-3782 | every convertible code converts back to itself, in every variant and direction |
| DoubleByteCodePage.TinyRoundTrip | FATFS/src/option/cc932.c:3758-3778 | with one table, every code with an OEM code comes back exactly if no OEM code is listed twice |
| DoubleByteCodePage.UpperIdempotent | FATFS/src/option/cc932.c:3786-3798 | for every zero-terminated table, upper-casing twice is upper-casing once exactly if upper entries that are lower codes are fixed |
| DoubleByteCodePage.ConvertListed | FATFS/src/option/cc932.c:3726-3782 | the searches by key and by value: a value listed with the key, the smallest key listed with the value, each 0 exactly if no pair lists one |
| SingleByteCodePage.UnicodeRoundTrip | FATFS/src/option/ccsbcs.c:501-525 | a code with a nonzero byte converts back to itself |
| SingleByteCodePage.ByteRoundTrip | FATFS/src/option/ccsbcs.c:501-525 | a byte survives exactly if its entry is not ASCII and has no earlier duplicate |
| ClockDriver.Rcc.SystemInit | USER/system_stm32f10x.c:212-269 | every state of the run is safe and every write orderly, on any hardware and watched for any time; done if the PLL and the switch answer in time and never without, waiting on the HSI till then; when done the core runs at the target frequency exactly if the HSE started in time |
| ClockNumbers.BringUpNumbers | USER/system_stm32f10x.c:500-1080 | after a bring-up with the HSE: HCLK, PCLK1, wait states and configuration word of each target as numbers |
| ClockNumbers.SafeNumbers | USER/system_stm32f10x.c:1013-1070 | in every safe state PCLK1 is at most 36 MHz and the wait states serve the system clock |
| ClockNumbers.FallbackNumbers | USER/system_stm32f10x.c:546-562 | after one without it HCLK and PCLK1 are 8 MHz |
| ClockNumbers.StartupWindow | USER/system_stm32f10x.c:508-522 | the HSE is in time exactly if it shows up in one of 1281 reads |
| ClockDriver.ResponsiveIsPrompt | USER/system_stm32f10x.c:1053-1070 | hardware that locks and switches at some time ends every wait |
| ClockDriver.NoHseExample | USER/system_stm32f10x.c:508-522 | without an HSE the core runs at 8 MHz and the variable says the target frequency, right for the two 8 MHz targets only |
| ClockDriver.Rcc.SystemCoreClockUpdate | USER/system_stm32f10x.c:306-412 | the variable is the function of the first word read, although the hardware goes on between the reads |
| ClockDriver.UpdateAfterInit | USER/system_stm32f10x.c:212-412 | after bring-up the result is the target frequency, or that of the HSI if the HSE did not start |
| ClockDriver.UpdateExact | USER/system_stm32f10x.c:306-412 | in a settled safe state the result is the real frequency unless the top PLL encoding is used |
| ClockDriver.TopEncodingExample | USER/system_stm32f10x.c:336-345 | a state in which the core runs at 64 MHz and 68 MHz is computed |
| ClockNumbers.PrescaledNumbers | USER/system_stm32f10x.c:401-411 | the frequency recomputed for the AHB prescaler's encodings |
| ClockNumbers.SourceNumbers | USER/system_stm32f10x.c:320-399 | the frequency recomputed for the sources of the core clock and the targets' PLL settings |
| ClockTree.CoreClockExact | USER/system_stm32f10x.c:306-412 | the recomputed clock is source times factor by divisor and fits 32 bits, for all register contents but the top PLL encoding |
| Priorities.DecodeEncode | CORE/core_cm3.h:1634-1676 | decoding an encoded pair gives it back, cut to the fields |
| Priorities.EncodeDecode | CORE/core_cm3.h:1634-1676 | every implemented priority is the encoding of what it decodes to |
| Priorities.EncodeOrder | CORE/core_cm3.h:1634-1647 | encoded order is lexicographic order of the two fields |
| Priorities.PreemptionDecides | CORE/core_cm3.h:1586-1647 | the group priority of stored bytes compares as the preemption priorities |
| InterruptModel.PreemptionSurvivesRuns | CORE/core_cm3.h:1586-1676 | reading back decodes to the pair last set, and preemption follows it, after any run |
| InterruptModel.EnabledAsLastSwitched | CORE/core_cm3.h:1502-1518 | over any run, enabled exactly as last switched |
| InterruptModel.PendingAsLastSet | CORE/core_cm3.h:1542-1558 | over any run, pending exactly if set pending and neither cleared nor, while enabled, taken since |
| InterruptModel.ActiveAsTaken | CORE/core_cm3.h:1569-1572 | over any run, active exactly if taken while pending and enabled, and not returned since |
| InterruptModel.PriorityAsLastSet | CORE/core_cm3.h:1586-1592 | over any run, a priority byte is the one of the last level set there, by whatever number |
| InterruptModel.ControlKept | CORE/core_cm3.h:1586-1592 | a run keeps a byte from every starting state exactly when no priority it sets goes to that slot |
| InterruptModel.ProgrammableKept | CORE/core_cm3.h:1586-1592 | setting programmable priorities only leaves the configuration control register alone |
| InterruptModel.ControlExample | CORE/core_cm3.h:1586-1592 | a priority set for interrupt -14 overwrites a byte of that register |
| BluetoothProtocol.RunResult | BLUETOOTH/bluetooth.c:201-258 | clock, remote address, flash copy and replies after any run |
| BluetoothProtocol.CommandReplies | BLUETOOTH/bluetooth.c:201-233 | which functions get a reply, and each reply byte by byte |
| BluetoothProtocol.CommandChanges | BLUETOOTH/bluetooth.c:236-258 | which functions change the clock or the address, and to which bytes of the command |
| BluetoothProtocol.CommandOverruns | BLUETOOTH/bluetooth.c:21-258 | which commands overrun a buffer |
| BluetoothProtocol.AddressExample | BLUETOOTH/bluetooth.c:121-154 | a concrete command sets the address and is sent back |
| BluetoothProtocol.QueryReportsClock | BLUETOOTH/bluetooth.c:34-87 | after any run a time query is answered by one well-formed frame with the clock by the last event that touched it, or with unset bytes if the chip does not answer |
| BluetoothProtocol.QueryReportsLastSet | BLUETOOTH/bluetooth.c:34-87 | if the chip has not moved on since the last set-time command, a time query is answered by the payload of that command, or exactly by what it carries instead when the chip did not answer then or does not now |
| BluetoothProtocol.LostSetUnnoticed | BLUETOOTH/bluetooth.c:34-63 | a time that the chip does not take is confirmed like one that it does |
| BluetoothProtocol.RunFits | BLUETOOTH/bluetooth.c:21-258 | a run overruns no buffer exactly if every command fits |
| BluetoothProtocol.OverrunExample | BLUETOOTH/bluetooth.c:97-119 | a 4G command that announces 21 bytes overruns |
| BluetoothProtocol.AnswerParses | BLUETOOTH/bluetooth.c:201-233 | every well-formed command that is answered gets one frame, well formed and of the same function exactly if it does not set the time or the bytes copied are eight content bytes and the end mark |
| BluetoothProtocol.LongSetTimeExample | BLUETOOTH/bluetooth.c:52-63 | a well-formed set-time command of 19 bytes whose reply is no frame |
| BluetoothProtocol.BuildParses | BLUETOOTH/bluetooth.h:47-112 | a built frame is read as the message it carries |
| BluetoothProtocol.ParsedIsBuilt | BLUETOOTH/bluetooth.h:47-112 | a byte string is read as a message only if it is its frame |
| BluetoothProtocol.SetThenQuery | BLUETOOTH/bluetooth.c:34-87 | a query after a set reports the bytes set, but for the mode bit of the hour |
| BluetoothProtocol.QueryThenSet | BLUETOOTH/bluetooth.c:34-87 | feeding the report back changes nothing, exactly in 24-hour mode and for the same weekday |
| BluetoothProtocol.DottedInjective | BLUETOOTH/bluetooth.c:264-298 | different six-byte blocks give different texts |
| Lfsr.StepLinear | FATFS/doc/img/app4.c:26-31 | one step distributes over exclusive or |
| Lfsr.StepInjective | FATFS/doc/img/app4.c:26-31 | two registers with the same successor are equal |
| Lfsr.PrefixDetermines | FATFS/doc/img/app4.c:26-32 | the first 32 bytes of a stream determine the register |
| DiskChecker.Driver.Call | FATFS/doc/img/app4.c:63-144 | one driver call; answers may depend on all calls made so far |
| DiskChecker.Checker.Pn | FATFS/doc/img/app4.c:13-33 | the recursive method computes the generator function and leaves its result in the register |
| DiskChecker.Checker.FillBuffer | FATFS/doc/img/app4.c:125 | the fill loop writes exactly the seeded byte stream and nothing else of the buffer |
| DiskChecker.Checker.CompareBuffer | FATFS/doc/img/app4.c:151 | the compare loop ends at the length exactly when the buffer holds the replayed stream |
| DiskChecker.Checker.CompareAhead | FATFS/doc/img/app4.c:283 | the barrier comparison, which reads one byte past its data before testing the bound |
| DiskChecker.Checker.ReadSectors | FATFS/doc/img/app4.c:143-150 | a read fills its part of the buffer with what the driver delivers |
| DiskChecker.Checker.TestRegion | FATFS/doc/img/app4.c:122-158 | one write, sync, clear, read, compare test refines its list of obligations, with its exit codes |
| DiskChecker.Checker.TestBarrier | FATFS/doc/img/app4.c:237-289 | the 4 GiB test refines its list of obligations |
| DiskChecker.Checker.RunCycle | FATFS/doc/img/app4.c:59-296 | a whole cycle, initialisation and queries included, with the sector size the driver reports |
| DiskVerdicts.RegionOutcome | FATFS/doc/img/app4.c:122-158 | on any medium a test compares the replayed data with what the medium holds after the write |
| DiskVerdicts.CycleOn | FATFS/doc/img/app4.c:59-296 | a cycle on a medium has exactly the outcome of its four tests in order |
| DiskVerdicts.ZeroSeedReplay | FATFS/doc/img/app4.c:22-31 | with seed 0 the replay repeats the fill exactly when the register has that period |
| DiskDiagnosis.CycleRegister | FATFS/doc/img/app4.c:122-289 | what a completed cycle leaves in the generator's register |
| DiskDiagnosis.SeedNumbers | FATFS/doc/img/app4.c:44-289 | a cycle uses its seed and the three numbers after it |
| FatDriver.Volume.GetFat | FATFS/doc/img/app3.c:38-39 | the status of a cluster, 1 outside the table, all ones on a disk error (ff.c lines 775-819) |
| FatDriver.Volume.PutFat | FATFS/doc/img/app3.c:15-17 | an entry is changed, or an error returned and nothing changed (ff.c lines 830-883) |
| FatDriver.Volume.PutLink | FATFS/doc/img/app3.c:66-67 | the same where another changed sector may have to be written back first (ff.c lines 868-874, 984) |
| FatDriver.Volume.CreateChain | FATFS/doc/img/app3.c:66-67 | the method allocates as the function says, hint and counter included, and leaves a cluster marked when the link to it cannot be written (ff.c lines 947-997) |
| FatDriver.Volume.RemoveChain | FATFS/doc/img/app3.c:49 | the loop releases as the recursive function says (ff.c lines 894-936) |
| FatDriver.Volume.ClusterToSector | FATFS/doc/img/app3.c:69 | first sector of a cluster, 0 for an invalid one (ff.c lines 757-765) |
| FatDriver.File.LSeek | FATFS/doc/img/app3.c:67 | seeking, stretching the chain when the file is writable (ff.c lines 2987-3136) |
| FatDriver.File.Sync | FATFS/doc/img/app3.c:77-99 | closing writes the directory entry of a changed file only (ff.c lines 2777-2798) |
| FatDriver.File.Cut | FATFS/doc/img/app3.c:49 | truncation at the current position (ff.c lines 3429-3476) |
| FatDriver.File.WalkClusters | FATFS/doc/img/app3.c:36-44 | the do-while walk decides as the recursive function |
| Contiguous.FirstRun | FATFS/doc/img/app3.c:51-63 | a free run with none before it, or 0 and no run anywhere |
| Contiguous.SeekKeepsShape | FATFS/doc/img/app3.c:67 | seeking keeps a right counter right exactly unless it marks a cluster that it cannot link (ff.c lines 2987-3136) |
| ContiguousProofs.RemoveChainFrees | FATFS/doc/img/app3.c:49 | removing a chain frees exactly its clusters (ff.c lines 894-936) |
| ContiguousProofs.CreateChainSound | FATFS/doc/img/app3.c:66-67 | full exactly if nothing is free, takes only free clusters, changes nothing else, and on an error nothing but the cluster that could not be linked (ff.c lines 947-997) |
| ContiguousProofs.SeekAlongRun | FATFS/doc/img/app3.c:65-67 | seeking to the rounded size behind the hint gives the empty file exactly the run found |
| ContiguousProofs.SeekJams | FATFS/doc/img/app3.c:65-67 | with a link that cannot be written it fails and leaves the clusters before that link with the file |
| ContiguousProofs.TruncateFrees | FATFS/doc/img/app3.c:49 | truncating at the start frees the whole chain and empties the file, and does nothing to an empty one with clusters (ff.c lines 3429-3476) |
| ContiguousProofs.ReallocateResult | FATFS/doc/img/app3.c:49-69 | after the old chain is released the file gets the first run or stays empty; empty files with clusters are in `AllocateStranded` |
| StrandedFiles.ExtendSound | FATFS/doc/img/app3.c:66-67 | stretching takes free clusters in order behind the old end and changes nothing else in use (ff.c lines 947-997) |
| StrandedFiles.ExtendConsecutive | FATFS/doc/img/app3.c:65-67 | the clusters taken follow the old end directly exactly when those are free and can be linked |
| AllocatorErrors.WalkCases | FATFS/doc/img/app3.c:35-45 | every case of the walk by the first entry that does not go on to the next cluster |
| AllocatorErrors.ReleaseStops | FATFS/doc/img/app3.c:49 | releasing stops at a damaged entry with the clusters before it freed (ff.c lines 894-936) |
| AllocatorErrors.TruncateDamaged | FATFS/doc/img/app3.c:49 | truncating such a file at its start (ff.c lines 3429-3476) |
| AllocatorErrors.CandidateIsFirst | FATFS/doc/img/app3.c:66-67 | the search for a cluster to take goes round once and stops at the first that is free or damaged (ff.c lines 962-978) |
| AllocatorErrors.CreateChainRefused | FATFS/doc/img/app3.c:66-67 | what stretching answers by the entry of the cluster and of the one the search comes to (ff.c lines 947-997) |
| AllocatorErrors.SectorsTile | FATFS/doc/img/app3.c:69 | the sectors of successive clusters follow one another from the base on (ff.c lines 757-765) |
| SeekProofs.SeekReaches | FATFS/doc/img/app3.c:28-67 | inside its chain, forward or back, a seek ends at the position asked for, in its cluster (ff.c lines 2987-3136) |
| SeekProofs.SeekInside | FATFS/doc/img/app3.c:28-67 | a seek within the current cluster looks at no entry, and fails only off a sector boundary without a sector (ff.c lines 2987-3136) |
| SeekProofs.SeekNowhere | FATFS/doc/img/app3.c:28-67 | a position without a current cluster: a seek ahead stays at the start of that cluster's bytes (ff.c lines 3067-3088) |
| SeekProofs.SeekFirst | FATFS/doc/img/app3.c:66-67 | a file that cannot get a first cluster stays as it is, with an error only if the search came to a damaged entry (ff.c lines 3078-3086) |
| SeekProofs.SeekFull | FATFS/doc/img/app3.c:67 | on a full volume a seek behind the chain ends at the end of its last cluster and the file grows to there (ff.c lines 3088-3110) |
| SeekProofs.TruncateCuts | FATFS/doc/img/app3.c:49 | cutting inside the data: the chain ends with the cluster of the position, those behind are free, no other entry changes (ff.c lines 3429-3476) |
| AllocatorErrors.CutDamaged | FATFS/doc/img/app3.c:49 | cutting at a damaged entry: the error, and the one case in which the table changes (ff.c lines 3453-3462) |
| AllocatorErrors.CutLeads | FATFS/doc/img/app3.c:49 | cutting before a damaged entry frees the clusters between (ff.c lines 3453-3462) |
| AllocatorErrors.TruncateOutside | FATFS/doc/img/app3.c:49 | a file with a size and no valid start loses both and keeps the error (ff.c lines 3447-3452, 3474) |
| ContiguousProofs.ScatteredExample | FATFS/doc/img/app3.c:20-71 | a concrete scattered file and where it moves, table and sector included |
| DirectoryCleaner.Volume.OpenDir | FATFS/doc/img/app2.c:19 | opening by path: the directory named, or the error (ff.c lines 3145-3192) |
| DirectoryCleaner.Volume.ReadDir | FATFS/doc/img/app2.c:24-25 | the next entry that is shown, an empty name at the end (ff.c lines 3233-3266) |
| DirectoryCleaner.Volume.Remove | FATFS/doc/img/app2.c:35 | deletes one object unless it is the root, missing, read-only or a directory in use (ff.c lines 3485-3545) |
| DirectoryCleaner.EmptyEntries | FATFS/doc/img/app2.c:23-37 | the loop over a table, some of it already done |
| DirectoryCleaner.DeleteEntry | FATFS/doc/img/app2.c:27-36 | empties a child directory if it is one, then deletes the child of that very name |
| DirectoryProofs.EmptyDirPrunes | FATFS/doc/img/app2.c:19-42 | under every pattern of failures only objects inside the directory vanish |
| DirectoryProofs.SuccessEmpties | FATFS/doc/img/app2.c:23-37 | on success nothing but dot entries is left |
| DirectoryProofs.ParseAppend | FATFS/doc/img/app2.c:22-30 | a path extended by a separator and a name names the child |
| DirectoryProofs.OutsideKept | FATFS/doc/img/app2.c:19-42 | objects outside the directory are found unchanged |
| DirectoryFaults.EmptyDirFaults | FATFS/doc/img/app2.c:19-42 | the same law for the emptying of a directory at any depth |
| DirectoryFaults.DenialExample | FATFS/doc/img/app2.c:27-36 | a read-only file ends the run at its deletion, a read-only directory after it was emptied |
| DirectoryFaults.ListedNames | FATFS/doc/img/app2.c:24-29 | which entries are listed and which of them are dot entries |
| DirectoryFaults.PathExamples | FATFS/doc/img/app2.c:19 | how separators at the start, between names and at the end are read (ff.c lines 2171-2240) |
| DirectoryFaults.RefusalExamples | FATFS/doc/img/app2.c:19 | an invalid path is reported as such only behind names that lead to a directory (ff.c lines 2171-2240) |
| DirectoryFaults.UnlinkMissing | FATFS/doc/img/app2.c:35 | the errors for deleting the root and what is not there (ff.c lines 3485-3545) |
| DirectoryFaults.UnlinkExamples | FATFS/doc/img/app2.c:35 | a read-only object and a directory in use are refused with 7, and a path through a file with 5 (ff.c lines 3485-3545) |
| DirectoryFaults.UnlinkBelow | FATFS/doc/img/app2.c:35 | deleting an object in a subdirectory leaves the rest of the tree |
| DoubleByteCodePage.ReverseScan | FATFS/src/option/cc932.c:3758-3765 | the pointer walk returns the first key with the value, 0 if there is none |
| DoubleByteCodePage.FfConvert | FATFS/src/option/cc932.c:3726-3782 | both variants, both directions: codes up to 0x80 stay, any other becomes a value listed for it, or 0 exactly if there is none |
| DoubleByteCodePage.FfWtoupper | FATFS/src/option/cc932.c:3786-3798 | the scan stays in its tables and returns the upper entry or the character |
| SingleByteCodePage.FfConvert | FATFS/src/option/ccsbcs.c:501-525 | codes below 0x80 stay; a byte becomes its table entry, a code the byte of its first entry, or 0 exactly if there is none |
| ClockTree.AdvanceSafe | USER/system_stm32f10x.c:514-563 | whatever the hardware does by itself keeps a safe state safe |
| ClockTree.TargetMeets | USER/system_stm32f10x.c:616-653 | the bits of each target mean its frequency, within the flash limit and 36 MHz on APB1 |
| ClockNumbers.LimitNumbers | USER/system_stm32f10x.c:1016-1030 | a flash wait state for every further 24 MHz, and 36 MHz on APB1 |
| ClockNumbers.Apb1Divisors | USER/system_stm32f10x.c:1027-1028 | the divisor of each APB1 encoding |
| ClockNumbers.FlagsFall | USER/system_stm32f10x.c:216-231 | a ready flag falls with its enable bit and by nothing else that is written |
| ClockNumbers.MultiplierNumbers | USER/system_stm32f10x.c:336-345 | the factor of each PLL encoding |
| ClockDriver.Rcc.ResetClocks | USER/system_stm32f10x.c:214-250 | back to the reset configuration, PLL and HSE off before their setup is touched |
| ClockDriver.Rcc.SetSysClock | USER/system_stm32f10x.c:500-1080 | the bring-up of each target |
| ClockDriver.Rcc.AwaitHse | USER/system_stm32f10x.c:508-522 | the bounded wait: ready exactly if the flag showed up by the deciding read |
| ClockDriver.Rcc.SetBuses | USER/system_stm32f10x.c:1016-1030 | prefetch, wait states and bus prescalers of the target |
| ClockDriver.Rcc.StartPll | USER/system_stm32f10x.c:1050-1061 | PLL setup while it is off, then on and locked |
| ClockDriver.Rcc.RequestSwitch | USER/system_stm32f10x.c:1063-1065 | the switch to a running source within limits |
| ClockDriver.Rcc.AwaitSwitch | USER/system_stm32f10x.c:1067-1070 | waiting until the source drives the core |
| Priorities.FieldWidths | CORE/core_cm3.h:1636-1641 | how many of four bits each group gives to preemption |
| Priorities.EncodeExample | CORE/core_cm3.h:1586-1676 | a pair, its encoding and the byte stored |
| Priorities.DecodePriority | CORE/core_cm3.h:1665-1676 | the two fields found are in range and encode to the implemented priority again |
| Priorities.StoredLoaded | CORE/core_cm3.h:1586-1616 | the stored byte loads back as the implemented bits |
| InterruptController.Nvic.EnableIRQ | CORE/core_cm3.h:1502-1505 | adds the interrupt to the enabled set, nothing else changes |
| InterruptController.Nvic.DisableIRQ | CORE/core_cm3.h:1515-1518 | removes it |
| InterruptController.Nvic.SetPendingIRQ | CORE/core_cm3.h:1542-1545 | adds it to the pending set |
| InterruptController.Nvic.ClearPendingIRQ | CORE/core_cm3.h:1555-1558 | removes it |
| InterruptController.Nvic.GetPendingIRQ | CORE/core_cm3.h:1529-1532 | 1 exactly for a pending interrupt |
| InterruptController.Nvic.GetActive | CORE/core_cm3.h:1569-1572 | 1 exactly for an active interrupt |
| InterruptController.Nvic.SetPriority | CORE/core_cm3.h:1586-1592 | sets the byte that the number addresses, for every negative and every device number |
| InterruptController.Nvic.GetPriority | CORE/core_cm3.h:1609-1616 | the implemented bits of that byte |
| InterruptController.Nvic.SetPriorityGrouping | CORE/core_cm3.h:1468-1479 | unlock key and group written, the other bits kept |
| InterruptController.EnableExample | CORE/core_cm3.h:1502-1518 | the words of the enable bank after enabling 37 and 40 and disabling 37 |
| InterruptController.PendingExample | CORE/core_cm3.h:1529-1558 | those of the pending bank, and what is read back |
| InterruptController.PriorityExample | CORE/core_cm3.h:1586-1616 | the bytes stored for interrupt 37 and the system tick, and what is read back |
| BluetoothProtocol.TimeFrameParses | BLUETOOTH/bluetooth.c:65-87 | the time reply is well formed and carries the six bytes read |
| BluetoothProtocol.RealDataParses | BLUETOOTH/bluetooth.c:156-186 | the data reply is well formed with three elements |
| BluetoothProtocol.EchoParses | BLUETOOTH/bluetooth.c:190-198 | an echo is as well or badly formed as the command, with the direction changed only |
| BluetoothProtocol.SetTimeReplyIsEcho | BLUETOOTH/bluetooth.c:52-63 | for a command of any length the set-time reply is the command turned round exactly if it has 16 bytes and a proper header |
| BluetoothProtocol.SetTimeReplyParses | BLUETOOTH/bluetooth.c:52-63 | the set-time reply is well formed exactly if eight content bytes that read as elements and the end mark are copied |
| BluetoothProtocol.DottedReads | BLUETOOTH/bluetooth.c:264-298 | each byte is read back from its two characters of the text |
| BluetoothProtocol.DottedExample | BLUETOOTH/bluetooth.h:146-149 | the text documented for one block |
| BluetoothStation.GetContentData | BLUETOOTH/bluetooth.c:21-31 | copies the announced data, or overruns exactly if they do not fit |
| BluetoothStation.Station.SetRealTime | BLUETOOTH/bluetooth.c:34-50 | the six time bytes go to the clock, if it acknowledges (sd3078rtc.c lines 328-365) |
| BluetoothStation.Station.SetTimeUpframe | BLUETOOTH/bluetooth.c:52-63 | new header, content and end mark of the command |
| BluetoothStation.Station.ReadTimeUpframe | BLUETOOTH/bluetooth.c:65-87 | the packed structure is the time reply, with unset time bytes if the clock does not acknowledge (sd3078rtc.c lines 372-400) |
| BluetoothStation.Station.ChangeUpidUpframe | BLUETOOTH/bluetooth.c:190-198 | sends the command with its direction bit cleared |
| BluetoothStation.Station.ModifyRtuParameters | BLUETOOTH/bluetooth.c:121-154 | the remote address is taken over in memory and flash |
| BluetoothStation.Station.ExecuteCommand | BLUETOOTH/bluetooth.c:236-258 | refines the dispatcher |
| BluetoothStation.Station.ResponseUpframe | BLUETOOTH/bluetooth.c:201-233 | refines the reply dispatcher; -1 exactly for functions without a reply |
| BluetoothStation.Station.Handle | BLUETOOTH/bluetooth.c:201-258 | one turn of the task (thread.c lines 241-277) |
| BluetoothStation.GetIpInformation | BLUETOOTH/bluetooth.c:264-298 | six bytes become the dotted text; any other length is refused and writes nothing |

## Left out

- Disk checker: `printf`, and the half of the 32-bit answer that does not fit the 16-bit variable of the sector and
  block size queries. The loop that never ends for `ncyc` = 2^32 - 1 is one that ends here.
- DiskVerdicts.HonestVerdict: for 2^30 and more cycles on drives with the barrier test it asks for sectors of at least
  16 bytes, as 512 is the smallest size FatFs can be configured for.
- FatFs cluster layer: packing of FAT12 and FAT16 entries, and with it FAT12 entries that lie in two sectors; the
  fast-seek link map, the FSINFO flag, TRIM, and wrap-around of the file position at 4 GiB. Of the sector cache only
  what it makes fail is modelled: faults belong to an entry, or to a link that is written after another entry was
  marked, and stay for the whole call. `f_sync` does not fail.
- FatDriver.Volume.RemoveChain: a write-back of the sector of a released entry that fails when the sector of the next
  entry is fetched, although that entry could be read before, is part of the sector cache left out.
- Directories: control characters in paths, case folding and trailing dots of names, drive prefixes, the current
  directory, long and short name pairs, and `closedir`; a FatFs call that fails is assumed to have had no effect.
- Code pages: the literal tables are parameters with sortedness, inverse and termination as hypotheses.
- Clock: the connectivity-line and value-line branches, external SRAM, the vector table register. The six target
  functions differ in constants only and are one method with the target as parameter. An oscillator that is ready stays
  ready while it is enabled, and its ready flag falls with its enable bit. The two waits without a bound are watched up
  to a read that is a parameter.
- ClockDriver.Rcc.SystemInit: starts from states in which the core runs from the HSI; after a warm start from the PLL
  the code does not wait for the switch back, so nothing is claimed there.
- Interrupt controller: `NVIC_SystemReset`, and the exception entry rules of the core beyond pending, enabled, active.
- Bluetooth: serial reception and sending, delays, `printf`, and writing flash; a received block of more than 50 bytes
  would already overrun the buffer of the task before any of the modelled code. The clock chip advancing by itself is
  an event with arbitrary new registers; it takes part in a whole date transfer or in none of it.
- BluetoothStation.Station.ResponseUpframe: the fixed sample values of the data reply are sent as a constant.
- The real-time operating system, the other peripherals, the remaining protocol code and the 4G modem dialogue.

# Verification of the RW612 platform code

A Dafny model of the low-level platform code under the RW612 EVSE firmware, with proofs of what
that code is for: cache maintenance, local atomic operations, the MPU loader, the clock tree and
its boot sequences, the aligned heap, CRC feeding, delays, PWM and bit reversal. Check it with
`dafny verify dfyconfig.toml`.

Each file models one component; code that updates registers in place is a class whose methods
write the registers in the order of the source, and hardware that acts on its own (evictions,
preemption, locks, malloc) is a nondeterministic choice.

| file | component | main result |
|---|---|---|
| Cache64.dfy, Cache64Driver.dfy, Cache64Runs.dfy, Cache64Sharing.dfy | CACHE64 driver | cached memory refines flat memory, also with any number of buffers shared with DMA; exact coverage of by-range loops |
| LocalAtomics.dfy, LocalAtomicsDriver.dfy | LDREX/STREX loops | linearizable under every interleaving; retries bounded by preemptions; sums add up and a lock has one holder |
| PrimaskAtomics.dfy | PRIMASK fallback | the same specification; the mask is restored |
| MpuLoader.dfy | ARM_MPU_LoadEx | refines a region-by-region load |
| AnalogSupply.dfy | audio PLL and USB supply | no user without supply at any write; no supply without user between calls; channels make the frequencies of the table |
| ClockTree.dfy | frequencies | nearest PLL step; two implementations agree, with the exact exception |
| ClockNames.dfy | connection and divider numbers | packing and decoding are inverse |
| ClockPower.dfy, BootClock.dfy | boot sequences | clocks survive every write, with the exact condition on the state found |
| AlignedHeap.dfy | SDK_Malloc, SDK_Free | alignment, containment, the exact effect of every request of a run, the exact limit of free, no leak |
| CrcEngine.dfy, CrcRemainder.dfy, CrcPolynomials.dfy, CrcCheckValue.dfy | CRC driver | checksums are the remainders of polynomial division, whatever the alignment; exact condition for resuming |
| CycleDelay.dfy | DWT delay | never early, for every count |
| PwmTimer.dfy | CTIMER PWM | accuracy and monotonicity of the duty cycle, tick by tick; exact condition for an output |
| BitReverse.dfy | __RBIT | correct and an involution |
| Bits.dfy | 32-bit words, truncating division, bits | used by the above |

## What the source gets wrong or leaves open

These are results about the code as it is, each with its exact condition.

- By-range cache maintenance misses the last byte of a range when that byte begins a line, and a
  range that starts on the last byte of a region (`Cache64Driver.RangeCoverage`,
  `Cache64Driver.LastByteMissed`). Line-aligned ranges, which the driver's documentation asks for,
  are covered exactly.
- A range that leaves its region is not always clamped to it: in a secure build, given by the
  non-secure alias, the mapped last byte can lie below the first, and nothing is maintained
  (`Cache64Driver.CrossingCoverage`, `Cache64Driver.CrossingSkipped`).
- SDK_Free frees the wrong address for some placements of the block when the alignment is above 65532;
  above 2^31 it depends on what follows the leading ones of the alignment less one
  (`AlignedHeap.ExactAlignments`, `AlignedHeap.ExactUsualAlignments`, `AlignedHeap.WrongFree`): its way back has 16 bits.
- SDK_Malloc takes any alignment, but the pointer is a multiple only of powers of two
  (`AlignedHeap.AlignsExactly`), and for the three largest alignments it accepts the block can be too
  short (`AlignedHeap.ExactBlocks`).
- CLOCK_ConfigAvPllCh and CLOCK_EnableAvPllCh take C8 out of reset, and may start calibration, even
  when the PLL is powered down (`AnalogSupply.Supply.Execute`, `AnalogSupply.ConfigWhileDown`).
- The device header says that SEED is pre-processed like data, while CRC_GetConfig promises that
  its seed resumes a calculation. Both hold together only without reversal and complement of the
  input (`CrcHardware.SeedReloads`, `CrcHardware.SavedSumLost`); loading SEED as it is makes it hold always.
- The audio PLL table's offset for 4.096 MHz does not fit its divider: the channel makes 4 097 186 Hz
  (`AnalogSupply.TableMakes`, `AnalogSupply.OddEntry`). All other entries fit.
- CLOCK_EnableUsbhsPhyClock on a PHY that is already running raises the PLL in the same write as the
  power, instead of after it (`AnalogSupply.Supply.EnableUsbhsPhyClock`).
- The PWM setups clear the reset, stop and interrupt bits of the pulse channel only. A stop bit left on
  the period channel, or on a channel with a match inside the period, or a reset bit on an earlier match,
  leaves no PWM output (`PwmTimer.ExactPwm`, `PwmTimer.LeftoverBit`).
- SystemCoreClockUpdate takes CLKIN from a constant, the driver from a variable
  (`ClockTree.ImplementationsAgree`).
- Both boot sequences set SystemCoreClock to 260 MHz; with a 38.4 MHz crystal the core runs at
  259.2 MHz (`BootClock.BootFrequency`).
- Both boot sequences stop the core if it runs from a T3 output when they start, and if SYSOSCBYPASS
  selects no oscillator; they never write that register (`ClockPower.NoOscillator`). They also put to
  work a gated flash whose source is off or none, or whose divider is halted
  (`ClockPower.GatedOnDeadSource`, `ClockPower.GatedOnNothing`, `ClockPower.GatedOnHaltedDivider`).
  `ClockPower.BootStopsClock` is the whole condition.
- Without code in flash each boot sequence leaves the flash gated without a source, so that the next
  one puts to work a flash without a clock (`BootClock.Board.BootTwice`).
- Both boot sequences set the divider of the FRG before that of the main PLL, whose clock it divides:
  with the main PLL divider halted on entry that wait does not end (`BootClock.Board.BootClockRUN`).

## Assumptions about hardware

- CACHE64: two write-back ways per controller over a line-to-data map; a controller caches only its
  own region; CSAR ignores bit 28; lines may be filled and evicted between any two accesses;
  commands complete; a disabled controller neither fills nor serves lines.
- Local exclusive monitor (Armv8-M Architecture Reference Manual, Arm DDI 0553): cleared by every
  context switch; STREX may fail spuriously, and each such failure is counted. A word is always
  accessed at one width. With PRIMASK set no context switch happens, and no context ends with it set.
- MPU alias registers (same manual, MPU_RBAR_An and MPU_RLAR_An): RBAR and RLAR reach the region in
  RNR, alias n the n-th region of its group of four.
- FlexSPI mux choice 3 is what the header says or what the frequency getter says; the results hold for
  both. Each read of the cycle counter takes a cycle at least.
- PLLs lock, and a clock runs when its PLL is powered, its output gate is open and its divider is not
  halted. A divider acknowledges when the clock that it divides runs; those of the PMU and of SysTick
  divide the main clock. The low-power oscillator and the 32 kHz clock run, and CLKIN is driven when it
  is selected.
- The CRC engine takes a 32-bit write as four byte writes, least significant byte first. It shifts
  by the generators of sections 8.1.1.6.1 and 8.1.1.6.2 of ITU-T V.42 and by x^16+x^15+x^2+1.
- The counter of the CTIMER stops or restarts at 0 at a match whose stop or reset bit is set and else
  counts in 32 bits, one tick per prescaler turn. The PWM output is high from the pulse match to the end
  of the period.
- A channel of the audio PLL divides 1620 MHz by its divider, in halves, and by 1 plus its offset in units
  of 2^-22, which is negative when bit 18 is set: this gives the frequencies that board/clock_config.c:60-97
  lists for two of the entries. An offset is taken over when its ready bit is set.
- malloc returns NULL, whenever it likes, or any free stretch of the 32-bit address space.

## Model

| member | source | states |
|---|---|---|
| Cache64Hardware.MaintainKeeps | RW612 EVSE/drivers/fsl_cache.c:214-230 | writing lines back and dropping lines that are written back or clean changes no byte the CPU sees, keeps "a disabled cache holds nothing dirty", and leaves the chosen lines in step with memory |
| Cache64Hardware.CompleteKeeps | RW612 EVSE/drivers/fsl_cache.c:214-230 | a whole-cache command leaves the CPU's view alone unless it invalidates without cleaning |
| Cache64Hardware.StoreView | RW612 EVSE/drivers/fsl_cache.c:180-210 | a CPU store changes exactly its line in the CPU's view, whether it hits, allocates or bypasses |
| Cache64Driver.CacheSystem.GetInstanceByAddr | RW612 EVSE/drivers/fsl_cache.c:89-112 | the controller whose region, less its last byte, holds the address, and the alias index left in the global |
| Cache64Driver.CacheSystem.RunCommand | RW612 EVSE/drivers/fsl_cache.c:214-230 | a command runs to completion under evictions and fills, achieves its effect, and no command bit stays set |
| Cache64Driver.CacheSystem.EnableCache | RW612 EVSE/drivers/fsl_cache.c:180-192 | the CPU's view survives enabling, although every line is dropped |
| Cache64Driver.CacheSystem.DisableCache | RW612 EVSE/drivers/fsl_cache.c:197-208 | the CPU's view survives disabling, and nothing dirty is left behind |
| Cache64Driver.CacheSystem.InvalidateCache | RW612 EVSE/drivers/fsl_cache.c:214-225 | only lines of this controller may fall back to memory; all of them are then in step with it |
| Cache64Driver.CacheSystem.CleanCache | RW612 EVSE/drivers/fsl_cache.c:301-312 | the view is unchanged and nothing is dirty |
| Cache64Driver.CacheSystem.CleanInvalidateCache | RW612 EVSE/drivers/fsl_cache.c:388-400 | the view is unchanged and every line is in step with memory |
| Cache64Driver.CacheSystem.IssueLines | RW612 EVSE/drivers/fsl_cache.c:283-294 | the loop stores each line start to CSAR once, in ascending order, without 32-bit wrap, and ends |
| Cache64Driver.CacheSystem.CacheByRange | RW612 EVSE/drivers/fsl_cache.c:238-296 | early returns, clamping and alignment: exactly the commands of the specification are issued, and their effect on the CPU's view is exact |
| Cache64Driver.CacheSystem.InvalidateCacheByRange | RW612 EVSE/drivers/fsl_cache.c:238-296 | only the lines of the range may fall back to memory, and they are then in step with it |
| Cache64Driver.CacheSystem.CleanCacheByRange | RW612 EVSE/drivers/fsl_cache.c:325-383 | the view is unchanged and memory holds, on the lines of the range, what the CPU saw |
| Cache64Driver.CacheSystem.CleanInvalidateCacheByRange | RW612 EVSE/drivers/fsl_cache.c:414-471 | the view is unchanged and the lines of the range are in step with memory |
| Cache64Driver.RangeCoverage | RW612 EVSE/drivers/fsl_cache.c:238-295 | for any range inside a region, a byte's line is reached if and only if it is not the last byte sitting on a line start, and the range does not begin on the region's last byte |
| Cache64Driver.LastByteMissed | RW612 EVSE/drivers/fsl_cache.c:238-295 | 33 bytes at 0x08000000, whose last byte is missed, and the last byte of the region by itself |
| Cache64Driver.AlignedCoverage | RW612 EVSE/drivers/fsl_cache.c:227-295 | a line-aligned, non-empty range inside a region is covered exactly |
| Cache64Driver.ClampedCoverage | RW612 EVSE/drivers/fsl_cache.c:238-295 | for any size a byte of the region is covered if and only if its line starts below the clamped last byte |
| Cache64Driver.CrossingCoverage | RW612 EVSE/drivers/fsl_cache.c:250-267 | a range is maintained to the end of its region if and only if its last byte, mapped as the driver maps it, lies beyond the start of the region's last line |
| Cache64Driver.CrossingSkipped | RW612 EVSE/drivers/fsl_cache.c:250-284 | a concrete range, given by its non-secure alias in a secure build, that is not maintained at all |
| Cache64Driver.LineStartsAre | RW612 EVSE/drivers/fsl_cache.c:283-294 | the commands are the line starts in order, below the end, up to the end |
| Cache64Runs.Perform | RW612 EVSE/drivers/fsl_cache.c:180-471 | every DMA-free operation acts on the CPU's view as it would on flat memory |
| Cache64Runs.Execute | RW612 EVSE/drivers/fsl_cache.c:180-471 | every DMA-free program of accesses and maintenance reads from the cached memory exactly what it reads from flat memory |
| Cache64Runs.Transmit | RW612 EVSE/drivers/fsl_cache.c:325-383 | after a clean by range DMA reads exactly what the CPU wrote to a line-aligned buffer, in any order and any number of times, whatever is evicted, filled or written elsewhere meanwhile |
| Cache64Runs.Receive | RW612 EVSE/drivers/fsl_cache.c:238-471 | between clean-invalidate and invalidate no eviction overwrites what DMA wrote, and the CPU then reads exactly that, as with flat memory |
| Cache64Sharing.HandOff | RW612 EVSE/drivers/fsl_cache.c:238-471 | cleaning hands a buffer to an engine that reads it, cleaning and invalidating to one that writes it, and invalidating takes it back, beside any other buffers in use |
| Cache64Sharing.Maintenance | RW612 EVSE/drivers/fsl_cache.c:180-471 | enabling, disabling and cleaning, of any lines, disturb neither the CPU nor a DMA engine at work |
| Cache64Sharing.Execute | RW612 EVSE/drivers/fsl_cache.c:180-471 | in any run of CPU accesses, maintenance, hand-offs and DMA transfers over any number of buffers, CPU and engines see exactly what they would see in one flat memory |
| Cache64Sharing.AllBack | RW612 EVSE/drivers/fsl_cache.c:238-296 | once every buffer is back the CPU sees flat memory everywhere |
| AtomicSpec.UpdatedBit | RW612 EVSE/drivers/fsl_common_arm.h:155-237 | set, clear, toggle and clear-and-set, bit by bit, at all three widths |
| AtomicSpec.EffectMeans | RW612 EVSE/drivers/fsl_common_arm.h:113-237 | what each of the eight operations does to its word and returns, in plain terms: sum, difference, bits, comparison, exchange; the word keeps its width and no other changes |
| AtomicSpec.AdditionsAddUp | RW612 EVSE/drivers/fsl_common_arm.h:113-132 | however additions and subtractions of a word interleave, none is lost, modulo the width |
| AtomicSpec.CompletedCallTookEffect | RW612 EVSE/drivers/fsl_common_arm.h:1056-1142 | at one moment of the history a completed call did to the word it found what its operation means, returned accordingly, and left every other word alone |
| AtomicSpec.LockHeldOnce | RW612 EVSE/drivers/fsl_common_arm.h:1056-1142 | a lock taken by TEST_AND_SET and released by COMPARE_AND_SET is never held twice nor released unheld, in any history |
| AtomicSpec.OneWinner | RW612 EVSE/drivers/fsl_common_arm.h:1108-1142 | of any number of completed TEST_AND_SET calls on a free word exactly the first in the history finds it free |
| AtomicLoops.NextKeepsInv | RW612 EVSE/drivers/fsl_common_arm.h:92-111 | every step of every context keeps the history, the exclusive monitor and the retry account in order |
| AtomicLoops.EveryRunLinearizable | RW612 EVSE/drivers/fsl_common_arm.h:92-237 | under every interleaving of threads and nested interrupts the calls are linearizable, and a call retries no more often than it was hit by a switch between LDREX and STREX, plus spurious failures; these are no more than the run has |
| AtomicDriver.Core.Preempt | RW612 EVSE/drivers/fsl_common_arm.h:92-111 | whatever other contexts do while this one is switched out, its own call stands where it stood and the monitor is gone |
| AtomicDriver.Core.Atomic | RW612 EVSE/drivers/fsl_common_arm.h:1056-1142 | the do/while loop ends under finitely many preemptions; the last completion carries this call's own new id, its value and a place after everything completed before, in a linearizable history in which it did what its operation means |
| PrimaskAtomics.NextKeepsInv | RW612 EVSE/drivers/fsl_common_arm.h:290-351 | the fallback keeps the history and the critical section under every step |
| PrimaskAtomics.EveryRunLinearizable | RW612 EVSE/drivers/fsl_common_arm.h:290-351 | the fallback meets the same specification under every interleaving and nesting, and each return restores the mask the call found |
| PrimaskAtomics.Core.DisableGlobalIRQ | RW612 EVSE/drivers/fsl_common_arm.h:908-922 | returns the mask found and sets it, even if preempted between the two instructions |
| PrimaskAtomics.Core.EnableGlobalIRQ | RW612 EVSE/drivers/fsl_common_arm.h:934-946 | puts the mask back |
| PrimaskAtomics.Core.Atomic | RW612 EVSE/drivers/fsl_common_arm.h:1145-1175 | one masked call: the last completion carries its own new id and its value, it did what its operation means, and PRIMASK is as before |
| Bits.BitwiseBit | RW612 EVSE/drivers/fsl_common_arm.h:155-237 | the integer bit operations act on each bit alone |
| MpuLoader.SetInTurnIs | RW612 EVSE/CMSIS/mpu_armv8.h:255-260 | setting the regions of a table in turn puts entry i in region rnr+i and leaves the others alone |
| MpuLoader.LoadsCompose | RW612 EVSE/CMSIS/mpu_armv8.h:304-327 | one load or two, cut anywhere, come to the same |
| MpuLoader.InGroup | RW612 EVSE/CMSIS/core_cm33.h:1449-1472 | the alias window stays in the group of four that RNR is in, alias n at its n-th region |
| MpuLoader.Mpu.StoreWord | RW612 EVSE/CMSIS/core_cm33.h:1449-1472 | one register of the alias window reaches one half of one region |
| MpuLoader.Mpu.SetRegionEx | RW612 EVSE/CMSIS/mpu_armv8.h:255-260 | exactly one region changes |
| MpuLoader.Mpu.OrderedMemcpy | RW612 EVSE/CMSIS/mpu_armv8.h:289-296 | the words of a part of the table, in order, amount to setting its regions in turn |
| MpuLoader.Mpu.LoadEx | RW612 EVSE/CMSIS/mpu_armv8.h:304-327 | for every first region, table and count (0 and 1 included) the bulk load equals setting the regions in turn; the window loop ends with RNR at the group of the last region |
| AnalogSupply.MeansOne | RW612 EVSE/drivers/fsl_clock.c:43-86 | the table's dividers are distinct, so a divider determines its frequency |
| AnalogSupply.MeansUnique | RW612 EVSE/drivers/fsl_clock.c:478-517 | a frequency getter has one answer |
| AnalogSupply.TableMakes | RW612 EVSE/drivers/fsl_clock.c:34-89 | frequency, divider and offset of every entry fit the PLL to less than one unit of the offset, except those of 4.096 MHz |
| AnalogSupply.OddEntry | RW612 EVSE/drivers/fsl_clock.c:38-66 | that entry makes 4 097 186 Hz |
| AnalogSupply.Tuned | RW612 EVSE/drivers/fsl_clock.c:1350-1385 | feedback divider and C8 offset give 1620 MHz from either crystal |
| AnalogSupply.Supply.GetAvPllCh1Freq | RW612 EVSE/drivers/fsl_clock.c:478-495 | the table frequency of the divider in use, 0 when no entry has it |
| AnalogSupply.Supply.GetAvPllCh2Freq | RW612 EVSE/drivers/fsl_clock.c:500-517 | the same for channel 2 |
| AnalogSupply.Supply.ConfigAvPll | RW612 EVSE/drivers/fsl_clock.c:1350-1385 | the PLL fields for the crystal, which tune it to 1620 MHz from either; channels and supply untouched |
| AnalogSupply.Supply.EnableAvPllCh | RW612 EVSE/drivers/fsl_clock.c:1440-1522 | the chosen channels are up, out of reset and run on the offset in their registers, and so does C8; exactly one calibration if it is wanted, finished or given 600 us, none left running; the order of the steps is kept if and only if the PLL is powered |
| AnalogSupply.Supply.DisableAvPllCh | RW612 EVSE/drivers/fsl_clock.c:1528-1545 | exactly the chosen channels are down and in reset |
| AnalogSupply.Supply.InitAvPll | RW612 EVSE/drivers/fsl_clock.c:1550-1581 | from any settled state the PLL, both channels and the supply run, tuned, each channel making its table frequency (4.096 MHz excepted); every write kept the supply rules |
| AnalogSupply.Supply.DeinitAvPll | RW612 EVSE/drivers/fsl_clock.c:1585-1604 | the PLL is down, and the analog group is up exactly if USB uses it |
| AnalogSupply.Supply.ConfigAvPllCh | RW612 EVSE/drivers/fsl_clock.c:1611-1643 | each channel stays up or down, dividers change only on channels that are down, an unchanged channel is not touched, a changed one makes its table frequency (4.096 MHz excepted), exactly one calibration, within a bounded wait; C8 is taken out of reset under a PLL that is down if and only if something changes while it is |
| AnalogSupply.Supply.EnableUsbhsPhyClock | RW612 EVSE/drivers/fsl_clock.c:1649-1683 | USB is powered under a powered analog group and its PHY reset, also when it was already running; the PLL is raised after the power, if and only if it was not raised before |
| AnalogSupply.Supply.DisableUsbhsPhyClock | RW612 EVSE/drivers/fsl_clock.c:1688-1706 | USB is down, and the analog group stays up exactly if the audio PLL uses it |
| AnalogSupply.Supply.Reconfigure | RW612 EVSE/drivers/fsl_clock.c:478-517 | after a reconfiguration the getters give the table frequency of a changed channel and the old one of an unchanged channel |
| AnalogSupply.Supply.Execute | RW612 EVSE/drivers/fsl_clock.c:1414-1706 | in any run, at every register write, a powered user has a powered analog group and a PLL or channel out of reset is powered; between calls the group is up exactly while it has a user and whatever is out of reset runs on the offset in its register; C8, calibration and channels follow the PLL and no divider of a running channel changes, if and only if nothing is enabled or reconfigured while the PLL is down |
| AnalogSupply.ConfigWhileDown | RW612 EVSE/drivers/fsl_clock.c:1611-1643 | out of reset, a new frequency before initialization leaves C8 out of reset under a PLL that is down |
| ClockTree.ChooseTcpuStep | RW612 EVSE/drivers/fsl_clock.c:1177-1214 | for every 32-bit target and both crystals: a legal divider, the frequency is divider times crystal, none is nearer, nothing wraps, and the readback agrees |
| ClockTree.ReadbackIsProduct | RW612 EVSE/drivers/fsl_clock.c:176-201 | the readback is divider times crystal and its assertion passes exactly for the legal dividers |
| ClockTree.ImplementationsAgree | RW612 EVSE/device/system_RW612.c:137-246 | where the driver's assertions pass, SystemCoreClockUpdate sets what CLOCK_GetCoreSysClkFreq returns if and only if the core does not run from a CLKIN whose declared frequency rounds differently from CLK_EXT_CLKIN |
| ClockTree.AgreeOnDeclaredClkin | RW612 EVSE/device/system_RW612.c:172-175 | with g_clkinFreq at CLK_EXT_CLKIN they always agree |
| ClockTree.PllPathRoundsOnce | RW612 EVSE/drivers/fsl_clock.c:519-597 | on the PLL path the nested truncating divisions equal one division |
| ClockTree.MainClockRates | RW612 EVSE/drivers/fsl_clock.c:519-597 | the rate of each source of the main clock, in numbers |
| Arithmetic.DivDiv | RW612 EVSE/drivers/fsl_clock.c:519-522 | truncating twice is truncating once |
| ClockNames.TupleDecodes | RW612 EVSE/drivers/fsl_clock.h:229-235 | every 16-bit tuple of register, choice and bank decodes to what it was made of |
| ClockNames.PairDecodes | RW612 EVSE/drivers/fsl_clock.h:229-235 | a connection of any two tuples stands for exactly those two mux writes, in order |
| ClockNames.SingleDecodes | RW612 EVSE/drivers/fsl_clock.h:229-235 | a connection of one tuple stands for that one write |
| ClockNames.PmuDecodes | RW612 EVSE/drivers/fsl_clock.h:240-243 | the same for connections of the power management unit |
| ClockNames.ClkoutDecodes | RW612 EVSE/drivers/fsl_clock.h:237-238 | the same for the three muxes of CLKOUT |
| ClockNames.DivNameDecodes | RW612 EVSE/drivers/fsl_clock.h:519-542 | a divider name leads to its register |
| BootClock.Board.AttachClk | RW612 EVSE/drivers/fsl_clock.c:359-401 | the loop over the 32-bit number writes exactly the muxes it stands for, in order; the clocks stay if and only if they stay through each write |
| BootClock.Board.SetClkDiv | RW612 EVSE/drivers/fsl_clock.c:408-435 | the named register halts on 0 and else divides, and no other changes, FlexSPI's own divider included; the clocks stay if and only if the new state feeds them and the divider of an enabled flash does not change; the wait ends if and only if the divided clock runs |
| BootClock.Board.InitT3RefClk | RW612 EVSE/drivers/fsl_clock.c:1306-1330 | restarting T3 stops a clock exactly when it was running and the core or a flash in use depends on it |
| BootClock.Board.DeinitT3RefClk | RW612 EVSE/drivers/fsl_clock.c:1335-1348 | the same for stopping T3 |
| BootClock.Board.InitTcpuRefClk | RW612 EVSE/drivers/fsl_clock.c:1223-1243 | the nearest divider, and no clock stops unless it depends on TCPU |
| BootClock.Board.InitTddrRefClk | RW612 EVSE/drivers/fsl_clock.c:1266-1284 | no clock stops unless it depends on TDDR |
| BootClock.Board.DeinitTddrRefClk | RW612 EVSE/drivers/fsl_clock.c:1288-1301 | no clock stops unless it depends on TDDR |
| BootClock.Board.DeinitFlash | RW612 EVSE/board/board.c:207-221 | FlexSPI is ungated, enabled and disabled; no clock is missing if and only if the flash has a source and its divider is not halted |
| BootClock.Board.SetFlexspiClock | RW612 EVSE/board/board.c:282-306 | source and divider change only while the module is disabled; nothing happens when they are in place, a halt included; else no clock is missing if and only if the old and the new root clock run, and a halt ends |
| BootClock.Board.ClockPreConfig | RW612 EVSE/board/board.c:403-424 | the flash ends on T3 256M / 4, or gated without a source when no code runs from it, and exactly when no clock is missing on the way |
| BootClock.Board.ClockPostConfig | RW612 EVSE/board/board.c:427-437 | the flash ends on the auxiliary PLL / 2 when code runs from it, and exactly when no clock is missing on the way |
| BootClock.Board.BootClockRUN | RW612 EVSE/board/clock_config.c:122-173 | from any state with running clocks, every write keeps the core and a flash in use clocked if and only if there is a system oscillator, neither depends on T3, the divider of the flash is not halted, and its source, used or not, is not dead by then (none is a dead source); every divider wait ends if and only if the main PLL divider is not halted; the final state: core frequency, SystemCoreClock, flash clock, T3 with FFRO at 48.3 MHz, open outputs, slow clocks, dividers and audio PLL |
| BootClock.Board.BootClockLPR | RW612 EVSE/board/clock_config.c:232-278 | the same for the low-power sequence, which leaves the audio PLL off |
| BootClock.Board.BootTwice | RW612 EVSE/board/clock_config.c:122-278 | the second sequence after the first keeps the clocks if and only if code runs from the flash |
| ClockPower.AfterRestart | RW612 EVSE/board/clock_config.c:138-143 | from any state with running clocks, the flash source runs after T3 is restarted and its outputs opened again if and only if it is not one of the dead sources, none among them |
| ClockPower.SysOscAttached | RW612 EVSE/board/clock_config.c:145 | the core moves to the system oscillator safely if and only if SYSOSCBYPASS selects one |
| ClockPower.NoOscillator | RW612 EVSE/board/clock_config.c:145 | a core on the main PLL and a flash on the auxiliary one, with SYSOSCBYPASS at 7: the sequences stop the core whatever the PLLs do |
| ClockPower.GatedOnDeadSource | RW612 EVSE/board/board.c:207-221 | a gated flash set to a PLL that is off: the sequences put it to work |
| ClockPower.GatedOnNothing | RW612 EVSE/board/board.c:403-424 | a gated flash without a source, as a boot without code in flash leaves it: the sequences put it to work |
| ClockPower.GatedOnHaltedDivider | RW612 EVSE/board/board.c:282-306 | a gated flash on a running source whose own divider is halted: the sequences put it to work |
| BootClock.BootFrequency | RW612 EVSE/board/clock_config.c:148-172 | both sequences end at 260 MHz with a 40 MHz crystal and at 259.2 MHz with 38.4 MHz, SystemCoreClock being 260 MHz in both cases |
| BootClock.BootStep | RW612 EVSE/board/clock_config.c:148 | 3120 MHz is divider 78 of 40 MHz; the nearest at 38.4 MHz is divider 81 |
| AlignedHeap.AlignsUp | RW612 EVSE/drivers/fsl_common_arm.h:418-419 | for powers of two SDK_SIZEALIGN is the next multiple, and less than its argument when that does not fit in 32 bits |
| AlignedHeap.GrowsTo | RW612 EVSE/drivers/fsl_common_arm.h:418-419 | for any alignment it rounds up by less than the alignment, or falls below its argument |
| AlignedHeap.AlignsExactly | RW612 EVSE/drivers/fsl_common_arm.h:418-419 | it gives a multiple for every argument if and only if the alignment is a power of two |
| AlignedHeap.Heap.BlockSize | RW612 EVSE/drivers/fsl_common.c:30-48 | for every alignment up to SIZE_MAX - 4 malloc is asked, for the rounded size, the alignment and the header, if and only if that fits in 32 bits |
| AlignedHeap.WhatIsGranted | RW612 EVSE/drivers/fsl_common.c:30-48 | for powers of two that is the next multiple of the size, the alignment and 4 bytes, and it is asked for exactly if it fits in 32 bits |
| AlignedHeap.NeededBounds | RW612 EVSE/drivers/fsl_common.c:30-48 | for any such alignment the block holds payload, alignment and header with less than one alignment to spare, and no request is refused for which that fits |
| AlignedHeap.ExactBlocks | RW612 EVSE/drivers/fsl_common.c:35-48 | no size gives a block that is too short if and only if the alignment is not one of the three values below SIZE_MAX whose sum with the header wraps |
| AlignedHeap.Heap.SdkMalloc | RW612 EVSE/drivers/fsl_common.c:25-69 | for every such alignment malloc is asked exactly as `AlignedHeap.Heap.BlockSize` says; NULL if and only if it is not asked or refuses, and then nothing else changed; else a pointer whose header and payload lie in the fresh block, aligned if the alignment is a power of two |
| AlignedHeap.Heap.SdkFree | RW612 EVSE/drivers/fsl_common.c:71-89 | the address given to free is the one malloc returned if and only if the pointer is less than 65536 bytes from it; otherwise it lies inside the block |
| AlignedHeap.Heap.Execute | RW612 EVSE/drivers/fsl_common.c:25-89 | in any run of requests with alignments up to 65532 each does exactly what it should: NULL only when malloc cannot be asked or refuses, or one new sound loan in a new block; the loan and its own block gone; one byte written. When all loans are back no block is left |
| AlignedHeap.Heap.Perform | RW612 EVSE/drivers/fsl_common.c:25-89 | the exact effect of one request on heap, memory, loans and what malloc is asked |
| AlignedHeap.PayloadSurvives | RW612 EVSE/drivers/fsl_common.c:25-89 | in such a run a written byte stays until its holder writes it again or gives the pointer back, whatever the others do |
| AlignedHeap.ExactAlignments | RW612 EVSE/drivers/fsl_common.c:66-86 | for every alignment up to SIZE_MAX - 4, SDK_Free frees what malloc returned, wherever that is, if and only if the 32-bit mask alignment - 1, stripped of its leading ones, is below 65532 or at most 17 bits wide |
| AlignedHeap.ExactUsualAlignments | RW612 EVSE/drivers/fsl_common.c:66-86 | up to 2^31 these are the alignments up to 65532, and of the powers of two those up to 32768 |
| AlignedHeap.WrongFree | RW612 EVSE/drivers/fsl_common.c:66-86 | a block at 65536 for an alignment of 65536: 131072 is freed |
| Bits.ClearLow | RW612 EVSE/drivers/fsl_common_arm.h:418-419 | masking off low bits rounds down to a multiple |
| CrcHardware.FeedAppends | RW612 EVSE/drivers/fsl_crc.c:155-185 | feeding a then b is feeding a followed by b |
| CrcHardware.FeedKeepsApart | RW612 EVSE/drivers/fsl_crc.c:125-145 | two sums are equal after the same data if and only if they were equal before |
| CrcHardware.SeedReloads | RW612 EVSE/device/periph/PERI_CRC.h:147-150 | every raw sum loads back if and only if SEED is not pre-processed, by the hardware or by the configuration |
| CrcDriver.Crc.GetConfig | RW612 EVSE/drivers/fsl_crc.c:125-145 | the configuration with the raw sum as seed; the engine is left as it was |
| CrcDriver.Crc.WriteWord | RW612 EVSE/drivers/fsl_crc.c:169-174 | a little-endian word is four byte writes |
| CrcDriver.Crc.WriteData | RW612 EVSE/drivers/fsl_crc.c:155-185 | for every buffer alignment and length exactly the bytes of the buffer, in order, each once, and words are loaded from aligned addresses only; what is left is the remainder of the message by the generator |
| CrcDriver.Crc.Checksum | RW612 EVSE/source/ext_afe_mkm.c:262-271 | seed, data and a read of SUM give the checksum of the message, as polynomial division defines it |
| CrcRemainder.FeedIsRemainder | RW612 EVSE/drivers/fsl_crc.h:52-57 | from any seed, for every message and mode, the sum is the remainder of seed and message by the generator over the field of two elements, and the only one |
| CrcRemainder.PostIs | RW612 EVSE/device/periph/PERI_CRC.h:84-140 | what is shown of a sum: turned round if reversed, each bit flipped if complemented |
| CrcRemainder.ChecksumIs | RW612 EVSE/drivers/fsl_crc.c:155-185 | there is exactly one checksum of a message, and the engine shows it |
| BinaryPolynomials.RemainderUnique | RW612 EVSE/drivers/fsl_crc.h:52-57 | a remainder of smaller degree is unique |
| CrcCheckValue.CheckValue | RW612 EVSE/drivers/fsl_crc.h:44-54 | the check value 0x29B1 of CRC-16/CCITT-FALSE |
| CrcDriver.Crc.SuspendResume | RW612 EVSE/drivers/fsl_crc.c:48-185 | write a, save, use the engine otherwise, resume, write b: the sum of writing a followed by b, if and only if the saved sum loads back as it is |
| CrcHardware.SavedSumLost | RW612 EVSE/device/periph/PERI_CRC.h:147-150 | a sum of 1 saved with the input reversed comes back as 128 where SEED is pre-processed |
| CrcDriver.BytesOfWord | RW612 EVSE/drivers/fsl_crc.c:169-174 | a word loaded from the buffer consists of its four bytes |
| CycleDelay.EveryCountSafe | RW612 EVSE/drivers/fsl_common_arm.c:210-238 | for every count up to UINT32_MAX, counter start and polling schedule whose reads take a cycle each, the delay does not end early, across the wrap of the counter |
| CycleDelay.DelayLongEnough | RW612 EVSE/drivers/fsl_common_arm.c:220-238 | below UINT32_MAX the reads may even take no time |
| CycleDelay.TimelessReads | RW612 EVSE/drivers/fsl_common_arm.c:224-237 | an idealisation: if reads took no time, every schedule would be safe exactly for counts below UINT32_MAX or a counter starting at 0 |
| CycleDelay.CounterAfter | RW612 EVSE/drivers/fsl_common_arm.c:222-237 | the counter after fewer cycles than a full turn |
| CycleDelay.Core.DelayCycles | RW612 EVSE/drivers/fsl_common_arm.c:220-238 | the two polling loops end exactly where the specification says |
| CycleDelay.UsecToCount | RW612 EVSE/drivers/fsl_common_arm.h:359 | the 64-bit computation loses nothing but the fraction of a cycle |
| CycleDelay.Core.DelayAtLeastUs | RW612 EVSE/drivers/fsl_common_arm.c:210-238 | when the delay ends, all whole cycles of the time asked for have passed |
| PwmTimer.DutyAccuracy | RW612 EVSE/drivers/fsl_ctimer.c:250-258 | high time, counted tick by tick, is at least the duty cycle and less than two ticks more; 0% and 100% are exact |
| PwmTimer.DutyMonotone | RW612 EVSE/drivers/fsl_ctimer.c:386-395 | more duty, no less high time |
| PwmTimer.PeriodAccuracy | RW612 EVSE/drivers/fsl_ctimer.c:215-248 | the period is the longest whole number of ticks that fits the frequency |
| CtimerHardware.ExactSweep | RW612 EVSE/drivers/fsl_ctimer.c:226-245 | with the reset bit of the period channel set the counter sweeps the period for ever, from anywhere in it, if and only if no channel stops it within the period or resets it before its end |
| CtimerHardware.HighInPeriod | RW612 EVSE/drivers/fsl_ctimer.c:260-275 | the output is then equally long high in any stretch of one period |
| PwmTimer.ExactPwm | RW612 EVSE/drivers/fsl_ctimer.c:226-245 | after a setup there is a PWM output if and only if the channels that it leaves alone were free of the period |
| PwmTimer.LeftoverBit | RW612 EVSE/drivers/fsl_ctimer.c:226-245 | a stop bit left on the period channel, or a reset bit on an earlier match: there is none |
| PwmTimer.Ctimer.SetupPwm | RW612 EVSE/drivers/fsl_ctimer.c:197-283 | fails, changing nothing, exactly when the timer is too slow or the channels coincide; the guarded overflow does not occur; otherwise the whole new state, and the output is high as long as it should be in every period if and only if the channels left alone do not stop the counter or reset it too early |
| PwmTimer.Ctimer.SetupPwmPeriod | RW612 EVSE/drivers/fsl_ctimer.c:306-360 | fails, changing nothing, exactly when the channels coincide; otherwise the whole new state, with the same condition |
| PwmTimer.Ctimer.UpdatePwmDutycycle | RW612 EVSE/drivers/fsl_ctimer.c:375-410 | the match value of a setup with that duty cycle; fails exactly for 0% of a full 32-bit period |
| PwmTimer.Ctimer.SetupThenAdjust | RW612 EVSE/drivers/fsl_ctimer.c:197-410 | after a setup and any number of updates the output has the last duty cycle at the setup's frequency, in any stretch of one period, under the same condition |
| BitReverse.Rbit | RW612 EVSE/CMSIS/cmsis_gcc.h:274-293 | bit i of the result is bit 31-i of the input, despite the unmasked start and the early exit |
| BitReverse.PartialDone | RW612 EVSE/CMSIS/cmsis_gcc.h:282-290 | leaving the loop early is made up for by the final shift |
| BitReverse.RbitTwice | RW612 EVSE/CMSIS/cmsis_gcc.h:274-293 | the reversal is its own inverse |

## Left out

- The application layer (J1772 state machine, metrology, OCPP, Wi-Fi, display): described in the repository's README, not part of this model.
- Pin muxing, interrupt priorities, saturation and other single-expression helpers: they would only add easy members.
- CACHE64 write buffer and region policy registers: their effect on memory is not defined in the driver or its headers.
- CPU accesses by other contexts in the middle of a cache driver call: the driver does not guard against them, and Disable would lose their writes.
- Cache64Sharing.Execute: invalidating lines that no engine writes loses what the CPU wrote there, as the source means it to, and is no event of these runs; `Cache64Driver.CacheSystem.InvalidateCacheByRange` says what it does.
- CACHE64 speculative fills are arbitrary fills; memory ordering, write buffers and barriers are not modelled.
- Cache64Driver.CacheSystem.CacheByRange: stands for the three by-range functions, whose bodies differ in the line command only; the build's single alias column is assumed, and the optional remapping of alias columns is not modelled.
- AtomicLoops.EveryRunLinearizable: words are independent objects; overlapping accesses of different widths are not modelled.
- PrimaskAtomics.EveryRunLinearizable: code outside the operations may set and clear PRIMASK but, as the assumption says, never yields with it set.
- REFCLK gates of TCPU, TDDR and the audio PLL (bits 28 to 30): Deinit closes them and Init never opens them, so their effect on the PLLs cannot be what their names say.
- CLKCTL1_TUPLE_MUXB: the macro shifts its choice out of the word; no connection uses it.
- AnalogSupply.Supply.EnableAvPllCh: its contract bounds the delays in sum; that each single one suits the device is not modelled.
- BootClock.Board.SetClkDiv: the reset bit is a write without effect, and a wait for a divider that neither boot sequence sets is taken to end.
- BootClock.Board.StartBoot: REFCLK_SYS is opened first, as in the source, but nothing in the model depends on its gate.
- BootClock.Board.ClockPreConfig: OTP reads, voltage and glitch-detector setup are foreign code and are assumed to leave the clocks alone.
- BootClock.Board.DeinitFlash: FlexSPI idle polling, its reset and the DLL lock of InitFlash are device I/O; InitFlash leaves the module enabled.
- AlignedHeap.Heap.SdkMalloc: for the three alignments that `AlignedHeap.ExactBlocks` excludes nothing is promised of the heap.
- AlignedHeap.Heap.Execute: a client that breaks the rules (a free of what it does not hold, a write outside its payload, an alignment from 65533 to SIZE_MAX - 1) is not modelled.
- AlignedHeap.Heap.SdkFree: pointers that SDK_Malloc never returned are not modelled, nor is what free does with a wrong address.
- CrcDriver.Crc.SuspendResume: registers are bit sequences; CRC_Reset, CRC_WriteSeed and the result getters are left out as single writes and reads.
- CycleDelay.Core.DelayAtLeastUs: a counter that is never seen at the right moment leaves the delay waiting, as in the source; no upper bound is claimed.
- CLOCK_DelayUs: its loop count truncates, so only the amount of microseconds asked for is recorded.
- PwmTimer.Ctimer.SetupPwm: callbacks and the interrupt controller are reduced to one enable flag; 16-bit timers are not modelled.
- BitReverse.Rbit: words are sequences of 32 bits; the assembly variant is not modelled.

# NI ELVIS III academic I/O driver, modelled in Dafny

This project models the host-side logic of the NI ELVIS III Python driver.
That is `nielvis/academicIO.py`, plus the older copy of it,
`source/nielvisiii/academicIO.py`.

The driver's transport (the nifpga session, its registers and DMA FIFOs)
becomes an abstract FPGA. It is a map from register to value, in which a
write is immediately readable. It also has one sample sequence per bank and
direction, and a trace of every host access (`Hardware.Fpga`). The
class-level dictionaries `number_of_n_sample`, `dma` and
`is_continuous_started` become a `Registry` object shared by every session of
a class.

On top of that abstraction the model covers:

- **Analog-input configuration** (`AIConfig`): validation of the
  configuration dictionaries, the scan-table word and slot of a channel, the
  bank-ordered `channel_list`, and each bank's twelve-slot scan table.
- **Analog-input sessions** (`AIEngine`, `AISession`):
  - `read` dispatch on arity;
  - single-point reads, including the lost-patch behaviour of
    `__get_cnfgval`;
  - n-sample reads: arm, chunked FIFO drain, de-interleave, disarm;
  - continuous start with its two-bank ordering, continuous reads under a
    timeout budget, stop and close with the shared reference counts.
- **Analog output** (`AOSession`): dictionary validation, the per-bank
  DMA_ENA bitmask, the chunked FIFO writer driven by the reported headroom,
  single-point writes, registration and `close`.
- **Quantizers**:
  - `calculate_sample_rate_to_ticks` (`SampleRate`);
  - `calculate_clock_settings` (`Clock`) with exact rationals and Python's
    half-to-even `round` (`Rationals`);
  - its callers `PWM.generate` and `SPI.configure` (`PwmSpi`).
- **Register bit fields**, on Python's bitwise operators defined bit by bit
  (`Bits`):
  - `clear_sys_select` / `set_sys_select` and the routing each peripheral
    constructor writes (`SysSelect`);
  - DIO masks (`Dio`);
  - the encoder counter decode and reset pulse (`Encoder`);
  - `LEDs.write` (`Leds`);
  - I2C control words, address byte and transfer outcome (`I2c`);
  - DIIRQ / AIIRQ configuration (`Irq`).
- **The older copy** (`LegacyAI`, `LegacyClock`, `LegacyIO`):
  - its analog-input constructor and read, with slot 7 + c;
  - its Python 2 clock quantizer, which overwrites `requested_frequency`;
  - its OR-only SYS.SELECT updates and its digital lines;
  - its SPI configuration, which uses that quantizer in phase-correct mode.

`LEDs.write`, the I2C transfers, the encoder read and the interrupt
constructors are the same in both copies, apart from the differences listed
under "## Left out". One module models both.

## Model

| member | source | states |
|---|---|---|
| AIConfig.Validate | nielvis/academicIO.py:126-160 | A dictionary is accepted exactly when it has `bank` and `channel`, its bank is a Bank member, its channel is within AI0-AI7 (single-ended, the default mode) or AI0-AI3 (differential), and any range is an AIRange member. The first failing check in that order names the error. An accepted channel keeps its bank, channel and mode, and its range bits are 16 × the range code: 0b110000 for ±1 V down to 0 for ±10 V or no range. |
| AIConfig.WordValue | nielvis/academicIO.py:191-204 | The scan-table word is channel + 8·single-ended + range bits: the three fields never overlap. |
| AIConfig.WordRoundTrip | nielvis/academicIO.py:191-204 | Decoding a channel's word gives back its channel number, its mode and its range code. |
| AIConfig.SlotMatchesWord | nielvis/academicIO.py:191-204 | The slot is the word's channel field, plus 8 exactly for a differential channel. Slot and word determine each other. |
| AIConfig.ValidateAllSpec | nielvis/academicIO.py:126-189 | Validating the call's dictionaries succeeds iff every one is valid. Then the i-th channel is the i-th dictionary's. Otherwise the error is that of the first invalid dictionary. |
| AIConfig.ChannelListPermutation | nielvis/academicIO.py:189-208 | `channel_list` is a reordering of the validated channels: the same multiset. |
| AIConfig.ChannelListBanksInOrder | nielvis/academicIO.py:189-208 | In `channel_list` every bank-A channel comes before every bank-B channel. |
| AIConfig.ChannelListStable | nielvis/academicIO.py:189-208 | Within each bank, `channel_list` keeps the call order. |
| AIConfig.ComputeScanPlan | nielvis/academicIO.py:431-443 | The slot-filling loop computes `ScanPlan`: per bank, the channels' words in list order, or IndexError once a bank has a thirteenth channel. |
| AIConfig.ScanPlanSlots | nielvis/academicIO.py:431-443 | Slot j of a bank's table holds the word of that bank's j-th channel. The slots after the last channel hold 0. The channel count is the bank's number of channels. |
| AIConfig.ValidatedWellFormed | nielvis/academicIO.py:126-189 | Every validated channel is within its mode's channel range and has a known range code. |
| AIConfig.TwelveValidated | tests/AI.py:469-494 | The twelve dictionaries AI0-AI7 single-ended and AI0-AI3 differential on one bank all validate. |
| AIConfig.TwelveChannelList | tests/AI.py:469-494 | Their channel list is those twelve channels in call order. |
| AIConfig.TwelveWords | tests/AI.py:469-494 | Their words are 8..15 then 0..3. |
| AIConfig.AllTwelveChannels | tests/AI.py:469-547 | Their channel list has twelve channels whose slots are 0..11 in order, and whose words are 8..15 then 0..3. |
| SampleRate.RateToTicks | nielvis/academicIO.py:32-54 | The rate is clamped to [minimum, maximum]. For a positive clamped rate c, count·c is within c/2 of 40 MHz, and on an exact tie the count is even. With Rationals.RoundHalfEvenUnique this makes the count Python 3's round(40 MHz / c). The actual rate times the count is exactly 40 MHz. The call succeeds iff c and the rounded count are non-zero; otherwise it raises ZeroDivisionError. |
| SampleRate.DefaultCountBounds | nielvis/academicIO.py:32-54 | With the default bounds 1000-30000 the quantizer never fails, and the count lies in [1333, 40000]. |
| SampleRate.OutputCountBounds | nielvis/academicIO.py:776-811 | With the analog-output bounds 1000-1600000 the count lies in [25, 40000]. Also lines 32-54. |
| SampleRate.PinnedTicks | tests/AI.py:433-467 | Rates 1, 1000, 5000, 10000, 50000 and 1000000 give counts 40000, 40000, 8000, 4000, 1333 and 1333, as the tests assert. Rate 1024, where 40 MHz / 1024 = 39062.5, gives the even count 39062. |
| Rationals.RoundHalfEven | nielvis/academicIO.py:52 | Python 3 `round(n / d)`: within d/2 of n/d, and even on a tie. Also lines 2096-2099. |
| Rationals.RoundHalfEvenUnique | nielvis/academicIO.py:52 | Those two conditions single out one integer, so the model is Python's `round` and nothing else. Also lines 2096-2099. |
| AIEngine.ChunkSizesSpec | nielvis/academicIO.py:589-604 | The FIFO reads for a total are at most 10000 each, add up to the total, are all 10000 except the last, and number ⌈total/10000⌉ (one read of 0 for 0). Also lines 542-549. |
| AIEngine.BudgetSpec | nielvis/academicIO.py:589-601 | A -1 timeout stays -1. Any other budget is never negative and never grows from one read to the next. |
| AIEngine.NoTimeoutWhenInfinite | nielvis/academicIO.py:542-549 | With the -1 timeout of the n-sample path no read ever times out. |
| AIEngine.DrainFifo | nielvis/academicIO.py:589-604 | The read loop succeeds iff the FIFO holds the total and no read exceeds its budget. It then returns exactly the first `total` FIFO samples, consumes them, and traces one read per chunk size. Otherwise it fails with AcquisitionTimeout. Also lines 542-549. |
| AIEngine.ChannelSamples | nielvis/academicIO.py:555-559 | De-interleaving n channels of s samples gives each channel exactly s samples. Channel i's j-th sample is element i + j·n. Also lines 606-607. |
| AIEngine.Deinterleave | nielvis/academicIO.py:555-559 | The loop builds `[data[i::n] for i in range(n)]`: n groups, group i being the stride from i. Also lines 606-607. |
| AISession.DefaultTicks | nielvis/academicIO.py:479-481 | The CNTR count of an n-sample read is the quantizer's count for the aggregate rate, in [1333, 40000]. |
| AISession.StartOutcomeCases | nielvis/academicIO.py:277-340 | Past the rate check, `start_continuous_mode` succeeds exactly when no bank with channels is already started, some bank has channels, and two used banks scan the same number of channels. Otherwise the error is AlreadyStarted, BankNotOpened (no bank has channels) or HandshakeNeverCompletes (the counts differ), each in exactly its case. |
| AISession.TwoBankStartOrder | nielvis/academicIO.py:308-328 | The two-bank start is 17 accesses. Every table and divider write of both banks precedes every SYNC write, and the global SYNC is the last access. |
| AISession.BankBlockSpec | nielvis/academicIO.py:555-559 | A bank's result gives each of its k channels exactly `samples` values. Channel i's j-th value is FIFO element i + j·k. |
| AISession.SinglePointTableSpec | nielvis/academicIO.py:398-424 | The single-point table holds the word of the bank's last channel at that channel's slot. Every other slot holds the default [8..15, 0..3] entry, including the slot of an earlier channel of the bank. |
| AISession.DefaultTableIsTenVolt | nielvis/academicIO.py:191-204 | The default table already holds every channel's ±10 V word, so a lost patch matters only for the other ranges. Also line 390. |
| AISession.SinglePointLosesEarlierPatch | nielvis/academicIO.py:398-424 | Concrete case: for ±1 V AI0 and AI1 on bank A, slot 1 holds AI1's word 0b111001 but slot 0 keeps 8 instead of AI0's 0b111000. |
| AISession.AcquireBank | nielvis/academicIO.py:527-559 | One bank's n-sample acquisition succeeds iff its FIFO holds k·samples values. It returns their deinterleaving and leaves the rest in the FIFO. It traces arm, FIFO reset, CNT, the drain and the disarm. |
| AISession.AnalogInput.ReadSinglePoint | nielvis/academicIO.py:370-429 | The trace is every used bank's default table, channel count and clock, then each bank's patched table. One value per channel, in `channel_list` order, from its VAL or DIFF VAL register. |
| AISession.ReadValueRegisters | nielvis/academicIO.py:425-429 | One value per channel, in channel-list order, each read from that channel's VAL register. The older copy's loop (source/nielvisiii/academicIO.py lines 210-213) calls the same member. |
| AISession.AnalogInput.PatchTables | nielvis/academicIO.py:416-419 | The patch loop leaves, for every used bank, the table of the bank's last channel only. |
| AISession.AnalogInput.ReadNSamples | nielvis/academicIO.py:450-559 | A sample count outside 0-10000, or a rate outside 1-1 000 000 Hz (one channel) or 1-500 000 Hz (several), is InvalidParameter with nothing changed. A bank with more than 12 channels is IndexError, also with nothing changed. Otherwise the read succeeds iff each used bank's FIFO holds k·samples values, and fails with AcquisitionTimeout if not. The result is bank A's lists, then bank B's. The trace is each used bank's acquisition at the count for rate × channels. Each newly used bank becomes n-sample opened, is counted once more in `number_of_n_sample` and gets its FIFO handle. The continuous state is untouched. |
| AISession.AnalogInput.ReadBankNSamples | nielvis/academicIO.py:494-559 | A bank's first n-sample use sets `is_nsample_opened` and increments `number_of_n_sample` once, and the bank's FIFO handle is open afterwards. The data contract is that of AcquireBank. |
| AISession.AnalogInput.ReadBankContinuous | nielvis/academicIO.py:585-608 | A continuous bank read succeeds iff CNT shows the bank's channel count, DMA_FULL is clear, the handle is open, the FIFO holds the data and no read exceeds its budget. On failure the error is that of the first failing check. Registers are never written. |
| AISession.AnalogInput.ReadContinuous | nielvis/academicIO.py:561-626 | A negative sample count, or a finite timeout below samples/rate, is InvalidParameter with nothing touched. Otherwise it succeeds iff every continuous bank can deliver. The result is bank A's lists then bank B's, and the error is bank A's first. |
| AISession.AnalogInput.StartContinuous | nielvis/academicIO.py:255-340 | A rate outside 1-1 000 000 (one channel) or 1-250 000 (several) is InvalidParameter with nothing changed. Otherwise the rate is kept and the outcome is StartOutcome. On success the banks with channels become continuous and started, and the trace is the stop-then-start sequence. On AlreadyStarted or BankNotOpened, bank A is left open, continuous and stopped exactly when it has channels and was free: the source handles A before it asserts on B. On HandshakeNeverCompletes (where the source spins), both banks are open and continuous, only bank A is started and only when it has the larger count, and the trace ends before the handshakes. The n-sample bookkeeping never changes. |
| AISession.AnalogInput.OpenAll | nielvis/academicIO.py:277-284 | The open phase fails with AlreadyStarted iff a bank with channels is already started by some session. On success every bank with channels is open, continuous and stopped. On failure only bank A has been set up, and only when it has channels and was free, because bank B is checked after A. |
| AISession.AnalogInput.StartTwoBanks | nielvis/academicIO.py:308-328 | The two-bank start completes iff both banks scan the same number of channels. It then marks both banks started and traces TwoBankStart. Otherwise the trace stops before the handshakes. Bank A is marked started only when its count is the larger one, because only then does it read back its own count. |
| AISession.AnalogInput.StartOneBank | nielvis/academicIO.py:329-335 | The one-bank start marks only that bank started and traces its arm, FIFO reset, DMA enable and CNT. |
| AISession.AnalogInput.StopContinuous | nielvis/academicIO.py:342-368 | Afterwards no bank of the session is continuous. Exactly its continuous banks lose their started flag and FIFO handle, and each gets CNT := 0 then DMA_ENA := False, A before B. The n-sample bookkeeping is untouched. A second stop therefore writes nothing. |
| AISession.AnalogInput.Close | nielvis/academicIO.py:631-646 | Close stops first, with the trace of StopContinuous. It then takes one from `number_of_n_sample` for each bank this session used in n-sample mode. A bank keeps its FIFO handle only if it was not continuous here and its count is still non-zero. |
| AISession.AnalogInput.Read | nielvis/academicIO.py:210-253 | No argument: one value per channel from its VAL register, with the single-point trace; the session, the registry and both FIFOs are unchanged. Two arguments with a continuous bank: succeeds iff the count and timeout are valid and every continuous bank can deliver. It returns ContinuousBlocks with the ContinuousReads trace, and otherwise the first failing check's error. Two arguments otherwise: succeeds iff the n-sample parameters are valid, the scan plan fits and the FIFOs hold the data. It returns NSampleBlocks, consumes them and traces NSampleActions; the errors are InvalidParameter, TooManyChannels and AcquisitionTimeout in that order. Any other count is TypeError with nothing changed. |
| AISession.AnalogInput.ReadContinuousAcquired | nielvis/academicIO.py:247-249 | Two arguments on a continuous session: the ReadContinuous contract, with the blocks given as ContinuousBlocks and the trace as ContinuousReads. The session and registry are unchanged. |
| AISession.AnalogInput.ReadNSamplesAcquired | nielvis/academicIO.py:250-251 | Two arguments on a session with no continuous bank: the ReadNSamples contract, with the blocks given as NSampleBlocks and the errors in the order InvalidParameter, TooManyChannels, AcquisitionTimeout. |
| AISession.Open | nielvis/academicIO.py:63-208 | The constructor succeeds iff every dictionary validates. Its error is the first invalid one's. A new session holds `channel_list` and starts neither continuous nor n-sample opened. |
| AOSession.ValidateOutput | nielvis/academicIO.py:675-679 | An output dictionary is rejected iff it lacks `bank` or `channel`, names no bank, or has a channel outside AO0-AO1, in that order of checks. |
| AOSession.OutputChannels | nielvis/academicIO.py:674-685 | The channels are the dictionaries' in call order. The first invalid dictionary decides the error. |
| AOSession.BitmaskBits | nielvis/academicIO.py:785-798 | Bit c of a bank's DMA_ENA value is set exactly when AOc of that bank is used, and no other bit is set. |
| AOSession.AO0AloneIsOne | nielvis/academicIO.py:794-795 | A session on AO0 alone writes 1, not the 2 the docstring at line 836 gives for AO0. |
| AOSession.CalculateBitmask | nielvis/academicIO.py:785-798 | The marking loop returns each bank's bitmask. |
| AOSession.PayloadsFlatten | nielvis/academicIO.py:838-865 | Whatever headroom the polls report, the payloads the writer passes to `dma.write`, read back in order, are exactly the data: each sample is offered once and none is reordered. Which of them the FIFO takes is stated by AcceptedPrefix. |
| AOSession.RefillsShape | nielvis/academicIO.py:856-865 | After the first write, the writes alternate an empty headroom poll and a non-empty write. Every write but the last holds exactly 5000 samples. The last holds more than 5000 only when its poll reported at most 5000 free places. |
| AOSession.AmpleHeadroomBounded | nielvis/academicIO.py:849-865 | When every poll reports more than 5000 free places, no write exceeds 10000 samples. |
| AOSession.RefillsAcceptedPrefix | nielvis/academicIO.py:856-865 | The refills deliver a prefix of what is left after the first write, and all of it exactly when every refill fits its poll's headroom. |
| AOSession.AcceptedPrefix | nielvis/academicIO.py:849-865 | The FIFO receives a prefix of the data, and all of it exactly when every write fits. |
| AOSession.RefillsLoss | nielvis/academicIO.py:860-865 | A refill that does not fit is the last write. It holds everything left, more than its poll reported free, and the FIFO has everything before it. |
| AOSession.FifoTimeoutLosesLastWrite | nielvis/academicIO.py:849-865 | When a write times out it is the last payload, larger than the headroom its poll reported. The FIFO has every sample before it and none of it. |
| AOSession.AmpleHeadroomFits | nielvis/academicIO.py:860-862 | When every poll reports more than 5000 free places, every refill fits. |
| AOSession.ShortPollLosesTail | nielvis/academicIO.py:856-865 | As written: after k full refills, a poll that reports at most 5000 free places, fewer than what is left, makes the writer send everything left in one write, which times out. The FIFO keeps only the first 10000 + 5000·k samples, although it had room for more. |
| AOSession.FullRefills | nielvis/academicIO.py:858-863 | While the polls report more than 5000 free places, each of k refills writes 5000 samples and fits: the FIFO receives the first 5000·k samples of what is left, and the rest is written as from poll k. |
| AOSession.ReachableShortPoll | nielvis/academicIO.py:862-865 | A loss the model's own FIFO allows: 215001 samples, and polls reporting 190000 free places, then 5000 fewer after each refill, which is PossibleHeadroom (an empty FIFO of 200000 places, line 807, that does not drain). Poll 37 reports 5000, the last 20001 samples time out and only 195000 reach the FIFO. |
| AOSession.BoundedRefillsFit | nielvis/academicIO.py:856-865 | Corrected refills, which never write more than the poll reported free nor more than 5000: the write after poll k is at most min(5000, headroom k). |
| AOSession.BoundedRefillsFlatten | nielvis/academicIO.py:856-865 | Read back in order, the corrected refills are exactly the data left after the first write. |
| AOSession.Refill | nielvis/academicIO.py:858-865 | One refill polls with an empty write, then writes min(5000, left) when the poll reported more than 5000 free places and everything left otherwise. It succeeds iff that write fits, and the FIFO grows by it only then. |
| AOSession.ChunkedWrite | nielvis/academicIO.py:849-865 | The writer traces the payload sequence: all at once up to 10000 samples, else 10000 then refills. The bank's FIFO receives Accepted. The writer returns Ok iff every write fits, and FifoTimeout otherwise, stopping at the write that did not fit. The first write meets an empty FIFO of depth 200000 (line 807). |
| AOSession.WriteBank | nielvis/academicIO.py:838-882 | A bank's write traces DMA_ENA := bitmask, DMA_CNTR := count, the FIFO writes and DMA_ENA := 0. The FIFO grows by Accepted. The result is the writer thread's outcome, FifoTimeout iff some write does not fit; the main thread does not see it and still turns DMA off. It leaves DMA_ENA at 0 and DMA_CNTR at the count. |
| AOSession.RegisterThenRelease | nielvis/academicIO.py:800-807 | A session that registers a bank for n-sample output and then closes leaves that bank's count where it found it. Also lines 884-895. |
| AOSession.AnalogOutput.Write | nielvis/academicIO.py:699-733 | One argument writes a single point, with the trace of WriteSinglePoint. Every channel's VAL register then holds the value; the session, the registry and both FIFOs are unchanged. A list there is InvalidParameter with nothing changed. Two arguments are InvalidParameter unless they are a list and a rate in 1000-1 600 000, and then nothing changes. Otherwise the state is that of WriteMultiplePoints: banks registered and counted, FIFO handles open, the continuous flags kept, each opened bank's BankWriteActions traced (A first) and its FIFO grown by Accepted. Any other count is TypeError with nothing changed. |
| AOSession.AnalogOutput.WriteSinglePoint | nielvis/academicIO.py:735-759 | Afterwards every channel's VAL register holds the value and DMA is off on its bank, in the order DMA_ENA, VAL, GO per channel. |
| AOSession.AnalogOutput.RegisterBanks | nielvis/academicIO.py:800-807 | Each used bank becomes n-sample opened, is counted once in `number_of_n_sample` by this session, and gets its FIFO handle. Unused banks are untouched. |
| AOSession.AnalogOutput.WriteMultiplePoints | nielvis/academicIO.py:761-821 | The rate check comes before any change. Then registration, the bitmask, the count for the rate, and each opened bank's write (A first) follow. Each used bank is n-sample opened, counted once and has its FIFO handle; the continuous flags are kept. Each opened bank's FIFO grows by Accepted for that bank's headroom. The call succeeds even when a writer thread times out. |
| AOSession.AnalogOutput.WriteOpenedBanks | nielvis/academicIO.py:817-821 | Each opened bank is written, A first, with its BankWriteActions, and its FIFO grows by Accepted. A writer thread that times out does not make the call fail. |
| AOSession.AnalogOutput.Close | nielvis/academicIO.py:884-895 | Each bank this session opened gives back one count. A bank whose count is 0 drops its FIFO handle, whoever opened it. |
| AOSession.Open | nielvis/academicIO.py:654-697 | The constructor succeeds iff every dictionary validates. A new session is not n-sample opened on either bank. |
| Hardware.Fpga.WriteFifo | nielvis/academicIO.py:841-864 | Each `dma.write(..., timeout_ms=0)`: the payload goes in whole iff it fits the free places, else the call is FifoTimeout with nothing written. The call is traced either way. |
| Clock.Requested | nielvis/academicIO.py:2085-2090 | ValueError iff range coercion is on and the frequency is not strictly inside the limits. Otherwise the clamp keeps the request, and a negative request becomes 0. |
| Clock.TrialFor | nielvis/academicIO.py:2095-2101 | A divisor's top and frequency: `round(base / (2·d·f))` and `base / (2·top·d)` in phase-correct mode, else `round(base / (d·f)) - 1` and `base / (d·(top+1))`. A zero denominator is ZeroDivisionError. |
| Clock.CalculateClockSettings | nielvis/academicIO.py:2036-2115 | The divisor loop with its best-so-far variables computes the search function `ClockSettings`. |
| Clock.SearchErrors | nielvis/academicIO.py:2094-2115 | The search itself raises nothing but ZeroDivisionError. |
| Clock.RangeGuard | nielvis/academicIO.py:2085-2087 | The result is ValueError exactly when coercion is on and the frequency is not strictly between the limits. |
| Clock.DivisorIsListed | nielvis/academicIO.py:2091-2115 | A returned divisor is one of the list's: the first divisor is always adopted. |
| Clock.SearchDefined | nielvis/academicIO.py:2094-2115 | When every divisor's rounded quotient is at least one, the search never divides by zero and returns a non-negative top. |
| Clock.ExactIsClosest | nielvis/academicIO.py:2102-2112 | Nothing is closer than an exact trial, and every coerced trial is strictly farther. |
| Clock.ChoosesClosest | nielvis/academicIO.py:2094-2115 | The returned divisor was reached by the search. Its frequency is strictly closer than every earlier divisor's, and at least as close as every divisor reached. |
| PwmSpi.DivisorIndex | nielvis/academicIO.py:1158-1162 | The index loop returns the position of the divisor in the list. Also lines 1503-1507. |
| PwmSpi.PwmSettings | nielvis/academicIO.py:1154-1157 | With the defaults, PWM's quantizer accepts only 40 < f < 40000 of the asserted 40-400000. It then returns a non-negative top and a listed divisor. Also lines 2085-2087. |
| PwmSpi.CompareWithinPeriod | nielvis/academicIO.py:1164-1166 | `int(duty · top)` lies between 0 and the period. |
| PwmSpi.Generate | nielvis/academicIO.py:1140-1169 | The asserts refuse a frequency outside 40-400000 or a duty outside [0, 1]. The quantizer's ValueError covers 40 and 40000 up. Otherwise CS = divisor position + 1, MAX = top, CNFG = 4 and CMP = int(duty·top) within the period. |
| PwmSpi.FrameWordValue | nielvis/academicIO.py:1492-1499 | The mode flags and the frame length never overlap. The word is their sum. |
| PwmSpi.SpiWordDecodes | nielvis/academicIO.py:1492-1509 | The configuration word is below 2^16 and decodes back to bit 0 clear, phase, polarity, direction, frame length - 1 and the divisor index in bits 14-15. |
| PwmSpi.CounterMask | nielvis/academicIO.py:1510 | `int(top) & 0xFFFF` is `top mod 65536`. |
| PwmSpi.SpiSettings | nielvis/academicIO.py:1500-1502 | SPI's quantizer accepts 40 < f < 4000000 of the asserted 40-4000000. It then never divides by zero, and returns a non-negative top and a listed divisor. Also line 1450. |
| PwmSpi.Configure | nielvis/academicIO.py:1418-1513 | Frequency or frame length outside the asserts is InvalidParameter. 40 or 4000000 Hz is ValueError. Otherwise CNFG encodes the settings and the chosen divisor's index, and CNT is the top mod 2^16. |
| PwmSpi.SpiCounterWraps | nielvis/academicIO.py:1500-1510 | As written, 41 Hz gives top 487804 on divisor 1. CNT keeps 29052, so the programmed clock differs from the reported frequency (Findings). Also lines 2094-2115. |
| PwmSpi.CappedCounterIsExact | nielvis/academicIO.py:2036-2115 | Corrected quantizer: every accepted SPI frequency gets a top within the 16-bit counter, so CNT is the top and the clock runs at the reported frequency (Findings). |
| SysSelect.ClearSysSelect | nielvis/academicIO.py:903-916 | The loop computes `ClearFields`. |
| SysSelect.SetSysSelect | nielvis/academicIO.py:918-938 | The loop computes `SetFields` for the two-digit pattern. |
| SysSelect.ClearFieldsBit | nielvis/academicIO.py:903-916 | Clearing zeroes exactly bits 2·start .. 2·(start+n)-1 and keeps every other bit. |
| SysSelect.SetFieldsBit | nielvis/academicIO.py:918-938 | Setting ORs the pattern into each field of the run and keeps every other bit. |
| SysSelect.ReplaceFieldsBit | nielvis/academicIO.py:1058-1059 | Clear then set leaves exactly the pattern in the run, whatever it held, and every other bit. Also lines 1136-1137. |
| SysSelect.FieldsWithinWidth | nielvis/academicIO.py:903-938 | Neither helper takes a register value out of its width when the run lies inside it. |
| SysSelect.EncoderSelectBit | nielvis/academicIO.py:1058-1060 | Encoder c routes lines 2c and 2c+1 to '10' (bits 4c+1 and 4c+3 set, 4c and 4c+2 clear) and keeps the rest. |
| SysSelect.PwmSelectBit | nielvis/academicIO.py:1136-1138 | PWM c routes line c to '01' (bit 2c set, bit 2c+1 clear) and keeps the rest. |
| SysSelect.I2cSpiSelectBit | nielvis/academicIO.py:1246-1247 | I2C sets bits 28-31 and SPI bits 10-15, whatever they held, and keep the rest. Also lines 1512-1513. |
| SysSelect.Pinned32 | tests/SysSelect.py:25-33 | clear(0xAAAAAAAA, 3, 2) = 0xAAAAA82A, and setting '01' there gives 0xAAAAA96A. |
| SysSelect.Pinned64 | tests/SysSelect.py:68-76 | clear(0xFFFFFFFFFFFFFFFF, 16, 3) = 0xFFFFFFC0FFFFFFFF, and setting '10' there gives 0xFFFFFFEAFFFFFFFF. |
| Dio.SelectsBit | nielvis/academicIO.py:964-967 | Opening the channels clears the SYS.SELECT fields of exactly those lines. |
| Dio.MaskBit | nielvis/academicIO.py:1012-1015 | Bit j of the OR of `1 << c` is set exactly for the listed channels. |
| Dio.DioSession.Open | nielvis/academicIO.py:942-968 | An empty channel list is refused before any write. Otherwise DIR := 0 and the fields are cleared in turn. A channel outside DIO0-DIO19 stops the loop with the earlier fields already cleared. |
| Dio.DioSession.Read | nielvis/academicIO.py:970-990 | Succeeds iff every requested channel was opened. It gives one level per channel in request order: bit c of the input word. |
| Dio.DioSession.Write | nielvis/academicIO.py:992-1017 | Succeeds iff every channel was opened, checked before any write. Then DIR is the channels' mask, and OUT is the mask when high and 0 when low. |
| Encoder.CounterTwosComplement | nielvis/academicIO.py:1082-1084 | The count is in [-2^31, 2^31) and differs from the counter register by a multiple of 2^32. |
| Encoder.CounterUnique | nielvis/academicIO.py:1082-1084 | Conversely, it is the only such number: the low 32 bits read as two's complement. |
| Encoder.ClearRequestBit | nielvis/academicIO.py:1087-1092 | The clear request has exactly these bits: the invalid-transition flag (status bit 1) in bit 4, and the overflow flags (status bits 3 and 5) in bits 7 and 9. |
| Encoder.ResetPulse | nielvis/academicIO.py:1093-1100 | The first CNFG write raises the reset bit and the clear request. The second drops exactly those bits. Every other bit keeps its value through both. |
| Encoder.StatusFlags | nielvis/academicIO.py:1085-1089 | `stat & 0x01`, the direction `read` returns, is status bit 0. The two error tests `stat & 0x02` and `stat & 0x20` are non-zero exactly when status bits 1 and 5 are set. |
| Encoder.EncoderSession.Open | nielvis/academicIO.py:1040-1060 | A channel outside ENC0-ENC9 is refused before any write. Otherwise CNFG gets 0b1 or 0b101 by mode, and SYS.SELECT routes the encoder's two lines. |
| Encoder.EncoderSession.Read | nielvis/academicIO.py:1062-1106 | The count and direction come first, the reset pulse (when asked) next. Only then is OverflowError raised: for status bit 1, else for status bit 5. |
| Leds.LedValueBit | nielvis/academicIO.py:1194-1213 | Bit `led` of the written word is the requested state, the other three LEDs keep their bits, and everything above is cleared. |
| Leds.LedValueBound | nielvis/academicIO.py:1194-1213 | The written word is below 16. |
| Leds.LedValueIdempotent | nielvis/academicIO.py:1194-1213 | Writing the same LED to the same state twice changes nothing more. |
| Leds.LedValuesCommute | nielvis/academicIO.py:1194-1213 | Writes to two different LEDs commute. |
| Leds.LedSession.Write | nielvis/academicIO.py:1182-1213 | An LED outside LED0-LED3 is refused before the register is read. Otherwise the register gets the new word. |
| I2c.WriteControlFlags | nielvis/academicIO.py:1298-1311 | Each write control word is bit 0, plus the first-byte flag exactly on byte 0, plus the release flag exactly on the last byte when the bus is not kept. |
| I2c.ReadControlFlags | nielvis/academicIO.py:1375-1391 | Read words carry the same two flags, and acknowledge every byte except the one after which the bus is released. |
| I2c.AddressByteFields | nielvis/academicIO.py:1295 | The address byte is one byte from which the 7-bit address and the R/W bit come back out. Also line 1374. |
| I2c.FirstNakIs | nielvis/academicIO.py:1316-1333 | The byte the search stops at is the first whose status reports a NAK while no wait has expired. |
| I2c.TimedOutFirstExpired | nielvis/academicIO.py:1315-1325 | The sticky timeout is set among the first i bytes exactly when the first expiry is one of them. |
| I2c.WriteIgnoresTimeout | nielvis/academicIO.py:1324-1335 | A write whose bytes raise no NAK succeeds, however many waits expired. |
| I2c.NoNakAfterTimeout | nielvis/academicIO.py:1324-1333 | Once a wait has expired, no later byte can raise a NAK. |
| I2c.I2cSession.Open | nielvis/academicIO.py:1244-1265 | CNTR is 213 (standard) or 63 (fast), CNFG is 1, and lines 14 and 15 route to I2C. |
| I2c.I2cSession.Write | nielvis/academicIO.py:1267-1335 | An address outside 0-127 is refused before any access. Otherwise the transfer succeeds iff no byte raises a NAK. A NAK raises at once, naming the address when status bit 2 is set. The trace is the address byte, then each byte's control word, data and GO, with a release word after a failed byte when the bus is not kept. |
| I2c.I2cSession.Read | nielvis/academicIO.py:1337-1413 | The address is checked, then the count. A NAK raises at once. A byte whose wait expired, or came after an expiry, is not read. The result is the bytes received before the first expiry. |
| Irq.DigitalCheck | nielvis/academicIO.py:1739-1745 | Accepted exactly when the line is DIO0-DIO3, the callback is callable, the IRQ number is 1-8, the timeout is non-negative, at least one edge is chosen and the edge count is in [1, 2^32-1]. A bad line is InvalidChannel; any other failure is InvalidParameter. |
| Irq.EdgeMaskBit | nielvis/academicIO.py:1754-1759 | Registering a line ORs in its own bit iff the flag holds. It never clears a bit and touches no other line's bit. |
| Irq.EdgeMasksCommute | nielvis/academicIO.py:1754-1759 | Registering two lines gives the same masks in either order. |
| Irq.DigitalIrqRegisters.Register | nielvis/academicIO.py:1738-1764 | Nothing is written unless every check passes. Then the line's edge count, its rise, fall and enable bits and its IRQ number are written. |
| Irq.AnalogCheck | nielvis/academicIO.py:1817-1827 | Accepted exactly when the line is AI0 or AI1, the callback is callable, the IRQ number is 1-8, the timeout is non-negative, the threshold is in [0, 5] and the hysteresis in [0, 1]. A bad line is InvalidChannel; any other failure is InvalidParameter. |
| Irq.AnalogConfigBit | nielvis/academicIO.py:1845-1856 | A line owns enable bit 2c and rising bit 2c+1. Registering sets its enable bit, sets its rising bit iff rising, keeps the other line's two bits and clears everything above. |
| Irq.AnalogConfigsCommute | nielvis/academicIO.py:1845-1856 | Registering AI0 and AI1 gives the same word in either order. |
| Irq.AnalogIrqRegisters.Register | nielvis/academicIO.py:1816-1860 | Nothing is written unless every check passes. Then the IRQ number and the configuration word are written. |
| LegacyAI.LegacyValidate | source/nielvisiii/academicIO.py:62-94 | The older constructor accepts exactly what the newer one accepts and builds the same channel. With both keys present its error is the newer driver's; LegacyKeyOrder gives the missing-key cases. |
| LegacyAI.LegacyKeyOrder | source/nielvisiii/academicIO.py:62-94 | A missing bank is KeyError; a bank outside the enum is InvalidBank whether or not the channel key is there, because the bank is checked before the channel is looked up; a valid bank with no channel is KeyError. |
| LegacyAI.DefaultTableIsEveryChannel | source/nielvisiii/academicIO.py:109-130 | The default table written at open is every channel's word in its own slot. |
| LegacyAI.LegacyTableSpec | source/nielvisiii/academicIO.py:179-189 | A patched table differs from the register's only at the channel's slot 7 + c, which holds c \| 0b1000 \| range. |
| LegacyAI.LegacyWordIsSingleEnded | source/nielvisiii/academicIO.py:160-169 | A differential channel gets the word of the single-ended channel with the same number and range. |
| LegacyAI.HighChannelPastTable | source/nielvisiii/academicIO.py:162-183 | Single-ended AI5 is accepted but its slot 12 is past the table: every read raises IndexError (Findings). Also line 72. |
| LegacyAI.DifferentialWordMisread | source/nielvisiii/academicIO.py:160-164 | Differential AI0 gets word 8, which the scan table reads as single-ended AI0 (Findings). |
| LegacyAI.LegacyAnalogInput.Open | source/nielvisiii/academicIO.py:27-144 | The dictionaries are taken in order. A rejected one stops the constructor with its error, keeping the earlier channels and the defaults (table, CNT 12, CNTR 1000) already written for the banks met so far. |
| LegacyAI.LegacyAnalogInput.Read | source/nielvisiii/academicIO.py:146-213 | A channel whose slot is past the table raises IndexError before any write. Otherwise each used bank's register gets its table with only the bank's last channel patched in. One value per channel is returned in call order. |
| LegacyAI.LegacyAnalogInput.CommitTables | source/nielvisiii/academicIO.py:191-207 | Bank A's patched table is written, then bank B's, each only when the bank has channels. No register other than the two CNFG tables changes. |
| LegacyAI.PatchLegacy | source/nielvisiii/academicIO.py:179-189 | The patch loop holds, for each bank, the register's table with the bank's last channel patched, or reports the first channel whose slot is past the table. |
| LegacyClock.FloorDiv | source/nielvisiii/academicIO.py:1430-1433 | Python 2 int / int: the floor of the quotient. |
| LegacyClock.RoundHalfAway | source/nielvisiii/academicIO.py:1430-1433 | Python 2 `round`: within half of the quotient, and away from zero on a tie. |
| LegacyClock.Overwrite | source/nielvisiii/academicIO.py:1436 | `max(min_counter, min(top, max_counter))`: the clamped top, a float only when strictly above `min_counter`. |
| LegacyClock.CalculateLegacyClockSettings | source/nielvisiii/academicIO.py:1369-1450 | The older loop, with its overwriting of `requested_frequency`, computes `LegacyClockSettings`. |
| LegacyClock.LegacySearchErrors | source/nielvisiii/academicIO.py:1428-1450 | The older search raises nothing but ZeroDivisionError. |
| LegacyClock.LegacyRangeGuard | source/nielvisiii/academicIO.py:1418-1420 | The same ValueError guard as the newer driver. |
| LegacyClock.LegacyDivisorIsListed | source/nielvisiii/academicIO.py:1424-1450 | A returned divisor is one of the list's. |
| LegacyClock.LegacySpiOneMegahertz | source/nielvisiii/academicIO.py:1418-1450 | As written, SPI at 1 MHz ends on divisor 8 with top 32895 (about 38 Hz), although divisor 1 gives 1 MHz exactly (Findings). Also lines 846-847. |
| LegacyClock.CorrectedSpiOneMegahertz | source/nielvisiii/academicIO.py:1428-1449 | With the request held fixed, the same mode and limits stop at divisor 1 with top 10 and exactly 1 MHz (Findings). |
| LegacyIO.LegacySelectBits | source/nielvisiii/academicIO.py:402-404 | Each older SYS.SELECT update sets its own bits and keeps every other bit. Encoder sets bit 4c+1, PWM bit 2c, I2C bits 27-30 and SPI bits 9-14. Also lines 479-481, 607-608 and 857-858. |
| LegacyIO.I2cSelectVersionsDiffer | source/nielvisiii/academicIO.py:607-608 | Where the word had neither bit, the older I2C update sets bit 27 and the newer one bit 31. |
| LegacyIO.SpiSelectVersionsDiffer | source/nielvisiii/academicIO.py:857-858 | The older SPI update sets bit 9 and the newer one bit 15. |
| LegacyIO.EncoderSelectVersionsDiffer | source/nielvisiii/academicIO.py:402-404 | The newer encoder update sets bit 4c+3 and clears bits 4c and 4c+2. The older one leaves them as they were. |
| LegacyIO.LegacyPwmOpen | source/nielvisiii/academicIO.py:468-481 | A channel outside DIO0-DIO19 is refused. Otherwise the channel's bit is ORed into SYS.SELECT and every other bit is kept. |
| LegacyIO.OpenLegacyEncoder | source/nielvisiii/academicIO.py:386-404 | A channel outside ENC0-ENC9 is refused before any write. Otherwise CNFG gets the mode word and bit 4c+1 is ORed into SYS.SELECT. |
| LegacyIO.ConfigureLegacyI2c | source/nielvisiii/academicIO.py:589-608 | CNTR and CNFG as in the newer driver, with bits 27-30 ORed into SYS.SELECT. |
| LegacyIO.LegacyDioSession.ToWrite | source/nielvisiii/academicIO.py:296-313 | DIR gets the channels' mask, unless one is outside DIO0-DIO19, in which case nothing is written. |
| LegacyIO.LegacyDioSession.Read | source/nielvisiii/academicIO.py:315-336 | Any channel in DIO0-DIO19 may be read without being opened. One level per channel in call order, and a channel out of range fails the call. |
| LegacyIO.LegacyDioSession.Write | source/nielvisiii/academicIO.py:338-363 | `to_write` makes the channels outputs or fails before any write. Then OUT is the mask when high and 0 when low. |
| LegacyIO.LegacySpiSettings | source/nielvisiii/academicIO.py:845-847 | With the older quantizer in phase-correct mode, SPI raises ValueError exactly at 40 and 4000000 Hz. Otherwise it never divides by zero and returns a listed divisor and a non-negative top. Also line 793. |
| LegacyIO.LegacySpiSession.Open | source/nielvisiii/academicIO.py:792-858 | Out-of-range frequency or frame length is refused before any write. DIO0 then becomes the only output. The quantizer's ValueError comes after that write, and without it CNFG, CNT and SYS.SELECT are written. |
| LegacyIO.LegacySpiSession.Configure | source/nielvisiii/academicIO.py:837-855 | CNFG encodes the mode bits, the frame length and the divisor's index, and CNT is the top mod 2^16. |

## Left out

- The nifpga session, bitfile loading and the register and FIFO objects are
  foreign calls. They are replaced by `Hardware.Fpga`, whose writes are
  immediately readable.
- Liveness of the busy-wait handshakes (`while not(...): pass`) is not
  modelled: each handshake is one check that holds. This covers CNT/CNFG/CNTR
  read-back, DMA_ENA, STAT == 0, VAL.RDY, DMA.SYS.RDY and the AO STAT toggle.
  Waits on registers only the hardware sets are omitted from the trace.
- A FIFO read that cannot deliver the requested samples ends the
  acquisition with AcquisitionTimeout. This includes the -1 timeout of the
  n-sample path, where the driver would block.
- In the two-bank continuous start, both banks get CNT := max of their
  channel counts. Each bank then waits to read back its own count, which
  never happens when the counts differ. The model returns
  HandshakeNeverCompletes instead of hanging.
- Wall-clock time is an input. The duration of each FIFO read and each I2C
  byte wait is an oracle (`elapsed`, `Wait`). The seconds-versus-milliseconds
  mismatch of the continuous-read budget and the I2C timeout is not modelled.
- I2c.I2cSession.Write and I2c.I2cSession.Read require every wait to finish
  when the timeout is negative. The driver would spin forever otherwise.
- Threads and interrupts are not modelled:
  - the AO writer thread runs to its end before the main thread waits for
    the completion interrupt, and that interrupt is taken to arrive. A
    FifoTimeout in the writer ends the writer only: `threading.Thread` does
    not pass it to the caller of `write`. Whether the FPGA still raises the
    interrupt after a shortened write is not visible in the driver; if it
    does not, `write` would block instead of returning;
  - the free places each headroom poll of the AO writer reports are an
    oracle (`headroom`). The first write is taken to meet an empty FIFO of
    200000 places, because the previous write on the bank waited for its
    completion interrupt;
  - `IRQ.irq_wait` / `acknowledge`, the `wait` methods, `ButtonIRQ` and
    `TimerIRQ` are left out.
- The callback of DIIRQ/AIIRQ is a `callable` flag, because the model has
  no Python functions.
- The AIIRQ threshold and hysteresis registers get values the model does not
  represent: they are floats. AIIRQ's `type()` checks and its internal
  `AnalogInput` session are also left out. The older AIIRQ constructor has
  no `type()` checks and does not call `self.ai.read()`; its other checks
  are the newer ones.
- Floating-point details are not modelled:
  - AO voltage scaling (`int(value * 2**27)`) and `lsb_weights`: the
    model's FIFO receives the values as given;
  - `float(...)` of AI reads.
- Quotients are exact rationals, and `round` is exact half-to-even (Python 3)
  or half-away-from-zero (Python 2). PWM's `int(duty * top)` truncates an
  exact product.
- UART, `SPI.read` / `write` / `writeread` (hex-string formatting and
  transfers), `Button` and the logging calls are outside the model.
- PWM.generate of the older copy is not modelled. It differs from the newer
  one only in passing its quantizer's defaults positionally, and
  LegacyClock covers that quantizer.
- The older I2C `write` asserts `bytes_to_write >= 0` on a list, which
  Python 2 accepts and the model does not represent. The older transfers
  are otherwise the newer ones.
- Argument type checks (`type(x) == int`, `in Bank`, enum membership) are
  not modelled: the Dafny types rule those inputs out.
- SampleRate.RateToTicks: the rate is a whole number of hertz. The driver
  documents the rate as a number, and the analog output accepts a float
  rate (`nielvis/academicIO.py:782`). Fractional rates such as 1500.5 Hz are
  outside the model, and so are the members below that take a rate.
- AISession.AnalogInput.ReadNSamples: the rate is a whole number of hertz;
  a fractional rate is not modelled.
- AISession.AnalogInput.StartContinuous: the rate is a whole number of
  hertz; a fractional rate, and the timeout check against it in later
  reads, are not modelled.
- AISession.AnalogInput.ReadContinuous: the timeout is checked against the
  whole-hertz rate kept by `StartContinuous`.
- AISession.AnalogInput.Read: its two-argument form passes a whole-hertz
  rate on to `ReadNSamples`.
- AOSession.AnalogOutput.WriteMultiplePoints: the rate is a whole number
  of hertz, although the driver's type check also accepts a float.
- The module-level dictionaries are process-wide; the model expresses that
  sharing only by passing one `Registry` object to every session.

## Findings

| source | as written | input that shows it | evidently intended | confidence | as-written member | corrected member |
|---|---|---|---|---|---|---|
| nielvis/academicIO.py:2094-2115, 1500-1510 | `calculate_clock_settings` never bounds the top by `max_counter`, and SPI writes `int(top) & 0xFFFF` to CNT | SPI at 41 Hz: divisor 1, top 487804, CNT 29052, clock near 688 Hz instead of 41 Hz | the top is held to the 16-bit counter (`max_counter` = 65535), so the programmed clock is the reported one | medium, not executed | PwmSpi.SpiCounterWraps | PwmSpi.CappedCounterIsExact |
| source/nielvisiii/academicIO.py:1428-1450 | the loop stores the clamped top in `requested_frequency` and tests exactness and closeness against it | SPI at 1 MHz: divisor 1 gives top 10 and exactly 1 MHz, yet the search ends on divisor 8, top 32895, about 38 Hz | the request stays fixed, as in the newer copy, and the search stops at the exact divisor 1 | high, not executed | LegacyClock.LegacySpiOneMegahertz | LegacyClock.CorrectedSpiOneMegahertz |
| source/nielvisiii/academicIO.py:160-189 | every channel goes to slot 7 + c with word c \| 0b1000 \| range, whatever its mode | single-ended AI5: accepted, slot 12, IndexError on every read; differential AI0: word 8, read as single-ended AI0 | single-ended c in slot c with word c \| 0b1000 \| range, differential c in slot c + 8 with word c \| range, as the newer copy does | high, not executed | LegacyAI.HighChannelPastTable | AIConfig.SlotMatchesWord |
| nielvis/academicIO.py:862-865 | when a poll reports at most 5000 free places, the writer writes everything left in one `dma.write(..., timeout_ms=0)`, which fails whole when it is larger than that headroom | 215001 samples into an empty FIFO of 200000 places that does not drain: polls 0-36 report 190000 down to 10000 free places and get 5000 samples each, poll 37 reports 5000, and the 20001-sample write times out, so only 195000 samples reach the FIFO | each refill writes at most the reported free places (and at most 5000), so every write fits and every sample is sent | medium, not executed | AOSession.ReachableShortPoll | AOSession.BoundedRefillsFit |

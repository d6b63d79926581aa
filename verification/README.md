# TEG inverter firmware and arc detector: a verified model

The firmware drives inverter legs from a thermoelectric generator; a companion Python package
holds the reference arc detector and its fixed-point design oracle. This project models the parts
whose correctness is about whole runs, and proves what those parts promise.

- **PWM output interlock** (`Interlock.dfy`): connecting the output drivers, masking them, clearing
  a trip and reconfiguring, against trip interrupts and comparator pulses that may come between any
  two volatile accesses.
- **Configuration store** (`ConfigStore.dfy`, `ConfigCard.dfy`): the live/tmp/bak protocol with
  modular generations, under power loss at every file operation, recovery included.
- **Firmware update** (`Crc.dfy`, `HexParse.dfy`, `HexPrint.dfy`, `HexDamage.dfy`, `Flash.dfy`,
  `OtaIngest.dfy`, `FlashCommit.dfy`): Intel HEX text to a staged image with its CRC-32, and the copy-down that
  replaces the running image.
- **Streaming DSP** (`BitReverse.dfy`, `CommutativeRing.dfy`, `Complex.dfy`, `Fft.dfy`,
  `FixedPoint.dfy`, `FixedFir.dfy`, `Tallies.dfy`, `FastOracle.dfy`, `Detector.dfy`): the in-place
  FFT, the folded decimating FIR with its overflow certificate, the multirate block detector on top of
  it, and the latch automaton.
- **Control and data structures** (`Mppt.dfy`, `Modulation.dfy`, `StreamRing.dfy`, `Capture.dfy`,
  `Calendar.dfy`): the maximum power point tracker, the integer modulation pipeline, the two
  interrupt/loop buffers and the calendar arithmetic.

How the models are built:

- A C++ struct or Python object that its methods update is a class with those fields. Each method
  is proved against a function of its old state, and the promises are lemmas about that function.
- Interruption is explicit. Between the steps of the interlock, the stream ring and the capture drain
  stands a call that runs any number of steps of the other side, so what is proved holds in every
  interleaving. A step of the interlock stores at most one variable an interrupt can see, outside the
  window that runs with interrupts off. Three groups of loads share a step: variables only the
  foreground writes; PWM1's and PWM2's flags, which an armed limit's pulse sets together; and the trip
  flag, the generation and the latches of one condition, none of which falls back meanwhile. Pin
  levels, thermal and MTP permits and readbacks are free choices at each read. Where a promise needs
  the environment to stay quiet for one call, the interlock's `calm` says so (no pulse, no trip
  interrupt, no adverse reading until the call returns), and the ring's `alone` (the producer does not
  run during the call).
- Power loss is a number of file operations that still complete. Flash operations of the commit may
  leave anything in the cells they address.
- Integer widths, C's truncating division, arithmetic shifts and modular counters are written out
  where they matter. Bytes that are only counted or summed are integers; flash cells, CRC registers
  and image bytes are bit vectors.

Where the code does less than its surroundings suggest, the model keeps the code and says so:

- `Interlock.PwmInterlock.ClearFaultTrip`: a call without an operator loses a trip exactly when it
  masks between the refusal checks' read of `vFaultTripped` and the store that clears it: of a call
  that ends connected, no mask came before the first or after the second. `TripsInGapAreLost` runs the
  call with any number of trips in that gap.
- `ConfigStore.UntoleratedLoses`: renames the card refuses without losing power can leave the
  established configuration in tmp alone, where the next save deletes it first. `Tolerated` is the exact
  condition: `NextSafe` survives every tolerated event, and after every other one a save that loses
  power at once loses the established configuration. Without such errors every event is tolerated.
- `ConfigStore.StaleBakWins`: a save that loses power between closing tmp and removing bak leaves bak as
  it was, so an old bak outlives any number of them. After 2^31 - 2 in a row its generation compares as
  the newer one. `HistorySafe` therefore asks that the versions stay in the window above the oldest
  document; any acknowledged save over a live file that holds the established configuration moves it up.
- `StreamRing.PlayedOutOfTurn`: with both buffers requested while buffer 1 is active, publishing 0 and
  then 1 with no `next` in between plays 1 first. `MarkFilled` says exactly which publication overtakes
  another; one call of `next` since the last publication rules it out.
- `Mppt.FirstStepLeaves`: the first step goes up whatever the power, so a tracker that starts in the
  band can leave it once. From the first evaluation on, the band traps.
- `Capture.StartIsWanted`: the drain starts in the wrong place exactly when a cursor ahead of the
  counter, or 2^32 behind it, looks like one that lags by up to 2^31. `FarResetIsMisread`: a counter
  reset by 2^31 or more is always misread, and `ReadSince` says what is returned then.
- `Fft.StagesEnd`: the stage loop ends exactly for n below 2^31; at 2^31 `len <<= 1` wraps to zero.
  2^30 is the largest length `Fft.FftRadix2` accepts.
- `Modulation.Dpwm3Exact`: the two variants that clamp by magnitude show every difference exactly only
  while the chosen leg is the extreme on its own side, which unbalanced references need not give
  (`Modulation.UnbalancedLosesDifferences`).
- `hexParseLine` sees a line up to its first NUL, so text after an embedded NUL is ignored
  (`HexParse.Visible`).
- Both stages of the release re-check `vFaultTripped` and `vFaultGeneration`. Every mask by an
  interrupt also sets the trip flag, so in this model the flag alone already carries the proof.

Nothing here was executed; everything stated is what the verifier accepts. Run
`dafny verify dfyconfig.toml` to check it.

## Model

| member | source | states |
|---|---|---|
| Interlock.PwmInterlock.Run | src/pwm_utils.cpp:170-682 | After any sequence of requests, with any interrupts and pulses inside and between them: if any driver is connected then all are, protection is ready, no trip or inhibit is set, the configuration is valid, no mask has happened since the release sampled its generation, the polarity bits equal the configured mask, and protection and permits were quiet both in the commit window and in the look after it; no polarity bit has ever changed while a driver was connected; the hardware and provisioning inhibits are what was last asked of them, and a run that ends in a request for the dark ends dark |
| Interlock.PwmInterlock.Interfere | src/pwm_utils.cpp:1419-1425 | Any number of trip interrupts and pulses either only raise flags, or end with everything disconnected, tripped and un-inverted, the generation advanced by the number of masks |
| Interlock.PwmInterlock.ComparatorPulse | src/acmp.cpp:380-390 | A pulse latches the flag of every routed module and pends the enabled PWM2 interrupt; nothing else moves |
| Interlock.PwmInterlock.FaultTripIsr | src/pwm_utils.cpp:1419-1425 | The GPIO trip ends disconnected, inhibited and tripped, one more mask counted |
| Interlock.PwmInterlock.AcmpFaultIsr | src/acmp.cpp:93-103 | The comparator trip does the same and silences its own interrupt, leaving both flags latched |
| Interlock.PwmInterlock.DisconnectAllOutputDrivers | src/pwm_utils.cpp:147-153 | All four modules are disconnected, whatever interrupts run between the writes |
| Interlock.PwmInterlock.MaskAllOutputsSafely | src/pwm_utils.cpp:170-187 | Ends with no driver connected, the inhibit set and exactly the configured cells un-inverted, never touching polarity while connected; as an interrupt it counts exactly one mask |
| Interlock.PwmInterlock.UninvertCells | src/pwm_utils.cpp:175-180 | The loop over the mask clears exactly the bits of the mask, preempted or not |
| Interlock.PwmInterlock.RestoreCellPolarity | src/pwm_utils.cpp:192-200 | Unless a mask intervened, every cell of the mask is inverted again |
| Interlock.PwmInterlock.ConnectConfiguredOutputDrivers | src/pwm_utils.cpp:155-165 | With interrupts off and polarity in place all modules are connected and only comparator flags can have moved |
| Interlock.PwmInterlock.ReleaseOutputInhibit | src/pwm_utils.cpp:209-256 | Success means every driver is connected or a trip has already masked again; failure means dark; a flag raised meanwhile is pending or has tripped. In a calm environment it succeeds exactly when every interlock is clear, protection is ready and no armed latch stands; live protection leaves the trip flag set |
| Interlock.PwmInterlock.Refuse | src/pwm_utils.cpp:211-226 | A refused release ends dark, and live protection sets the trip flag |
| Interlock.PwmInterlock.Admit | src/pwm_utils.cpp:209-238 | From the generation sample to the commit window: either refused and dark, or every mask since the sample shows as a trip |
| Interlock.PwmInterlock.Commit | src/pwm_utils.cpp:238-248 | Connects only if no mask has happened since the sample, polarity equals the configured mask and the last readings were quiet; in a calm environment an unmoved generation and sound protection suffice |
| Interlock.PwmInterlock.Recheck | src/pwm_utils.cpp:250-255 | The look after the commit changes nothing itself, accepts only quiet protection, and refuses nothing in a calm environment |
| Interlock.PwmInterlock.Confirm | src/pwm_utils.cpp:250-255 | After the commit either everything stays connected under a second quiet look, without which nothing may stay connected, or all is masked again |
| Interlock.PwmInterlock.AcmpClearLatch | src/acmp.cpp:445-459 | Stays tripped and dark throughout; in a calm environment an armed limit ends with both flags and the pending bit clear; without an armed limit it touches nothing |
| Interlock.PwmInterlock.ClearLatchVerified | src/pwm_utils.cpp:585-597 | The clear is believed exactly when, after it, the pins are quiet and neither flag of an armed limit is latched |
| Interlock.PwmInterlock.ClearAdmitted | src/pwm_utils.cpp:557-583 | A trip present when a non-operator asks is refused and kept; inhibits and an invalid configuration are refused; in a calm environment nothing else is |
| Interlock.PwmInterlock.Refused | src/pwm_utils.cpp:558-577 | The checks that need no reading refuse exactly an inhibit, an invalid configuration, and for anyone but the operator a restart inhibit or a trip |
| Interlock.PwmInterlock.ClearFaultTrip | src/pwm_utils.cpp:556-618 | Never an implicit acknowledgement of a trip or a restart inhibit that was set; success connects everything or has been tripped since; a pulse after the clear has tripped, or is pending with its interrupt enabled. Of a call without an operator that ends connected, every mask came between the read of the trip flag and its store; with an operator none came after the store. In a calm environment but for n trips in that gap, it succeeds exactly when no inhibit stands in the way of this caller, protection is ready and an untripped armed limit has no latched flag (or n > 0, which clears it); then all is connected, untripped, and a tripped latch is clear with its interrupt watching again |
| Interlock.PwmInterlock.ClearAndRelease | src/pwm_utils.cpp:585-618 | Unless the latch was seen clear, and both pins quiet, nothing is acknowledged: it fails tripped, and a restart inhibit stands; otherwise the operator lifts the restart inhibit and the release decides |
| Interlock.PwmInterlock.AcknowledgeAndRelease | src/pwm_utils.cpp:600-617 | Refused ends dark and tripped again; released ends connected or tripped since, its interrupt re-armed; connected means no mask since the store; in a calm environment it releases exactly when protection is ready and no armed latch stands |
| Interlock.PwmInterlock.TakePending | src/acmp.cpp:93-103 | Once pending interrupts have been taken, a comparator pulse has ended tripped and dark, whenever it came; without one pending and enabled nothing happens |
| Interlock.PwmInterlock.TripsInGapAreLost | src/pwm_utils.cpp:574-601 | Whatever clearFaultTrip(false) would release it releases with any number of GPIO trips between its checks and its store, each of which masked and tripped |
| Interlock.PwmInterlock.SetRestartInhibit | src/pwm_utils.cpp:258-263 | Setting the inhibit ends dark with the outputs inhibited; clearing it connects nothing and acknowledges no trip; no other inhibit moves |
| Interlock.PwmInterlock.SetHardwareInhibit | src/pwm_utils.cpp:265-270 | Likewise for the PSRAM inhibit |
| Interlock.PwmInterlock.SetProvisioningInhibit | src/pwm_utils.cpp:272-277 | Likewise for the provisioning inhibit |
| Interlock.PwmInterlock.ConfigurePwm | src/pwm_utils.cpp:545-552 | A new inversion mask is programmed in the dark; afterwards no cell outside it is inverted, or the configuration is invalid. In a calm environment it ends valid with exactly the new mask programmed, flags and trip as they were; the current limit is left alone throughout |
| Interlock.PwmInterlock.ProgramCells | src/pwm_utils.cpp:935-1018 | Success means the programmed polarities lie within the published mask, masks in between included; in a calm environment it succeeds with exactly the mask programmed |
| Interlock.PwmInterlock.AcmpConfigure | src/acmp.cpp:262-403 | Stays dark and clears no trip. Protection is ready exactly when every parking and recovery readback was sound and an enabled limit has been routed; otherwise it ends tripped, inhibited and unarmed. Ready without a limit both routes are parked; with one both reach the comparator, the PWM2 interrupt is enabled exactly in latching mode, and a latching limit is armed with its interrupt enabled or tripped already. In a calm environment it ends ready, sound and untripped |
| Interlock.PwmInterlock.TearDown | src/acmp.cpp:262-281 | Ends disarmed and dark, trips kept, whatever pulses and interrupts come between its writes; confirmed readbacks mean both routes are parked; in a calm environment they are confirmed, and both flags and the stale pending bit are clear |
| Interlock.PwmInterlock.RouteComparator | src/acmp.cpp:305-368 | Good readbacks mean both modules see the comparator; PWM2 alone notifies, and only in latching mode; in a calm environment the readbacks are good and both flags clear |
| Interlock.PwmInterlock.Disarm | src/acmp.cpp:262-268 | Disarmed, unready and its interrupt disabled one after the other, dark and with trips kept at every point between |
| Interlock.PwmInterlock.FailCurrentLimitArm | src/acmp.cpp:247-260 | A failed readback ends disarmed, unready, inhibited, dark and tripped, with the PWM2 interrupt source off |
| Interlock.PwmInterlock.Arm | src/acmp.cpp:373-392 | Armed exactly in latching mode, ready in either, and an armed limit has its interrupt enabled or has tripped |
| Interlock.PwmInterlock.WatchOrTrip | src/acmp.cpp:373-392 | A pulse that reached PWM1 before PWM2 was routed trips and masks; a later one pends for the enabled interrupt |
| Interlock.PwmInterlock.ReconfigureTripSources | src/pwm_utils.cpp:1439-1474 | An input already active trips on the spot, and so does a missing first sample; no trip is cleared |
| Interlock.PwmInterlock.ApplyPwmConfig | src/pwm_utils.cpp:620-682 | Applying settings keeps a trip that was set, and a trip or an inhibit keeps it dark and inhibited; no inhibit moves. In a calm environment with neither: unchanged settings leave the outputs as they were, changed ones end with every driver connected exactly if protection is then sound, under the new inversion mask and a current limit armed and routed as asked |
| Interlock.PwmInterlock.constructor | src/pwm_utils.cpp:57-90 | Power-on is dark, inhibited, unprovisioned, untripped, with no limit armed and protection not ready |
| Interlock.GenerationCountsMasks | src/pwm_utils.cpp:60-62 | The 32-bit generation reads as sampled exactly when the masks since are a multiple of 2^32 |
| ConfigStore.NewerIffLater | src/config_json.cpp:56-58 | Within 2^31 - 2 saves the modular comparison is the comparison of true versions |
| ConfigStore.WindowIsTight | src/config_json.cpp:56-58 | One save further the comparison inverts when the counter wraps |
| ConfigStore.NextIsStored | src/config_json.cpp:229-230 | The generation successor, skipping zero, follows the version successor |
| ConfigStore.WrittenDocument | src/config_json.cpp:229-232 | The document written carries the next version of the established configuration |
| ConfigStore.PickNewest | src/config_json.cpp:113-143 | The candidate loop picks the newest readable document |
| ConfigStore.SaveCrashSafe | src/config_json.cpp:189-283 | Power loss after any operation of a save leaves the established configuration or the new one newest; a completed save is established exactly when acknowledged, and a refused one keeps the old one established exactly when its error struck before the renames or the old one was the live file |
| ConfigStore.CompleteDocument | src/config_json.cpp:263-282 | From the moment the new document is complete it is the newest at every step of the swap |
| ConfigStore.RefusedSave | src/config_json.cpp:266-278 | After a refused swap the old configuration is still established exactly when it was the live file |
| ConfigStore.BootCrashSafe | src/config_json.cpp:145-183 | Every step of recovery keeps the newest document; a completed recovery establishes it exactly when it is no longer in tmp alone |
| ConfigStore.NextSafe | src/config_json.cpp:102-283 | One boot, save or power loss keeps the card recoverable and never goes back to an older configuration, unless it is a completed, unacknowledged save that refused a rename while live did not hold the established configuration, or a completed boot that left the newest one in tmp alone |
| ConfigStore.HistorySafe | src/config_json.cpp:102-283 | The same over any history of saves, crashes at any operation and reboots, of any length, while versions stay in the window above the oldest document |
| ConfigStore.FloorMoves | src/config_json.cpp:263-282 | An acknowledged save over a live file that holds the established configuration leaves nothing older, so the window moves up |
| ConfigStore.ShortIsWindowed | src/config_json.cpp:56-58 | Fewer than 2^31 - 2 events never leave the window |
| ConfigStore.UntoleratedLoses | src/config_json.cpp:218-278 | After any other event, a save that loses power after its first operation leaves the next load without the established configuration |
| ConfigStore.BakStays | src/config_json.cpp:229-262 | A save cut off before bak is removed, rebooted, n times over: versions advance by n, bak stays |
| ConfigStore.StaleBakWins | src/config_json.cpp:56-58 | After 2^31 - 2 such saves across the wrap the next load picks the old bak, with power loss as the only fault |
| ConfigStore.LoadReturnsNewest | src/config_json.cpp:102-187 | The next load after any such history returns the last established configuration or the one interrupted save after it: never nothing once there was one, never anything older |
| ConfigStore.PowerLossAlwaysTolerated | src/config_json.cpp:102-283 | With power loss as the only fault, no history needs an exception |
| ConfigStore.RefusedPromotionLosesAll | src/config_json.cpp:149-165 | A run of the kind above: a refused promotion, then a power loss at the start of the next save, leaves no readable document |
| ConfigStore.RefusedSwapsLoseAll | src/config_json.cpp:266-278 | Another: two refused swaps, then a power loss at the start of a third save |
| ConfigCard.Card.SaveConfiguration | src/config_json.cpp:189-283 | Runs exactly the operation list of the protocol, cut where the supply fails; generation and RAM copy move only on success |
| ConfigCard.Card.LoadConfiguration | src/config_json.cpp:102-187 | Picks, adopts and repairs as the protocol says, cut where the supply fails |
| ConfigCard.Card.SaveNext | src/config_json.cpp:229-282 | From the established generation in RAM, a save leaves the card and the RAM where one step of the history does: off exactly when power was lost, else with the established generation again |
| ConfigCard.Card.LoadAtBoot | src/config_json.cpp:102-187 | The same for a load after power-on, whatever recoverable card it finds |
| ConfigCard.Replay | src/config_json.cpp:102-283 | Any tolerated history inside the window, run with the two functions on one card: the next load finds the configuration last established or the one interrupted save after it, never an older one |
| BitReverse.RevIncCounts | src/spectrum_math.h:35-39 | The carry-from-the-top increment of a reversed counter is the reversal of the increment |
| BitReverse.RevTopBit | src/spectrum_math.h:35-39 | Reversal peeled from the top bit |
| BitReverse.RevInvolution | src/spectrum_math.h:40-43 | Reversing twice gives the index back |
| Fft.NextReversed | src/spectrum_math.h:35-39 | The inner bit loop yields the reversed index of i, and ends |
| Fft.BitReversePermute | src/spectrum_math.h:33-44 | The loop of upward swaps permutes the data into bit-reversed order |
| Fft.PermuteStep | src/spectrum_math.h:40-43 | Swapping only upwards puts both partners in place and disturbs no other sample |
| Fft.Butterfly | src/spectrum_math.h:53-60 | One butterfly in place |
| Fft.Butterflies | src/spectrum_math.h:51-64 | The running product gives butterfly k the k-th power of the twiddle |
| Fft.EvalSplit | src/spectrum_math.h:46-66 | A strided polynomial splits into its even and odd halves at the squared point |
| Fft.EvalIsDftSum | src/spectrum_math.h:46-66 | The Horner form at w^k is the k-th DFT sum |
| Fft.HalfTurn | src/spectrum_math.h:47-49 | In any commutative ring the half-angle law alone makes the twiddle of length 2h satisfy w^h = -1 |
| Fft.Twiddles | src/spectrum_math.h:51-64 | w^j and w^(j+h) are opposite and square to the half-length root |
| Fft.MergeAt | src/spectrum_math.h:50-65 | A block of length 2^(k+1) in terms of its two children |
| Fft.Merge | src/spectrum_math.h:50-65 | A butterfly turns two finished half-length coefficients into two of full length |
| Fft.BlockMerged | src/spectrum_math.h:50-65 | The butterflies of a block finish it |
| Fft.StageInvStep | src/spectrum_math.h:50-65 | One block finished leaves every other block as it was |
| Fft.Stage | src/spectrum_math.h:50-65 | A stage doubles the length of every finished block |
| Fft.AfterPermutation | src/spectrum_math.h:33-46 | Bit-reversed data are the finished blocks of length one |
| Fft.AtTheEnd | src/spectrum_math.h:46-66 | One finished block of full length is the transform |
| Fft.StagesEnd | src/spectrum_math.h:46 | On 32 bits some stage length exceeds n exactly when n is below 2^31 |
| Fft.FftRadix2 | src/spectrum_math.h:32-67 | For every power of two up to 2^30, the loop nest on the re and im arrays computes the discrete Fourier transform of its input in place |
| Fft.RingTransform | src/spectrum_math.h:32-67 | Over every commutative ring and for every power of two, bit reversal followed by the stages of butterflies computes the discrete Fourier transform, the half-angle law being all that is asked of the twiddles |
| Fft.PrimitiveTransform | src/spectrum_math.h:32-67 | In particular for the powers of any one root whose half turn is -1 |
| Fft.RootPowersHalve | src/spectrum_math.h:47-49 | The powers of such a root satisfy the half-angle law |
| Fft.PassKeeps | src/spectrum_math.h:50-65 | Every block of a stage over a ring merges its two halves and keeps the rest |
| Complex.CxLaws | src/spectrum_math.h:53-63 | Pairs of reals with the arithmetic of the butterfly are a commutative ring |
| Complex.CxIsComplex | src/spectrum_math.h:53-63 | That ring is the complex numbers: i squared is -1, real factors scale both parts, every pair is re + im i |
| Complex.NormMultiplies | src/spectrum_math.h:53-63 | The power of a product is the product of the powers |
| Mppt.MpptState.Evaluate | src/mppt_math.h:62-117 | The first evaluation only moves; every later one judges the power change, then moves, on exactly the state the convergence lemmas speak of; any power change an int32_t can hold |
| Mppt.MpptState.constructor | src/mppt_math.h:52-58 | The start index is clamped to the rails |
| Mppt.FirstStep | src/mppt_math.h:63-66 | The unprimed step establishes the run invariant |
| Mppt.InvStep | src/mppt_math.h:62-117 | Every step keeps it: off the rails the last move was by a whole step in the current direction, at a rail the direction points inwards |
| Mppt.HeadsDown | src/mppt_math.h:62-117 | A largest step right of the peak the tracker moves down by at least a smallest step, or sits at the rail |
| Mppt.HeadsUp | src/mppt_math.h:62-117 | The mirror image left of the peak |
| Mppt.BandTraps | src/mppt_math.h:62-117 | A step from inside 2*stepMax of the peak stays inside, through doubling, halving, rails and restarts |
| Mppt.Progress | src/mppt_math.h:62-117 | Outside the band every evaluation pays at least a smallest step of the lag, rail waits included |
| Mppt.Approaches | src/mppt_math.h:62-117 | So after n evaluations the tracker is in the band or has paid for n - 1 of them |
| Mppt.Converges | src/mppt_math.h:62-117 | From any start the index is within 2*stepMax of the peak after (max - min)/stepMin + 5 evaluations, and at every later one, on any curve on which a smallest step towards the peak gains more than the deadband |
| Mppt.NeverLeaves | src/mppt_math.h:62-117 | Once an evaluation has landed in the band no later one leaves it |
| Mppt.StrictCurveConverges | src/mppt_math.h:62-117 | With deadband 0 strictly rising then strictly falling power is enough |
| Mppt.FirstStepLeaves | src/mppt_math.h:63-66 | Exactly when the first step leads out of the band |
| Mppt.FirstStepCanLeave | src/mppt_math.h:63-66 | A start from which it does |
| Mppt.RunKeeps | src/mppt_math.h:62-117 | On any sequence of measurements the step stays within its limits, the index between the rails, the direction up or down and both counters below their caps |
| Mppt.JumpRestarts | src/mppt_math.h:71-78 | A change larger than restartDelta makes the next move a largest step, onwards after a rise and back after a fall, cut short only by a rail; a restartDelta from 2^31 on compares as negative, so every change does |
| Mppt.LossRefines | src/mppt_math.h:96-103 | A loss turns back with half the step, never below the smallest |
| Mppt.GainGoesOn | src/mppt_math.h:88-95 | A gain moves on in the same direction by the step it leaves, cut short only by a rail |
| Mppt.GainsAccelerate | src/mppt_math.h:88-95 | After n gains in a row the step is exactly 2^(n/2) times the first (counting a gain already pending), or the largest |
| Mppt.GainsCarryOn | src/mppt_math.h:88-95 | Clear of the rails n gains keep the direction and carry the index on by at least n of the first step |
| Mppt.FourFlatsTurn | src/mppt_math.h:79-87 | Clear of the rails every fourth flat result in a row turns the direction, and no other does |
| Mppt.FlatsCount | src/mppt_math.h:79-87 | Flat results keep the step, break a run of gains and count modulo four |
| Mppt.PlateauIsBounded | src/mppt_math.h:39-47 | On a plateau of any length the index stays within four steps of where it began, rails or not |
| Crc.Crc32Update | src/ota_crc.h:10-18 | The nested byte and bit loops compute the register recurrence |
| Crc.Crc32 | src/ota_crc.h:20-22 | The CRC of a buffer is the complement of the register run from all ones |
| Crc.UpdateAppend | src/ota_crc.h:10-18 | A CRC carried over two pieces is the CRC of the whole |
| Crc.ByteErrorDetected | src/ota_crc.h:10-22 | A change confined to one byte always changes the CRC |
| Crc.PolyIsGenerator | src/ota_crc.h:14 | 0xEDB88320 is the generator polynomial of the standard below its leading term, reflected |
| Crc.ShiftBits | src/ota_crc.h:13-15 | The conditional xor of the shifted register subtracts the generator when the leading coefficient is one |
| Crc.DivideStep | src/ota_crc.h:13-15 | One turn of the bit loop is one step of long division |
| Crc.DivideByte | src/ota_crc.h:12 | A byte folded into the register is a byte at the head of the dividend |
| Crc.UpdateDivides | src/ota_crc.h:10-18 | The register after the data is the remainder of the data times x^32, the initial register added to its leading coefficients |
| Crc.CrcIsFrameCheck | src/ota_crc.h:20-22 | The result is the frame check sequence of section 3.2.9 of IEEE 802.3 for every input |
| HexParse.HexParser.ParseLine | src/hex_parse.h:55-140 | The scan reads any line as the grammar does, with the same error, and updates the parser accordingly |
| HexParse.ScanRecord | src/hex_parse.h:72-95 | The pair loop and the tail loop accept exactly the record bodies, and return their bytes and sum |
| HexParse.PairsAreThere | src/hex_parse.h:72-87 | In a record body every pair the length byte announces is there |
| HexParse.BodyIsTrimmed | src/hex_parse.h:88-95 | Pairs followed by blanks only are the trimmed text |
| HexParse.ParserStaysValid | src/hex_parse.h:118-124 | The extended address keeps to the upper half of 32 bits |
| HexPrint.ReadPrinted | src/hex_parse.h:55-140 | A printed record reads as that record, LF or CRLF |
| HexPrint.JoinedLines | src/ota_ingest.h:125-140 | Lines joined by newlines are taken apart into the same lines |
| HexPrint.ChunksFollow | src/hex_parse.h:104-124 | Data and type-04 lines extend the image read so far by exactly the printed chunks |
| HexPrint.RoundTrip | src/ota_ingest.h:125-182 | Any non-empty image that fits, in records of 1 to 255 bytes that cross no 64 KiB boundary, is accepted when printed and fed, and read back as that image at that address |
| HexPrint.LastNewlineIsOptional | src/ota_ingest.h:166-172 | Without its last newline the stream means the same |
| HexDamage.OneByteChanged | src/hex_parse.h:96-98 | A printed record of any type with any one byte replaced by another reads as a checksum error, or, for the length byte, as malformed |
| HexDamage.SumAdds | src/hex_parse.h:79-87 | The sum behind it is the sum of the bytes |
| HexDamage.StandardEnd | src/hex_parse.h:112-117 | `:00000001FF` is the end-of-file record |
| HexDamage.CutShort | src/hex_parse.h:80-87 | A printed line cut anywhere before its end is malformed |
| HexDamage.AfterEndOfFile | src/hex_parse.h:67-69 | After the end-of-file record any written line is refused as such, sound or not |
| HexDamage.PrintedRefused | src/hex_parse.h:104-140 | A well-summed record is refused exactly for a type past 5 or a payload its type does not have; types 2 and 3 say nothing |
| HexDamage.ReadStart | src/hex_parse.h:125-132 | A printed start address reads as that 32-bit address |
| HexDamage.NibbleInverts | src/hex_parse.h:33-38 | The hex digits are those of both cases, by value, and no other character |
| HexDamage.PaddedLine | src/hex_parse.h:57-95 | Blanks before a written line and after it change nothing |
| HexDamage.BlankLine | src/hex_parse.h:57-63 | A blank line says nothing, even after the end |
| HexDamage.DamagedUpload | src/ota_ingest.h:125-182 | An upload with a printed line one byte of which was changed is refused, whatever comes before and after, the last line without its newline included |
| HexDamage.CutUpload | src/ota_ingest.h:125-182 | So is one with a printed line cut short, or that stops in the middle of one |
| HexDamage.LateUpload | src/ota_ingest.h:149-155 | So is one with any written line after the end-of-file record |
| HexDamage.NeedsEndOfFile | src/ota_ingest.h:173-176 | So is one no line of which reads as the end-of-file record |
| HexDamage.OverlongUpload | src/ota_ingest.h:129-137 | So is one with a line of 600 characters or more, whatever it says |
| HexDamage.SeenIffEnds | src/hex_parse.h:112-117 | The parser has seen the end exactly when some line read as the end-of-file record |
| HexDamage.DataLineOk | src/ota_ingest.h:73-101 | A printed data line is taken exactly when it lies inside the buffer and continues the image |
| Flash.NorFlash.Write | src/flash_ota.cpp:46-55 | Splitting at page boundaries programs the same cells, each operation within one page |
| Flash.NorFlash.EraseSector | src/flash_ota.cpp:39-41 | One sector becomes 0xFF |
| OtaIngest.OtaIngest.constructor | src/ota_ingest.h:51-53 | A fresh ingest has been fed nothing |
| OtaIngest.OtaIngest.HandleData | src/ota_ingest.h:75-122 | Accepts exactly the records inside the buffer that continue the image, and then holds the longer image, its CRC and counters |
| OtaIngest.OtaIngest.EraseOnDemand | src/ota_ingest.h:106-113 | Erases exactly the sectors the record adds, each once, ascending, before they are programmed; the bitmap then has exactly the bits of the sectors erased |
| OtaIngest.MarkedSets | src/ota_ingest.h:66-72 | Marking a sector in the bitmap sets the bit that is read for it and no other |
| OtaIngest.StageRecord | src/ota_ingest.h:106-114 | Erasing the added sectors and programming the record stages the longer image, though programming only clears bits |
| OtaIngest.OtaIngest.HandleLine | src/ota_ingest.h:138-162 | A line is accepted exactly when it reads without error and its data continue the image |
| OtaIngest.OtaIngest.FeedByte | src/ota_ingest.h:125-163 | Byte by byte, an error is reported exactly when the stream so far is bad, and sticks |
| OtaIngest.OtaIngest.Finish | src/ota_ingest.h:166-182 | An open last line counts; an end-of-file record and at least one byte are required |
| OtaIngest.OtaIngest.Upload | src/ota_ingest.h:75-182 | A stream is accepted exactly when it is well formed; then the staged region equals the concatenated payloads, its sectors were erased once each in ascending order, bytesWritten is maxAddr - minAddr + 1 and the running CRC is the CRC-32 of the image; accepted or not, nothing outside the buffer is touched |
| OtaIngest.OtaIngest.AfterIsDone | src/ota_ingest.h:75-122 | What the invariant means for flash, counters and CRC |
| OtaIngest.StagedSlice | src/ota_ingest.h:114 | The staged region is the image |
| FlashCommit.CommitFlash.SectorNotErased | src/flash_ota.cpp:57-65 | True exactly when some cell of the sector is not 0xFF |
| FlashCommit.CommitFlash.FlashCrc | src/flash_ota.cpp:74-87 | The paged CRC is the CRC of the range |
| FlashCommit.CommitFlash.CopySector | src/flash_ota.cpp:115-127 | One sector: nothing outside it moves, and without faults it holds the staged bytes |
| FlashCommit.CommitFlash.CopyImage | src/flash_ota.cpp:113-128 | One copy: the staged source is untouched, and without faults the base image equals it |
| FlashCommit.CommitFlash.WipeImage | src/flash_ota.cpp:139-144 | The wipe between attempts stays within the image sectors and without faults leaves them blank |
| FlashCommit.CommitFlash.Attempt | src/flash_ota.cpp:112-145 | At most three copies, each made with the staged source as it was; all but the last read back wrong; without faults every one after the first starts on wiped sectors; the last is left unwiped; a match is a read-back of the expected CRC |
| FlashCommit.CommitFlash.WipeRest | src/flash_ota.cpp:160-166 | The final wipe touches only what lies above the image and below the EEPROM reserve |
| FlashCommit.CommitFlash.Commit | src/flash_ota.cpp:89-172 | Resets exactly when the last copy read back with the expected CRC, and the image bytes are then still those; false means three copies and the last left in place; the source was intact for every copy; the reserve is never touched; without faults the first copy is the staged image and resets exactly when its CRC is the expected one |
| StreamRing.StreamRing.Next | src/stream_ring.h:34-71 | Returns the next unread sample, or repeats the last one and counts one underrun, the latter only if neither buffer had anything unread at the call; hands a buffer back only after delivering all of it; while no publication has overtaken another, everything played is the beginning of everything published, in that order; a call during which nothing was published leaves nothing to overtake; undisturbed and starved, it requests every buffer but one being filled |
| StreamRing.StreamRing.Interfere | src/stream_ring.h:77-87 | No producer step moves the consumer or alters a published or idle buffer |
| StreamRing.StreamRing.BeginRefill | src/stream_ring.h:78-82 | Claims exactly a requested buffer, and hides or uncovers no batch |
| StreamRing.StreamRing.Write | src/stream_ring.h:77-84 | Writing a claimed buffer keeps everything delivered and published accounted for |
| StreamRing.StreamRing.MarkFilled | src/stream_ring.h:84-87 | Publishes exactly the first n samples as one batch; it overtakes an earlier batch exactly when n > 0 and it goes into the buffer read next while the other one holds a different batch; never once nothing was waiting |
| StreamRing.StreamRing.HandBack | src/stream_ring.h:37-44 | The batch handed back has been delivered whole, in order |
| StreamRing.StreamRing.RequestIfIdle | src/stream_ring.h:49-53 | Never overwrites a buffer that is being filled |
| StreamRing.StreamRing.Take | src/stream_ring.h:69-70 | Reads only a published sample |
| StreamRing.StreamRing.TryOther | src/stream_ring.h:45-68 | Finds the other buffer whenever it had been published |
| StreamRing.StreamRing.LookAtActive | src/stream_ring.h:35-44 | After handing back an exhausted buffer, an unread sample is still found |
| StreamRing.TakeBack | src/stream_ring.h:37-44 | Handing back moves the head of the queue to the finished side: every batch is delivered once, in its place |
| StreamRing.WholeBatch | src/stream_ring.h:37-44 | At its end a batch has been delivered from index 0 to n - 1 |
| StreamRing.Publish | src/stream_ring.h:84-87 | Publishing holds exactly the first n samples and changes nothing about what was delivered |
| StreamRing.PublishInTurn | src/stream_ring.h:84-87 | The order of publication stays the order of delivery exactly when the batch overtakes no different one |
| StreamRing.PassOver | src/stream_ring.h:45-64 | Passing over an empty buffer changes no order |
| StreamRing.StreamRing.Advance | src/stream_ring.h:34-68 | Finds a sample whenever one was unread at the call; finding none, with nothing published meanwhile, means both buffers are empty |
| StreamRing.StreamRing.PlayedInOrder | src/stream_ring.h:34-71 | Batches handed back and samples played are the beginning of those published |
| StreamRing.StreamRing.Consume | src/waveform.cpp:74-76 | Any number of calls by the ISR; one is enough to leave nothing to overtake |
| StreamRing.PlayedOutOfTurn | src/stream_ring.h:45-68 | A run from the constructor in which the batch published last is played before the one published first |
| StreamRing.Player.FillStreamBuffer | src/waveform.cpp:40-61 | Publishes the next samples of the file, wrapping at its end, up to the first failed read; the file position follows exactly what was published |
| StreamRing.Player.StreamTask | src/waveform.cpp:63-72 | Keeps the published stream equal to the file repeated from its start, with the ISR between any two steps; a buffer it claims it gives back |
| StreamRing.Player.PlaysTheFile | src/waveform.cpp:40-72 | If every fill found nothing waiting or saw a call of the ISR, what was played is the file front to back, over and over |
| Capture.LagIsDistance | src/capture.cpp:245-249 | The modular lag is the distance modulo 2^32, and the distance itself exactly while the cursor is less than 2^32 behind |
| Capture.AheadIsSeen | src/capture.cpp:245-249 | A cursor ahead of a reset counter shows as one exactly when it is less than 2^31 ahead |
| Capture.StartIsWanted | src/capture.cpp:242-256 | For every cursor and counter the drain starts at the cursor, the margin or the end as it should, exactly unless the distance modulo 2^32 passes for a lag of up to 2^31 |
| Capture.StartIsModular | src/capture.cpp:242-256 | The cursor arithmetic on 32-bit counters starts the copy where the lag says |
| Capture.StartIsForward | src/capture.cpp:245-256 | While the counter has run on from the cursor the drain starts at it or further on |
| Capture.SlotOfCounter | src/capture.cpp:261 | The ring slot of a wrapped counter is the slot of its sample, counters before the reset included |
| Capture.SlotsDiffer | src/capture.cpp:142-144 | A new sample overwrites only the one that leaves the last 2^20 |
| Capture.FarResetIsMisread | src/capture.cpp:245-256 | A counter reset by 2^31 or more is always misread; the drain then starts before the recording exactly when that is shorter than the ring |
| Capture.Capture.Tick | src/capture.cpp:139-145 | The ring holds the last 2^20 samples after every store |
| Capture.Capture.Configure | src/capture.cpp:110-111 | A reset restarts the counters and leaves the ring as it was |
| Capture.Capture.ReadSince | src/capture.cpp:241-268 | For every cursor: returns consecutive samples from the start the lag gives, skipping only by the two snaps, and moves the cursor past them; with at most 4096 stores during the call every copied sample is the one of its index, an index below zero meaning what the ring held there before the reset |
| Capture.Capture.CopyOut | src/capture.cpp:261-266 | The same for the copy loop, preempted between any two samples |
| Capture.Capture.Drain | src/capture.cpp:241-268 | Repeated drains of one reader, samples coming at any time: the answers follow one another in the recording, never overlap and never go back |
| FixedPoint.RoundIsNearest | arc_detector/fixed_point.py:88-92 | The rounding yields the nearest integer, the even one of two |
| FixedPoint.NearestIsUnique | arc_detector/fixed_point.py:88-92 | There is only one such integer |
| FixedPoint.BitLengthHolds | arc_detector/fixed_point.py:242-248 | bit_length() is the least width that holds a magnitude |
| FixedPoint.RoundShiftIsNearest | arc_detector/fixed_point.py:95-106 | The shortcut for wide shifts rounds the same way |
| FixedPoint.RoundShiftWithin | arc_detector/fixed_point.py:245-246 | Rounding keeps a bound on the magnitude |
| FixedFir.WidthsCertify | arc_detector/fixed_point.py:240-249 | The computed minimum widths bound every accumulator and every output |
| FixedFir.LeastWidthIsLeast | arc_detector/fixed_point.py:240-249 | They are the least such widths of two bits or more |
| FixedFir.Build | arc_detector/fixed_point.py:233-258 | A filter comes out exactly when the widths suffice, and its output word is the one asked for or the least certified |
| FixedFir.CoefficientCodes | arc_detector/fixed_point.py:180-195 | Coefficients, as exact ratios, come out as their nearest Q1.23 codes, ties to even, exactly when there are 1 to 4096 of them and each fits before and after rounding |
| FixedFir.Construct | arc_detector/fixed_point.py:233-258 | The whole constructor: a filter comes out exactly when the coefficients quantize and the widths suffice |
| FixedFir.TwoStretches | arc_detector/fixed_point.py:294-302 | Every partial sum of the folded loop is within the certified bound |
| FixedFir.FoldStep | arc_detector/fixed_point.py:295-297 | A symmetric pair is two taps of the convolution |
| FixedFir.FoldEnds | arc_detector/fixed_point.py:294-299 | The pairs and the middle tap are the whole sum |
| FixedFir.ProductFits | arc_detector/fixed_point.py:294-302 | A tap times a sample, or times a folded pair, is within the certified bound |
| FixedFir.PreAdd | arc_detector/fixed_point.py:256-257 | A folded pair fits one bit more than the input word |
| FixedFir.Accumulate | arc_detector/fixed_point.py:293-302 | Folded or not, the tap loops compute the plain dot product; every pair is one bit wider than the input and every product and partial sum stays inside the accumulator |
| FixedFir.DotIsConv | arc_detector/fixed_point.py:289-302 | The dot product of a window is the convolution at its last sample |
| FixedFir.ImpulseResponse | arc_detector/fixed_point.py:289-302 | The answer of the convolution to a unit impulse is the taps, in order |
| FixedFir.ConvAdds | arc_detector/fixed_point.py:289-302 | The answer to a sum of streams is the sum of the answers |
| FixedFir.ConvShifts | arc_detector/fixed_point.py:289-302 | The answer to a delayed stream is the delayed answer |
| FixedFir.RoundInline | arc_detector/fixed_point.py:303-308 | The vector rounding is the rational rounding |
| FixedFir.FirstOffset | arc_detector/fixed_point.py:291-292 | The slice starts at the first multiple of the factor |
| FixedFir.OwedCausal | arc_detector/fixed_point.py:277-316 | Later samples change no output |
| FixedFir.ChunkIndependent | arc_detector/fixed_point.py:277-316 | The answers to any chunking, joined, are what the plain convolution of the whole stream owes |
| FixedFir.ValidIffNoSilence | arc_detector/fixed_point.py:311 | An output is marked valid exactly when no tap reaches before the stream |
| FixedFir.FixedFirDecimator.Process | arc_detector/fixed_point.py:277-316 | Refuses discontinuous or out-of-range input unchanged; otherwise answers with the rounded convolution at each multiple of the factor, its validity, and outputs within output_bits |
| FixedFir.FixedFirDecimator.Decimate | arc_detector/fixed_point.py:289-311 | The selected windows answer every multiple of the factor and nothing else |
| FixedFir.FixedFirDecimator.Output | arc_detector/fixed_point.py:293-308 | One output, with no overflow on the way |
| FixedFir.FixedFirDecimator.Commit | arc_detector/fixed_point.py:312-315 | The retained history is the end of the stream |
| FixedFir.FixedFirDecimator.Reset | arc_detector/fixed_point.py:272-275 | Forgets the stream |
| FastOracle.BlocksTile | arc_detector/fast_oracle.py:264-265 | Blocks tile the settled stream in spans of 256 source samples |
| FastOracle.RipeIffConsumed | arc_detector/fast_oracle.py:269-270 | A block is released exactly when the last sample of its span has been consumed |
| FastOracle.BankCodesGrow | arc_detector/fast_oracle.py:233-243 | More source samples only append to what the band filters receive |
| FastOracle.SettledIsFirst | arc_detector/fast_oracle.py:239-252 | A bank index is past settling exactly when no tap of either stage reaches before the stream |
| FastOracle.BlockCausal | arc_detector/fast_oracle.py:242-268 | A complete block does not depend on later samples |
| FastOracle.Bank.Process | arc_detector/fast_oracle.py:224-272 | Refused input changes nothing, the filters included; accepted input is answered with exactly the blocks that ripened, in either architecture |
| FastOracle.Bank.FeedPrefix | arc_detector/fast_oracle.py:233-241 | The prefix filter accepts every code, its output is what the bank stream owes next, and every output is a word of the band filters |
| FastOracle.Continue | arc_detector/fast_oracle.py:235-243 | A filter that has consumed a stream accepts the next codes of its word and answers what the plain convolution owes |
| FastOracle.Bank.RunFilters | arc_detector/fast_oracle.py:243 | Each of the six filters answers for the same codes what its own taps owe |
| FastOracle.Bank.Columns | arc_detector/fast_oracle.py:251 | Side by side the outputs are the rows of the definition |
| FastOracle.OwedEach | arc_detector/fixed_point.py:291-311 | Without decimation one output a sample, valid once the window is full |
| FastOracle.Bank.NoteFirstValid | arc_detector/fast_oracle.py:239-241 | The first fully fed prefix output, remembered once |
| FastOracle.Bank.SelectValid | arc_detector/fast_oracle.py:244-252 | The two-stage mask keeps exactly the rows past settling |
| FastOracle.Bank.FeedBank | arc_detector/fast_oracle.py:242-254 | The six filters accept every code; their outputs, kept by the validity flags of the first, extend the settled rows not yet in a block |
| FastOracle.Bank.CutOne | arc_detector/fast_oracle.py:255-268 | Each block cut is the next block of the stream |
| FastOracle.Bank.Release | arc_detector/fast_oracle.py:269-270 | Splits the pending list at the consumed end |
| FastOracle.MakeBlock | arc_detector/fast_oracle.py:257-263 | Band energies taken as sums over eight fragments are the energies of the whole block |
| FastOracle.EnergySplits | arc_detector/fast_oracle.py:260-263 | Energies add over adjacent stretches |
| FastOracle.EnergyOfOne | arc_detector/fast_oracle.py:260-263 | The energy of one sample is its square, so with the row above an energy is the sum of the squares |
| FastOracle.BlockEnergyFits | arc_detector/fast_oracle.py:207-210 | Under the constructor bound no band energy of any block leaves an int64 |
| FastOracle.BuildBank | arc_detector/fast_oracle.py:198-211 | A bank comes out exactly when every filter is accepted, the bands at the width the prefix puts out, and every block energy fits an int64 |
| FastOracle.Bank.EnergiesFit | arc_detector/fast_oracle.py:207-210 | The same of a running bank, whatever it has been fed |
| FastOracle.Bank.Reset | arc_detector/fast_oracle.py:213-222 | Every filter and the bank forget their stream |
| FastOracle.StreakIsRun | arc_detector/fast_oracle.py:299 | The streak is the length of the maximal qualifying run that ends here |
| FastOracle.DecisionAtEighth | arc_detector/fast_oracle.py:302-303 | A block is reported with streak 8 exactly when it and the seven before it hold evidence (four bands, one in each octave, that exceed eight times their quantile a sample over the block and eight times their floor in six fragments) and the one before those does not |
| FastOracle.ActiveIffSix | arc_detector/fast_oracle.py:159-160 | A band counts six active fragments exactly when six different fragments of it each exceed eight times its floor times the fragment length |
| FastOracle.StrongIffLoud | arc_detector/fast_oracle.py:161-162 | A band is strong exactly when its energy exceeds eight times its quantile times the block length and six of its fragments are active |
| FastOracle.QualifyingIffEvidence | arc_detector/fast_oracle.py:163 | A block qualifies exactly when four different bands are that loud and each octave has one |
| FastOracle.LouderQualifies | arc_detector/fast_oracle.py:159-163 | A block at least as loud in every band and fragment qualifies if the other does |
| FastOracle.DecisionIffEighth | arc_detector/fast_oracle.py:295-304 | Through the whole oracle, a decision is emitted exactly at the end of the eighth block of a maximal run of such evidence |
| FastOracle.SilenceIsQuiet | arc_detector/fast_oracle.py:224-304 | A silent stream is never decided on, however low the thresholds |
| FastOracle.FragmentsAddUp | arc_detector/fast_oracle.py:157-158 | The fragments of every block of the bank add up to its band energies, so its evaluation never refuses it |
| FastOracle.FixedFastOracle.Process | arc_detector/fast_oracle.py:295-304 | Reports (block, active fragments, strong bands, qualification, streak) and decisions are those of the stream for the blocks that ripened |
| FastOracle.SplitIndependent | arc_detector/fast_oracle.py:224-304 | Any two splits of a stream give the same reports once the same samples are consumed |
| FastOracle.DecisionsAppend | arc_detector/fast_oracle.py:302-303 | So the decisions join up as well |
| Detector.Detector.Process | arc_detector/detector.py:394-485 | A complaint about health or mode latches at the call's start with exactly that decision and drops all evidence; having no path latches likewise but keeps it; otherwise the events, then the clock; a latched decision stands |
| Detector.Detector.ConsumeSpectral | arc_detector/detector.py:326-363 | A group of frames: streaks, accumulators, latches, suspicion; unless latched a weak frame leaves the detector suspecting, and no group leaves it initialising |
| Detector.Detector.ConsumeFast | arc_detector/detector.py:365-372 | The streak of the block's path counts or restarts; at eight or more an unlatched detector has latched, with exactly that decision; nothing else but the clock moves |
| Detector.QualifiesIffFourBands | arc_detector/detector.py:366-367 | A block qualifies exactly when it has six flags, four different bands are strong and each octave has one |
| Detector.Detector.TakeFrame | arc_detector/detector.py:331-343 | A weak frame adds 8192 and any other takes 2048, never below zero; latched exactly when it was, or three strong frames in a row or 80000 samples of weight are reached, with one decision that names the strong streak first |
| Detector.WeakIffTwoBands | arc_detector/detector.py:334 | A frame is weak exactly when two different bands are |
| Detector.StrongIffThreeBands | arc_detector/detector.py:335 | A frame is strong exactly when three different bands are |
| Detector.Detector.SettleSuspicion | arc_detector/detector.py:344-360 | A weak frame starts a suspicion or keeps the older one; without one, and with no weight left on either path, the second raw frame ends it and monitoring resumes; weight left restarts that count; a latched state stands |
| Detector.Detector.Trip | arc_detector/detector.py:160-165 | A latched detector is unchanged; an unlatched one is latched in the given state with exactly one decision more |
| Detector.Detector.LookAtClock | arc_detector/detector.py:167-172 | Afterwards no unlatched suspicion is past its deadline; the decision carries the deadline, not the time of looking; before it nothing changes |
| Detector.TimeoutAbsorbs | arc_detector/detector.py:167-172 | Looking at the clock early changes nothing that looking later would not |
| Detector.CallsJoin | arc_detector/detector.py:460-483 | Two calls do what one call over all their items does |
| Detector.CallsAreOne | arc_detector/detector.py:460-483 | So does any number of calls |
| Detector.PartitionIndependent | arc_detector/detector.py:394-485 | For constant health, mode and paths, good or bad, however the stream is cut into calls, state and decisions come out the same: the same set of events, each call sorting those its samples complete |
| Detector.SortedIsUnique | arc_detector/detector.py:460-462 | The sorting key orders any set of events in one way |
| Detector.SortingKey | arc_detector/detector.py:460-462 | That key is the time, then blocks before frames, then raw before residual |
| Detector.TurnsAreCalls | arc_detector/detector.py:412-427 | A complaint or a lack of paths speaks at the first call only |
| Detector.ConsumeKeeps | arc_detector/detector.py:160-165 | Once latched, state and decision stand |
| Detector.AtMostOneDecision | arc_detector/detector.py:160-165 | At most one decision between resets, an unqualified profile, faults and lost paths included, and the first one stands |
| Detector.FirstCall | arc_detector/detector.py:236-240 | An unqualified profile emits its one decision at the first call |
| Detector.SuspicionResolved | arc_detector/detector.py:167-172 | No call leaves a suspicion past its deadline without a latch |
| Detector.TimeoutIsExact | arc_detector/detector.py:167-172 | Unresolved suspicion latches at exactly its start plus 400000, before any later evidence is heard |
| Detector.WeightIsBestWindow | arc_detector/detector.py:337-338 | The accumulator is the best score of any window ending now, the empty one included |
| Detector.QualifiesIffWindow | arc_detector/detector.py:337-343 | It reaches 80000 exactly when some window ending now scores as much |
| Detector.ReachesIffRun | arc_detector/detector.py:336-369 | A streak reaches n exactly when the last n are set |
| Detector.ConsumeTracks | arc_detector/detector.py:326-372 | Over any run of items each counter of a path is the measure of what was heard of that path, reaching its limit latches, and a decision that blames path and kind was preceded by reaching it |
| Detector.EvidenceLatches | arc_detector/detector.py:326-372 | Down to the band flags: from a reset nothing escapes the latch, no window that scores 80000 with two weak bands making a frame weak, no three frames in a row with three strong bands each, no eight blocks in a row with four strong bands over all octaves, of an available path |
| Detector.ArcsAreEvident | arc_detector/detector.py:326-372 | And nothing is made up: an arc told by a run from a reset names an available path, and the band flags of that path hold the window or the streak it names |
| Detector.EvidentIffLimit | arc_detector/detector.py:337-369 | A counter is at its limit exactly when such a window or streak ends now |
| Modulation.RefIsBetween | src/modulation.h:115-121 | The interpolated reference lies between its two table entries |
| Modulation.RefIsOnTheLine | src/modulation.h:115-121 | Entry `idx`, `frac` 256ths on: the point of the line from that entry to the next, rounded down, exact at the entries |
| Modulation.ScaleFits | src/modulation.h:153-157 | The scaling product fits an int32_t |
| Modulation.ScaleIsFloor | src/modulation.h:153-157 | Scaling multiplies by index/32768 and rounds down; the full index changes nothing |
| Modulation.PhaseSequence | src/modulation.h:150-157 | A leg carries k thirds of a turn later what leg 0 carries now, in the order 0, 1, 2; three such thirds are a turn but for one count |
| Modulation.AdvancedAtFullIndex | src/modulation.h:211-216 | The references the clamp looks at are those of the advanced phase at full index |
| Modulation.ContinuousSvmZss | src/modulation.h:162-169 | The zero sequence centres the extremes, with C division |
| Modulation.HalvesTowardsZero | src/modulation.h:169 | The division by two rounds towards zero, alike on either side of it |
| Modulation.FindMiddle | src/modulation.h:189-210 | The leg that is neither the first of the smallest magnitude nor the first of the largest, or leg 0 when all are equal: never past the end |
| Modulation.MiddleIsBetween | src/modulation.h:189-210 | Its magnitude lies between those of the other two legs, or all three are equal |
| Modulation.FindExtreme | src/modulation.h:179-188 | The lowest or the highest leg, of equals the first |
| Modulation.FindLeading | src/modulation.h:211-222 | The leg of the largest magnitude after the clamp advance, of equals the first |
| Modulation.DpwmZss | src/modulation.h:175-225 | Carries the leg the variant chooses to its rail |
| Modulation.ExactIffSpanFits | src/modulation.h:231-242 | All pairwise duty differences are exact, and no leg saturates, exactly when the extremes fit |
| Modulation.SvpwmExact | src/modulation.h:162-169 | SVPWM: exactly while the references span at most 65534 |
| Modulation.DpwmExact | src/modulation.h:178-188 | DPWMMIN and DPWMMAX likewise |
| Modulation.Dpwm3Exact | src/modulation.h:189-225 | The variants that clamp by magnitude: exactly while the span fits and the chosen leg is the extreme on its side |
| Modulation.UnbalancedLosesDifferences | src/modulation.h:189-225 | References at which both variants choose a leg that is no extreme, and a difference is lost |
| Modulation.DpwmPins | src/modulation.h:175-225 | Every DPWM variant holds a leg at duty 1 or 65535 each cycle, two of them also under dead-time compensation |
| Modulation.NeutralExact | src/modulation.h:442-450 | 3D-SVPWM: each leg less the neutral is its reference exactly while the neutral does not saturate |
| Modulation.CompensationIsSigned | src/modulation.h:231-244 | Dead-time compensation moves the duty the way of the reference, by its amount or to the rail; a reference and its negative get mirrored duties |
| Modulation.CycleIsExact | src/modulation.h:433-452 | The duties of a cycle, from references to comparators: without compensation SVPWM, 3D-SVPWM, DPWMMIN and DPWMMAX show every difference exactly when the references span at most 65534; every DPWM variant rests a leg at a rail; the neutral leg as above |
| Modulation.StackConserves | src/modulation.h:327-338 | The stacked bands add up to the scaled reference, less one step for every full band |
| Modulation.NearestLevel | src/modulation.h:327-338 | Nearest-level modulation turns every cell wholly on or off, and as many on as the nearest whole number of levels |
| Modulation.ComplementSums | src/modulation.h:408-410 | A complemented duty is on for the rest of the period |
| Modulation.CycleDuties | src/modulation.h:433-461 | Every scheme fills exactly its slots from the pipeline above, and the filled duties keep those promises |
| Calendar.YearExists | src/event_log.h:143-146 | Every day of a 400-year era belongs to one of its March years |
| Calendar.FormulaAt | src/event_log.h:144 | The year-of-era formula inverts the March year starts, leap days included |
| Calendar.MonthOfYear | src/event_log.h:147-148 | The month formula inverts the month starts |
| Calendar.DateCounts | src/event_log.h:141-150 | The March-based date counts to the same day as the calendar |
| Calendar.CivilCountsBack | src/event_log.h:131-152 | Every 32-bit epoch comes out as a date of the proleptic Gregorian calendar that counts back to it |
| Calendar.CountThenCivil | src/event_log.h:131-152 | And every such date whose count fits comes back from its count |
| Calendar.SecondsInOrder | src/event_log.h:131-152 | Counting respects the order of dates |
| Calendar.StampsInOrder | src/event_log.h:156-187 | Stamps (section 5.6 of RFC 3339) of nonzero epochs sort lexicographically as the epochs do |
| Calendar.StampsDiffer | src/event_log.h:156-187 | And no two of them are equal |
| Calendar.StampReadsBack | src/event_log.h:156-187 | A stamp has its separators in place and its digits read back as the date and time that count back to the epoch |
| Calendar.FormatIso8601 | src/event_log.h:156-187 | Writes exactly the stamp and a NUL, an empty string for epoch 0, and nothing without room for 21 characters |

## Left out

- Register programming, timer enables, pin mux, LDOK, ADC and the fault maps: kept are OUTEN, polarity, fault flags, interrupt enable and pending bits; readbacks are free choices.
- `acmpCbcTick`: cycle-by-cycle mode clears fault flags once a carrier cycle; the latched mode modelled here never runs it.
- Interrupts among themselves: the two trip interrupts share one priority, so each is atomic.
- JSON text, field by field decoding and range clamps: a document is readable or torn, with a generation and a payload.
- Card errors outside the protocol: no card, a path that is too long, a temporary file that cannot be created (which ends as a failed write does).
- Renames of the card are atomic and a torn file fails its integrity check; what FAT itself can tear is not modelled.
- Floating point: window, twiddle rounding, PSD, features, calibration, THD, PLL and prediction. The transform is exact, with twiddles that satisfy the half-angle law.
- FastOracle.FixedFastOracle.Process: envelopes are values; provenance, signatures, canonical architectures and the calibration quantile are not modelled.
- FixedFir.Construct: coefficients are finite numbers given as exact ratios; array types, booleans and non-finite values are refused before that.
- FixedFir.FixedFirDecimator.Process: accumulates window by window where the source accumulates tap by tap over all windows; sums are the same, order of work is not.
- Detector.PartitionIndependent: frames and blocks arrive as events; health, operating mode, paths and known edges stay constant, and path resets inside a run are not modelled.
- Detector.Detector.Process: `decisions` collects what the source returns call by call; permits, tiers and warm-up bounds are left out.
- OtaIngest.OtaIngest.Upload: the line counter, the project marker and the image header checks are left out.
- FlashCommit.CommitFlash.Commit: the watchdog kicks and interrupt masks around the loops are left out; the endless wait after the reset request is the return value `reset`.
- StreamRing.StreamRing.Next: `reset` is left out, since it is called only while playback is stopped.
- StreamRing.Player.FillStreamBuffer: a read that fails leaves a part of the file behind the published samples, or nothing; the mode and file checks of `waveformStreamTask` are left out.
- Capture.Capture.ReadSince: freezing, metering, scope and the other readers are left out.
- Mppt.MpptState.Evaluate: power differences that overflow an int32_t are undefined in C++ and excluded; the limits are those validation leaves.
- Modulation.CycleDuties: table building, dither, soft start and carrier plans are inputs or left out.
- Compressed uploads, web, MQTT, NTP, display and the event ring are I/O around these parts.

# Verified model of the ArcCore MCAL core

This project models the stateful parts of the ArcCore AUTOSAR 4.1.2 MCAL tree for STM32 and proves
what they keep over every input, every run and every interleaving: the CAN driver with its bxCAN
mailboxes, filters and interrupt enables; the circular buffer; formatted output and number
rendering; the tokenizer and command dispatch; the RAM file layer; and the two timers.

Each component comes in two parts. A `…Spec` module (or the first half of a module) states the
behaviour on values: a state, its steps, and runs of steps. Where the source updates things in
place, a class or an array method performs the same steps and is proved equal to them, call by
call. Theorems are about the steps and the runs, and compare them with something said
independently: a history, a queue, a splitting of strings, byte sequences with a cursor, a linear
search, the text cut off at the limit.

`dafny verify dfyconfig.toml` checks everything.

## Modules

| part | modules |
|---|---|
| CAN configuration, bit timing and its register, filters | `CanConfig`, `CanBtr`, `CanTiming`, `CanFilter` |
| CAN transmit protocol, access by access, and when it loses | `CanTx`, `CanTxLoss` |
| CAN driver: steps, class, effect of each step | `CanSpec`, `CanDriver`, `CanEffects` |
| CAN driver: when each call is accepted, and what it leaves | `CanAnswers` |
| CAN driver over whole runs: modes, lock, handles, writes | `CanRuns`, `CanModes`, `CanIndex`, `CanTxRuns`, `CanTxCare`, `CanConfirm` |
| CAN driver over whole runs: reception, start-up, statistics | `CanReceive`, `CanFifo`, `CanStartup`, `CanCounts` |
| Circular buffer | `CirqSpec`, `CirqBuffer` |
| Number rendering, formatted output | `Xtoa`, `PrintfSpec`, `Printf` |
| Tokenizer, shell | `StrtokSpec`, `Strtok`, `Shell` |
| RAM files | `RamFilesSpec`, `RamFiles`, `FileTable` |
| Sleep, general purpose timer | `Sleep`, `SleepTimer`, `GptSpec`, `GptRuns`, `Gpt` |
| Inputs at which expectations fail | `CanExamples`, `Examples` |

## Where the code does not do what one would expect

Each of these is modelled as the code has it. A theorem says exactly when the expected behaviour holds, and a lemma in
`CanExamples` or `Examples` gives an input at which it does not.

- The object-count check of `Can_Init` overlooks the last element of the list and counts in eight bits
  (`CanConfig.CheckIsSoundIff`, `CanExamples.ThreeReceiversPass`).
- A baud-rate change programs table entry 0 whatever entry matched (`CanReceive.ChangeServesIff`,
  `CanExamples.SecondRateIsNotServed`), and the timing fields go into CAN_BTR unmasked, so values that do not fit wrap
  or run over into their neighbours (`CanBtr.RegisterExactIff`, `CanExamples.SlowRateWraps`).
- Changing the baud rate of the first controller empties the filters of all others (`CanReceive.OthersKeepFiltersIff`,
  `CanExamples.MasterSilencesSlave`), so the order of controllers in the configuration decides who hears after
  `Can_Init`, and so does whether their default rates are offered (`CanStartup.InitRoutesIff`,
  `CanExamples.SlaveFirstIsDeaf`), and a shorter list of receive objects leaves old filters active
  (`CanReceive.ChangeRoutesIff`, `CanExamples.OldFilterStays`).
- The interrupt lock never masks FIFO 1 (`CanRuns.LockCoversFifo1Iff`, `CanExamples.DisabledButFifo1`), and its
  counter wraps at 2^32, after which nothing interrupts although it reads unlocked (`CanRuns.LockExactIff`,
  `CanRuns.SourcesFollowConfigIff`, `CanExamples.LockWraps`).
- A write into a mailbox whose CANTXOK is still to be seen, and a completion behind the back of the running transmit
  interrupt, each lose a confirmation (`CanTxLoss.NothingLostIffCareful`, `CanTxCare.DriverLosesNothingIff`,
  `CanExamples.SecondWriteLosesFirst`, `CanExamples.LateCompletionIsLost`).
- A receive FIFO is not locked: a frame that finds three waiting overwrites the newest (`CanFifo.ArrivalsAreToldIff`,
  `CanExamples.FourthFrameOverwrites`).
- A standard receive object also accepts extended frames whose leading eleven bits agree, and a mixed one accepts
  extended frames only (`CanFilter.EncodeMatches`, `CanExamples.FormatsLeak`).
- `CirqBuff_Peek` at the count itself answers with the slot of the next push, and while a record is being read it
  counts from the one behind it (`CirqSpec.PeekPoints`, `Examples.PeekPastTheLast`).
- `vsnprintf` returns the number of characters stored, not the would-be length, and takes a size of 0 or of 2^31 and
  more as no limit (`Printf.Vsnprintf`, `Examples.ResultIsNotTheLength`, `Examples.SizeZeroIsNoLimit`); zero padding
  goes in front of the sign (`PrintfSpec.ZeroPaddedReadsBackIff`, `Examples.SignBehindZeros`); a precision replaces
  the width (`PrintfSpec.PrecisionReplacesWidth`, `Examples.PrecisionIsTheWidth`).
- Reading a RAM file is not clamped at its end (`RamFiles.ReadExactIff`, `Examples.ReadsPastTheEnd`), writing behind
  the end leaves a hole of old memory (`RamFiles.WriteExactIff`, `Examples.HoleIsOldMemory`), a failed growth loses
  the file (`RamFiles.FullHeapWriteExactIff`, `Examples.SecondWriteAfterFullHeap`), a seek in front of the file is
  taken (`RamFiles.SeekExactIff`, `RamFiles.WrappedCursorFaults`, `Examples.SeekInFront`), a write of two gigabytes
  counts as failed (`RamFiles.HugeWriteReadsAsError`), and only two files can be open (`RamFiles.OpenedFilesAreEmpty`,
  `Examples.ThirdOpenFails`).
- A `Sleep` call that falls between the sweep's test of the same task and its signal wakes it at once, and may be
  forgotten (`Sleep.SleepWakesOnTimeIff`, `Sleep.WindowCallIsLost`, `Examples.WokenAtOnce`).
- `Gpt_Init` marks units by row number instead of channel (`GptRuns.InitMarksIff`,
  `Examples.RowNumberIsNotTheChannel`) and leaves running counters running (`GptRuns.InitKeepsAgreementIff`,
  `Examples.RunningButInitialised`); a period keeps only its low 16 bits (`GptRuns.PeriodIsConserved`,
  `Examples.LongPeriodVanishes`).

## Model

| member | source | states |
|---|---|---|
| `CanConfig.CheckIsSoundIff` | MCAL/McalSrc/Can.c:481-500 | The object-count check rejects no list the hardware can serve, and a list it accepts, however long, is within the hardware exactly when neither eight-bit counter has wrapped and the overlooked last element still fits |
| `CanBtr.RegisterFields` | MCAL/core/arch/arm/armv7_m/drivers_stm32/STM32F10x_StdPeriph_Driver/src/stm32f10x_can.c:241-244 | What the hardware reads from the packed register, for all values of the C types: a prescaler beyond 1024 wraps, a long segment runs over into the field above, a jump width beyond 64 turns on loop-back or silent mode |
| `CanBtr.RegisterExactIff` | MCAL/core/arch/arm/armv7_m/drivers_stm32/STM32F10x_StdPeriph_Driver/src/stm32f10x_can.c:241-244 | The hardware reads exactly the timing and mode the driver meant if and only if every value fits its field of 10, 4, 3 and 2 bits |
| `CanTiming.TimingBound` | MCAL/McalSrc/Can.c:725-751 | If segments and prescaler fit their register fields, the hardware counts the configured quanta in front of and behind the sample point, with the configured jump width if that fits, and prescaler·tq·rate <= clock < (prescaler+1)·tq·rate, the driver's 32-bit divisor included; it is in normal mode exactly if the jump width is between 1 and 64 |
| `CanTiming.PrescalerExactIff` | MCAL/McalSrc/Can.c:725-751 | With a divisor below 2^32 the prescaler handed to the library is the exact quotient if and only if that is below 2^16; a larger divisor is replaced by its remainder although the exact quotient is 0 |
| `CanTiming.ServesIff` | MCAL/McalSrc/Can.c:725-751 | Whatever timing the hardware runs on, the realised rate is at least a requested one and exceeds it by a factor below 1 + 1/prescaler if and only if its prescaler is the one computed for that rate |
| `CanTiming.RealisedRateBound` | MCAL/McalSrc/Can.c:647-651 | A fitting table entry's own rate is served: never below it, and above it by a factor below 1 + 1/prescaler |
| `CanTiming.SystemClockBound` | MCAL/McalSrc/Mcu.c:525-544 | On the connectivity line extal·pll1·pll2 − 25·f_sys is exactly what the two truncations cut off, between 0 and pll1·(4·pll2+20) |
| `CanFilter.ExtendedHalves` | MCAL/McalSrc/Can.c:134-140 | For every 29-bit value the two register halves combine to (value << 3) OR 4 |
| `CanFilter.EncodeMatches` | MCAL/McalSrc/Can.c:694-704 | Mask-mode matching on the encoded registers accepts exactly the frames with id & mask == code & mask, extended frames only for extended objects, for every frame and every code and mask |
| `CanFilter.IndicatedIdExact` | MCAL/McalSrc/Can.c:384-396 | The identifier indicated upwards is the frame's own, the top bit telling extended ones apart |
| `CanFilter.RoutingIsExact` | MCAL/McalSrc/Can.c:686-713 | With at most two receive objects, filter set-up and the receive loop agree: a frame is stored exactly if some object accepts it, and is indicated once, for the first such object |
| `CanTx.RunKeepsInv` | MCAL/McalSrc/Can.c:416-445 | Over every interleaving of writes, completions, single interrupt accesses and resets, mailbox flags, handle table and history fit together |
| `CanTx.ConfirmationsAreExact` | MCAL/McalSrc/Can.c:416-445 | A confirmation carries the handle of the latest accepted write into its mailbox, which has been sent since, with nothing else happening to that mailbox: none is confirmed twice or unsent |
| `CanTx.WritesAreConserved` | MCAL/McalSrc/Can.c:957-996 | Every accepted write is confirmed, lost, failed, cancelled or still in its mailbox, and exactly one of these |
| `CanTxLoss.WriteLosesIff` | MCAL/McalSrc/Can.c:979-993 | A write, also one made from a confirmation, loses an earlier confirmation exactly when the mailbox it gets still reads CANTXOK and the interrupt has not looked at it yet, or was sent behind the running interrupt; if nothing was missed so far the first alone decides |
| `CanTxLoss.CompletionInsidePassIsLost` | MCAL/McalSrc/Can.c:430-441 | A mailbox completing after the running interrupt has looked at it is lost by the end of that interrupt, whatever happens in between |
| `CanTxLoss.NothingLostIffCareful` | MCAL/McalSrc/Can.c:416-445 | A run whose last interrupt has ended loses or cancels nothing if and only if every step is careful: no write over an unseen CANTXOK, no completion behind the running interrupt, no reset with something in flight or unseen |
| `CanTx.PassEffect` | MCAL/McalSrc/Can.c:428-442 | Uninterrupted, the interrupt's accesses amount to one atomic step that confirms every CANTXOK mailbox in order and clears the flags |
| `CanDriver.Can.Init` | MCAL/McalSrc/Can.c:459-563 | Performs the initialisation step: checks, then per controller reset of unit, baud rate, interrupts and index; refused calls change nothing |
| `CanDriver.Can.CheckObjects` | MCAL/McalSrc/Can.c:484-499 | The counting loop with its eight-bit counters decides the object-count check |
| `CanDriver.Can.IndexObjects` | MCAL/McalSrc/Can.c:549-561 | The loop enters exactly the list's transmit objects into the handle index |
| `CanDriver.Can.DeInit` | MCAL/McalSrc/Can.c:566-592 | Every configured controller ends UNINIT and unlocked; configuration bits, channel map and pending indications stay |
| `CanDriver.Can.ChangeBaudrate` | MCAL/McalSrc/Can.c:594-759 | Refused unless ready, configured, offered and STOPPED; otherwise registers reset, filters and timing of entry 0 programmed, failure of the hardware reported |
| `CanDriver.Can.SetUpFilters` | MCAL/McalSrc/Can.c:686-713 | The filter loop writes the banks of the receive objects in order over what the window held |
| `CanDriver.Can.FindEntry` | MCAL/McalSrc/Can.c:632-645 | The search answers entry 0 exactly if some entry offers the rate |
| `CanDriver.Can.SetControllerMode` | MCAL/McalSrc/Can.c:762-840 | Each transition's guard, new mode and pending indication; a refused request only withdraws a pending indication |
| `CanDriver.Can.DisableControllerInterrupts` | MCAL/McalSrc/Can.c:842-876 | Performs the disable step, of which `CanRuns.DisableMasks` says what it leaves |
| `CanRuns.DisableMasks` | MCAL/McalSrc/Can.c:842-876 | The outermost disable clears the transmit, FIFO 0, bus-off, error and wake-up enables and keeps that of FIFO 1; a nested one keeps all six; nothing else changes but the counter |
| `CanDriver.Can.EnableControllerInterrupts` | MCAL/McalSrc/Can.c:878-926 | Performs the enable step, of which `CanRuns.EnableUnmasks` says what it leaves |
| `CanRuns.EnableUnmasks` | MCAL/McalSrc/Can.c:878-926 | The enable that ends the lock adds transmit by its processing flag, both FIFOs by the receive flag, and bus-off, error and wake-up by the bus-off flag; a nested one keeps all six; nothing else changes but the counter |
| `CanDriver.Can.CheckBaudrate` | MCAL/McalSrc/Can.c:1111-1142 | True exactly if ready, configured, at most 1000 and some table entry has the rate |
| `CanDriver.Can.Write` | MCAL/McalSrc/Can.c:928-997 | Error cases, mailbox choice, frame format, payload and handle of a write |
| `CanDriver.Can.FindHoh` | MCAL/McalSrc/Can.c:227-252 | The entry found without searching is the one a linear search of all configured object lists finds, whenever the index is right |
| `CanIndex.RunKeepsIndex` | MCAL/McalSrc/Can.c:549-561 | Which it is in every run, through shut-downs and initialisations, as long as each configuration has unique handles |
| `CanDriver.Can.TxIsr` | MCAL/McalSrc/Can.c:416-445 | Confirms every CANTXOK mailbox in order and clears the flags, if the list has a transmit object |
| `CanDriver.Can.RxIsr` | MCAL/McalSrc/Can.c:359-409 | Takes the head of the FIFO and releases it, indicates it for the receive object of that FIFO and counts the indications |
| `CanDriver.Can.ErrIsr` | MCAL/McalSrc/Can.c:290-333 | Wake-up and bus-off both stop the controller; bus-off is counted and reported |
| `CanDriver.Can.MainFunctionMode` | MCAL/McalSrc/Can.c:1144-1210 | For every configured controller, in order, indicates the pending mode if reached and clears it |
| `CanEffects.StepCore` | MCAL/McalSrc/Can.c:459-997 | Frame of every operation on every controller: what an event may make of mode, lock, indication, enables and mailboxes, and that it touches no other controller |
| `CanEffects.SetModeEffect` | MCAL/McalSrc/Can.c:780-840 | Accepted, a request sets mode and indication of its target; refused, it leaves the mode; while locked it never unmasks |
| `CanEffects.StepIndications` | MCAL/McalSrc/Can.c:1162-1209 | No operation but the main function sends mode indications, and that one only for reached pending modes |
| `CanEffects.StepGlobals` | MCAL/McalSrc/Can.c:459-997 | No event but an accepted initialisation or a shut-down touches configuration, channel map, configured bits or handle index |
| `CanAnswers.InitAnswersIff` | MCAL/McalSrc/Can.c:459-509 | Initialisation is accepted exactly if the driver is not ready and the eight-bit counts of every list are at most two receive and one transmit objects; refused, it changes nothing |
| `CanAnswers.InitOneLeaves` | MCAL/McalSrc/Can.c:510-562 | A controller comes out STOPPED, unlocked and counted from zero, with exactly the sources processed by interrupt enabled if its default rate is offered, and those added to the earlier ones otherwise |
| `CanAnswers.DeInitLeaves` | MCAL/McalSrc/Can.c:566-592 | A shut-down leaves every configured controller UNINIT, unlocked, with zero counters and all enables clear but that of FIFO 1, and nothing else changed |
| `CanAnswers.ChangeAnswersIff` | MCAL/McalSrc/Can.c:594-631 | A baud-rate change succeeds exactly if the driver is ready, the controller exists, is configured and STOPPED, the rate is in its table and at most 1000, and the hardware follows; refused by the checks, it changes nothing |
| `CanAnswers.ChangeLeaves` | MCAL/McalSrc/Can.c:647-759 | Past the checks, whether or not the hardware follows: all enables clear, both FIFOs and all mailboxes empty, handles kept, the filters of the list over the old window; other controllers change in their banks at most |
| `CanAnswers.RequestAnswersIff` | MCAL/McalSrc/Can.c:762-840 | A start is accepted exactly of a STOPPED controller whose default rate is offered and whose hardware follows, a wake-up of a sleeping or STOPPED one, a sleep of a STOPPED one, a stop always |
| `CanAnswers.RequestLeaves` | MCAL/McalSrc/Can.c:762-840 | Accepted, a request leaves its mode and the pending indication of it; refused, it withdraws the pending one; requests other than a start change nothing else |
| `CanAnswers.WriteAnswersIff` | MCAL/McalSrc/Can.c:928-997 | Ok exactly if the driver is ready, data of at most eight bytes is given, the handle is that of a transmit object and a mailbox of its controller is empty; busy exactly if only the mailbox is missing; otherwise refused; only Ok changes anything |
| `CanAnswers.ConfiguredHandleWrites` | MCAL/McalSrc/Can.c:928-997 | With a right index, for every handle a linear search of the configuration finds |
| `CanAnswers.InterruptIndicates` | MCAL/McalSrc/Can.c:359-409 | The receive interrupt takes the oldest frame of its FIFO and tells it to every receive object the FIFO serves, in list order and by that object's number, and changes nothing else but the counter |
| `CanRuns.StepLock` | MCAL/McalSrc/Can.c:842-926 | Every event keeps the transmit, FIFO 0, bus-off, error and wake-up enables clear while locked, start and baud-rate change included, and moves the counter as the nesting does |
| `CanRuns.LockExactIff` | MCAL/McalSrc/Can.c:856-866 | At every point of a run the counter is disables minus enables, saturating at zero, and those five enables are clear while it is positive, if and only if the nesting fits 32 bits |
| `CanRuns.LockFromPowerOn` | MCAL/McalSrc/Can.c:794-803 | The same for every run from power-on |
| `CanRuns.SourcesFollowConfigIff` | MCAL/McalSrc/Can.c:842-926 | From an accepted start on and until the next reset, for a controller with some processing by interrupt: whenever the counter reads unlocked, exactly the sources that the configuration has processed by interrupt are enabled, if and only if the nesting fits 32 bits |
| `CanRuns.StartSources` | MCAL/McalSrc/Can.c:785-809 | Such a run begins at every accepted start |
| `CanRuns.LockCoversFifo1Iff` | MCAL/McalSrc/Can.c:868-875 | FIFO 1 stays masked while locked throughout a run if and only if every outermost disable finds it masked already |
| `CanRuns.StartedOnlyByStart` | MCAL/McalSrc/Can.c:785-809 | The only step into STARTED is an accepted start of a configured STOPPED controller whose baud-rate change succeeded |
| `CanRuns.StartedHasHistory` | MCAL/McalSrc/Can.c:594-627 | In every run from power-on a STARTED controller was configured by an initialisation, later started from STOPPED, and has been STARTED ever since |
| `CanRuns.ErrorInterruptStops` | MCAL/McalSrc/Can.c:290-333 | A bus-off or wake-up interrupt in the ready state leaves the controller STOPPED with a stop indication pending |
| `CanModes.IndicationsAreTrue` | MCAL/McalSrc/Can.c:1169-1205 | An indication is only sent for the mode the controller is in |
| `CanModes.IndicationsAreBudgeted` | MCAL/McalSrc/Can.c:1162-1209 | In every stretch of every run at most one indication per accepted transition |
| `CanModes.ExactlyOneIndication` | MCAL/McalSrc/Can.c:780-831 | After an accepted request and until the next request, error or shutdown, the new mode is indicated exactly once if the main function runs at all |
| `CanIndex.IndexEqualsSearch` | MCAL/McalSrc/Can.c:549-561 | After initialisation with unique handles the index answers every configured handle as a linear search of all object lists does |
| `CanTxRuns.StepMirrors` | MCAL/McalSrc/Can.c:416-445 | Every driver step is, on each controller, a run of the mailbox protocol with the same writes and confirmations |
| `CanTxRuns.DriverConfirmationsAreExact` | MCAL/McalSrc/Can.c:957-996 | In every driver run from power-on the confirmations are those of a protocol history whose acceptances are the accepted writes, and each is preceded by acceptance and sending of that same write |
| `CanConfirm.TxIsrConfirms` | MCAL/McalSrc/Can.c:416-445 | With a transmit object anywhere in the list, the interrupt confirms exactly the mailboxes that read CANTXOK, in order and with their handles, and afterwards none reads it; without one it does nothing |
| `CanConfirm.SentWriteIsConfirmed` | MCAL/McalSrc/Can.c:416-445 | A write accepted for a configured handle and sent at any later time is confirmed with its handle by the next transmit interrupt, whatever happens in between short of a reset of the controller or a further write into the mailbox |
| `CanConfirm.RunKeepsMap` | MCAL/McalSrc/Can.c:521-546 | The channel map names each controller's own configuration in every run whose initialisations have distinct controllers |
| `CanTxCare.StepPort` | MCAL/McalSrc/Can.c:594-759 | Writes and the hardware apart, the mailboxes change by nothing but the reset that an accepted initialisation, baud-rate change or start of that controller gets as far as |
| `CanTxCare.DriverLosesNothingIff` | MCAL/McalSrc/Can.c:957-996 | In every driver run from power-on no accepted write is lost or cancelled if and only if no write is accepted into a mailbox reading CANTXOK and no call resets the controller with a frame in flight or a CANTXOK unseen |
| `CanReceive.ChangeRoutesIff` | MCAL/McalSrc/Can.c:656-713 | A successful baud-rate change leaves exactly the configured filters if and only if the window held no more banks than it needs, which the first controller's never does |
| `CanStartup.InitRoutesIff` | MCAL/McalSrc/Can.c:510-562 | After initialisation from reset, with distinct controllers, a controller has its configured filters if and only if it needs none, or its default rate is offered and no first controller with an offered default rate is configured behind it |
| `CanReceive.ChangeServesIff` | MCAL/McalSrc/Can.c:632-651 | After an accepted change the requested rate is served if and only if the prescaler in the register is the one computed for it; with a fitting entry 0, if and only if entry 0 and the request come to the same prescaler |
| `CanReceive.OthersKeepFiltersIff` | MCAL/McalSrc/Can.c:656-665 | Another controller's filters survive a baud-rate change if and only if it is not the first controller's, or is refused by the checks, or there were none |
| `CanReceive.NoFiltersNoFrames` | MCAL/McalSrc/Can.c:656-665 | A controller left without filters hears no frame |
| `CanReceive.RunKeepsRouting` | MCAL/McalSrc/Can.c:686-713 | Filters stay as configured through every run without re-initialisation, baud-rate change or start of this or the first controller |
| `CanFifo.FramesAreRouted` | MCAL/McalSrc/Can.c:686-713 | A frame on the bus goes to no FIFO if no receive object accepts it, and otherwise to exactly the one whose interrupt serves the first accepting object |
| `CanFifo.ArrivalsAreToldIff` | MCAL/McalSrc/Can.c:378-408 | Over every run that leaves the filters alone, what a FIFO held and what arrived for it is indicated in order, each frame once, for the first accepting object, with its identifier and data, the rest still waiting, if and only if no arrival found three frames waiting |
| `CanFifo.FramesConserved` | MCAL/McalSrc/Can.c:359-409 | Every frame that arrived is indicated, waiting or overwritten |
| `CanFifo.IndicationsAreCounted` | MCAL/McalSrc/Can.c:403-404 | In every run without start-up or shut-down the counter advances by the number of receive indications, modulo 2^32 |
| `CanFifo.CountedSinceInit` | MCAL/McalSrc/Can.c:525-526 | So it is the number of receive indications since initialisation, modulo 2^32 |
| `CanCounts.CountersAreExact` | MCAL/McalSrc/Can.c:290-333 | In every run without start-up or shut-down the transmit counter advances by the number of accepted writes and the bus-off counter by the number of bus-off reports, modulo 2^32 |
| `CanFifo.ChangeTidiesIff` | MCAL/McalSrc/Can.c:656-713 | A successful baud-rate change empties the FIFOs, and such runs begin there exactly if there are at most two receive objects and the window held no more banks than they need |
| `CanFifo.StartTidiesIff` | MCAL/McalSrc/Can.c:785-809 | An accepted start leaves the controller STARTED with empty FIFOs, and such runs begin there under exactly the same condition |
| `CanStartup.InitTidiesIff` | MCAL/McalSrc/Can.c:510-562 | Initialisation from power-on is such a beginning for exactly the controllers with at most two receive objects that have their filters |
| `CanStartup.ToldSinceStartIff` | MCAL/McalSrc/Can.c:378-408 | End to end: initialised from power-on, started at any later time and its filters left alone since, such a controller tells every frame that arrives for a FIFO once and in order, if and only if no arrival finds three waiting |
| `CanReceive.WrittenIdArrivesIff` | MCAL/McalSrc/Can.c:971-977 | A written identifier is indicated unchanged at the receiver exactly if it fits the format the object sends in |
| `CanReceive.WriteFillsMailbox` | MCAL/McalSrc/Can.c:957-996 | An accepted write fills one empty mailbox with exactly this frame and handle, leaves the other two, and changes nothing else but the count of writes |
| `CanReceive.FormatChosen` | MCAL/McalSrc/Can.c:971-977 | The frame is extended exactly for an extended object, and for a mixed one if the identifier does not fit eleven bits |
| `CirqBuffer.CirqBuffer.Init` | MCAL/core/common/cirq_buffer.c:53-61 | An empty, well-formed ring over the caller's storage |
| `CirqBuffer.CirqBuffer.Push` | MCAL/core/common/cirq_buffer.c:121-139 | In-place push: refused when full, else the record copied at head, head advanced with wrap, count up |
| `CirqBuffer.CirqBuffer.Pop` | MCAL/core/common/cirq_buffer.c:151-167 | In-place pop: refused when empty, else the record at tail, tail advanced with wrap, count down |
| `CirqBuffer.CirqBuffer.PushLock` | MCAL/core/common/cirq_buffer.c:181-192 | Hands out the slot at head, or nothing when full |
| `CirqBuffer.CirqBuffer.PopLock` | MCAL/core/common/cirq_buffer.c:205-216 | Hands out the slot at tail, or nothing when empty |
| `CirqBuffer.CirqBuffer.PushRelease` | MCAL/core/include/cirq_buffer.h:62-64 | Counts the filled slot, and keeps the ring well formed if a slot was free |
| `CirqBuffer.CirqBuffer.PopRelease` | MCAL/core/include/cirq_buffer.h:66-68 | Gives the used slot back, and keeps the ring well formed if one was taken |
| `CirqBuffer.CirqBuffer.Peek` | MCAL/core/common/cirq_buffer.c:218-231 | The pointer reached by that many steps from tail |
| `CirqSpec.StepKeepsInv` | MCAL/core/common/cirq_buffer.c:170-216 | Every producer and consumer step keeps the bytes of every live slot equal to the record pushed there |
| `CirqSpec.FirstInFirstOut` | MCAL/core/common/cirq_buffer.c:170-216 | Over every interleaving of one producer and one consumer, what was popped is a prefix of what was pushed and the count is the difference |
| `CirqSpec.LockedSlotsDisjoint` | MCAL/core/common/cirq_buffer.c:181-216 | The slot being filled and the slot being read never share a byte |
| `CirqSpec.LocksHandOutSlots` | MCAL/core/common/cirq_buffer.c:181-216 | A lock fails exactly when the ring is full, or empty, otherwise returns the slot of the next record, and the consumer's shows the oldest undelivered record while held |
| `CirqSpec.PointersCongruent` | MCAL/core/common/cirq_buffer.c:181-216 | In slots, head is congruent to tail + currCnt + pushLocked − popLocked modulo maxCnt |
| `CirqSpec.RefinesQueue` | MCAL/core/common/cirq_buffer.c:121-167 | The byte ring is a bounded queue: push fails exactly when full and appends, pop fails exactly when empty and takes the oldest |
| `CirqSpec.PeekPoints` | MCAL/core/common/cirq_buffer.c:218-231 | Also while slots are locked: Peek answers exactly for offsets up to the count, with the offset-th oldest record that is not being read, and behind the last one with the slots of the next pushes |
| `Xtoa.Xtoa` | MCAL/core/common/xtoa.c:33-64 | Leaves exactly the rendered text and its terminator in the buffer and nothing else |
| `Xtoa.EmitDigits` | MCAL/core/common/xtoa.c:46-50 | The digit loop leaves the digits backwards |
| `Xtoa.ReverseInPlace` | MCAL/core/common/xtoa.c:58-63 | The two-pointer loop reverses the text and touches nothing behind it |
| `Xtoa.ItoaRoundTrip` | MCAL/core/common/xtoa.c:98-108 | For every 32-bit int, the most negative included, and every base 2 to 16, parsing the text gives the value back, without redundant leading zero |
| `Xtoa.UltoaRoundTrip` | MCAL/core/common/xtoa.c:94-96 | The same for every unsigned value |
| `Xtoa.FitsTwelve` | MCAL/core/clib/printf.c:366-378 | In bases 10 and 16 text and terminator fit the twelve-byte buffer |
| `Printf.Vsnprintf` | MCAL/core/clib/printf.c:224-229 | The buffer receives the first min(n−1, full) characters of the full rendering and one NUL, nothing else changes, and that count is returned; no limit for n = 0 and n >= 2^31; the result is the would-be length of section 7.19.6.5 of ISO/IEC 9899:1999 exactly if nothing is cut off |
| `Printf.Interpret` | MCAL/core/clib/printf.c:406-524 | The format loop offers exactly the full rendering to the sink, or its part up to an unsupported conversion |
| `Printf.FindDirective` | MCAL/core/clib/printf.c:445-511 | The loop over width, length and ignored precision finds the directive the format means |
| `Printf.Sink.EmitChar` | MCAL/core/clib/printf.c:252-271 | One character is offered; it is stored while the budget lasts |
| `Printf.Sink.EmitString` | MCAL/core/clib/printf.c:329-364 | Offers the padded text |
| `Printf.Sink.EmitInt` | MCAL/core/clib/printf.c:366-378 | Offers the padded number, rendered through a twelve-byte buffer |
| `PrintfSpec.PrintedNumberReadsBack` | MCAL/core/clib/printf.c:470-493 | What a number conversion prints parses back to the argument, signed or unsigned, in its base |
| `PrintfSpec.ConversionPrints` | MCAL/core/clib/printf.c:418-502 | In whatever format it stands, a conversion with any flag, any width of at most three digits and any length letter prints its argument in a field of that width: at the left end for "-", at the right end otherwise, the rest zeros for "0" and blanks otherwise; then the rest of the format follows |
| `PrintfSpec.CharPrints` | MCAL/core/clib/printf.c:469-472 | Of a character its low byte is printed, whatever flag and width say |
| `PrintfSpec.UnsupportedHalts` | MCAL/core/clib/printf.c:507-510 | Any other conversion letter stops at the assertion |
| `PrintfSpec.WidthReadsBack` | MCAL/core/clib/printf.c:445-460 | Every width below 1000 is read as the number it is |
| `PrintfSpec.ZeroPaddedReadsBackIff` | MCAL/core/clib/printf.c:337-363 | A zero-padded number parses back exactly if it is not negative or needs no padding |
| `PrintfSpec.PaddingKeepsText` | MCAL/core/clib/printf.c:337-363 | In the field the text stays whole at the end the flag asks for, the rest is fill |
| `PrintfSpec.PrecisionReplacesWidth` | MCAL/core/clib/printf.c:445-508 | For every width and precision of at most three digits the precision becomes the width |
| `PrintfSpec.PlainText` | MCAL/core/clib/printf.c:512-516 | A format without conversions renders as itself |
| `PrintfSpec.TextPrints` | MCAL/core/clib/printf.c:512-516 | Text in front of a conversion comes out as it is, in front of what follows |
| `PrintfSpec.PercentPrints` | MCAL/core/clib/printf.c:417-423 | Two percent signs print one |
| `Strtok.StrtokR` | MCAL/core/clib/strtok_r.c:32-85 | In place and in both modes: the call on buffer, start or resume pointer and delimiters, NULL cases included |
| `StrtokSpec.CallTakesFirst` | MCAL/core/clib/strtok_r.c:32-85 | One call takes the first token off: it reads as a C string in front of the resume point, behind which the other tokens are left; NULL exactly if there is none |
| `StrtokSpec.RepeatedCallsTokenize` | MCAL/core/clib/strtok_r.c:32-85 | Repeated calls end and return in order exactly the tokens: maximal delimiter-free runs when skipping, delimiter-terminated fields without a trailing empty one otherwise; only delimiters of the string change, into NUL |
| `StrtokSpec.SplitLosesNothing` | MCAL/core/clib/strtok_r.c:42-82 | The fields are delimiter-free and, with one delimiter between each two, are the whole string |
| `StrtokSpec.SplitUnique` | MCAL/core/clib/strtok_r.c:42-82 | And there is no other such cutting of the string |
| `Shell.Shell.RunCmd` | MCAL/core/common/shell.c:209-269 | Null, too long, empty and unknown lines get their status; more than ten tokens stop at the assertion; otherwise the first registered command of that name is called with exactly the tokens |
| `Shell.Shell.AddCmd` | MCAL/core/common/shell.c:192-200 | Appends to the list, which starts with help |
| `Shell.Shell.Init` | MCAL/core/common/shell.c:174-184 | Starts the list over with help alone |
| `Shell.Shell.Collect` | MCAL/core/common/shell.c:253-260 | The argv loop gathers all pending tokens, or finds that there are more than ten |
| `Shell.JoinedWordsArrive` | MCAL/core/common/shell.c:209-269 | Words joined with blanks reach the command named first as exactly those words |
| `Shell.LinesAreDispatched` | MCAL/core/common/shell.c:209-269 | For every line, as words in blanks, tabs and newlines: forty characters or more give 1, no word gives 2, an unknown first word 3, more than ten words stop at the assertion, and otherwise the first command of that name is called with exactly the words and the status is 0 |
| `Shell.EveryLineIsSpaced` | MCAL/core/common/shell.c:209-269 | And every line is words in space |
| `FileTable.FileTable.NewFileNo` | MCAL/core/clib/clib_port.c:197-211 | The lowest free entry from 2 on, or −1 |
| `FileTable.FileTable.Open` | MCAL/core/clib/clib_port.c:351-384 | Takes that entry for the device |
| `FileTable.FileTable.Close` | MCAL/core/clib/clib_port.c:414-444 | Blanks the entry of a file; console and bad descriptors refused |
| `FileTable.FileTable.Read` | MCAL/core/clib/clib_port.c:526-574 | Bytes at the cursor without regard to the end, cursor moved |
| `FileTable.FileTable.RamWrite` | MCAL/core/drivers/fs_ram.c:83-101 | Grows the block if needed, losing it when allocation fails, then copies at the cursor |
| `FileTable.FileTable.Write` | MCAL/core/clib/clib_port.c:584-614 | The write, then cursor and end moved unless it failed or left its block |
| `FileTable.FileTable.Seek` | MCAL/core/clib/clib_port.c:627-662 | The cursor set from any origin, unchecked, modulo 2^32 |
| `RamFiles.FilesAreSequences` | MCAL/core/clib/clib_port.c:526-662 | In every run inside the table with successful allocation, seeks within the end and reads inside it, descriptors answer call by call as byte sequences with a cursor, and closed and console descriptors as they should |
| `RamFiles.FilesAreIndependent` | MCAL/core/clib/clib_port.c:526-662 | In every run whatever, what a descriptor in use answers depends only on its own entry and the calls on it |
| `RamFiles.CapacityNeverShrinks` | MCAL/core/drivers/fs_ram.c:86-96 | Until closed, a file's capacity never shrinks or falls below its end |
| `RamFiles.OpenedFilesAreEmpty` | MCAL/core/clib/clib_port.c:197-211 | After any run at all, opening gives descriptor 3 or 4, empty and at its start, or fails because both are taken |
| `RamFiles.StepKeepsTable` | MCAL/core/clib/clib_port.c:414-444 | Every call, failed allocations and stray seeks included, leaves free entries blank and the console's entries alone |
| `RamFiles.ReadExactIff` | MCAL/core/drivers/fs_ram.c:70-82 | A read is right exactly if it is empty, of an empty file, or inside the end |
| `RamFiles.WriteExact` | MCAL/core/drivers/fs_ram.c:83-101 | With the cursor inside the file and memory to be had, the bytes go in at the cursor, all others stay, the block only grows |
| `RamFiles.WriteExactIff` | MCAL/core/clib/clib_port.c:600-611 | A write can be relied on, whatever lies behind the end, exactly if the cursor is not past the end |
| `RamFiles.FullHeapWriteExactIff` | MCAL/core/drivers/fs_ram.c:86-96 | With no memory to be had a write is right exactly if it needs no more room |
| `RamFiles.FailedGrowthLosesFile` | MCAL/core/drivers/fs_ram.c:86-96 | A failed growth answers −28 and keeps cursor and end; after it every write into the booked room and every read of what was written goes through a null pointer |
| `RamFiles.SeekExactIff` | MCAL/core/clib/clib_port.c:637-655 | A seek lands where it should exactly if that is not in front of the file; otherwise the cursor is 2^32 too far |
| `RamFiles.WrappedCursorFaults` | MCAL/core/drivers/fs_ram.c:83-101 | A write from such a cursor leaves the block, with no growth asked for |
| `RamFiles.WrappedGrowthFaults` | MCAL/core/drivers/fs_ram.c:86-96 | A growth whose size wraps around leaves a block that is too small |
| `RamFiles.HugeWriteReadsAsError` | MCAL/core/clib/clib_port.c:600-611 | A write of two gigabytes or more is done and then taken for an error |
| `SleepTimer.SleepTimer.SleepInit` | MCAL/core/common/sleep.c:28-36 | Deactivates every entry and nothing else |
| `SleepTimer.SleepTimer.Sleep` | MCAL/core/common/sleep.c:38-53 | Arms the OS task with its mask for the tick n later, or one later for n = 0, modulo 2^32; bad task numbers are an error and change nothing |
| `SleepTimer.SleepTimer.SweepOnce` | MCAL/core/common/sleep.c:56-76 | One turn of `SleepTask`'s loop is a run of the sweep's steps with the same signals |
| `Sleep.SleepWakesOnTimeIff` | MCAL/core/common/sleep.c:38-76 | For every delay n, tick value and continuation without a further call for it, exactly one signal with its mask at the n-th tick, at the first for n = 0, and none before, if and only if the call does not fall between test and signal of the same task |
| `Sleep.WaitingIsSignalled` | MCAL/core/common/sleep.c:56-76 | A task due in r ticks is signalled once, at the r-th tick, across 32-bit wrap-around and calls for other tasks in between |
| `Sleep.WindowCallIsLost` | MCAL/core/common/sleep.c:66-73 | A call between test and clearing is signalled by the sweep under way, before any tick, and never at its own tick |
| `Sleep.SignalsAreBudgeted` | MCAL/core/common/sleep.c:38-76 | In every run a task gets at most one signal per call naming it |
| `Sleep.InitSilences` | MCAL/core/common/sleep.c:28-36 | After `SleepInit` a task the sweep has not matched yet gets no signal until it sleeps again |
| `Gpt.Gpt.Init` | MCAL/McalSrc/Gpt.c:183-237 | The channel map names the last row of each channel; units are marked by row number |
| `Gpt.Gpt.DeInit` | MCAL/McalSrc/Gpt.c:242-254 | Stops every channel |
| `Gpt.Gpt.StartTimer` | MCAL/McalSrc/Gpt.c:259-305 | Loads reload and counter, clears the flag, enables, and marks the channel started |
| `Gpt.Gpt.StopTimer` | MCAL/McalSrc/Gpt.c:307-330 | Disables and clears, and remembers an expiry |
| `Gpt.Gpt.Isr` | MCAL/McalSrc/Gpt.c:136-180 | Handles the first channel raised and enabled; a one-shot one is disabled and expired |
| `Gpt.Gpt.GetTimeRemaining` | MCAL/McalSrc/Gpt.c:334-357 | What is left of the reload value when the elapsed time is taken off; 0 once over |
| `Gpt.Gpt.GetTimeElapsed` | MCAL/McalSrc/Gpt.c:361-388 | What is missing from the reload value, without wrap-around; all of it once over |
| `GptRuns.PowerOnInv` | MCAL/McalSrc/Gpt.c:123-126 | The agreement of modes and registers holds after reset |
| `GptRuns.RunKeepsInv` | MCAL/McalSrc/Gpt.c:136-330 | In every run STARTED holds exactly if the counter is enabled, the counter never exceeds the reload value, and running channels are configured |
| `GptRuns.IsrNeverAsserts` | MCAL/McalSrc/Gpt.c:141-142 | The interrupt routine's assertion cannot fail in any such state |
| `GptRuns.TimesAddUp` | MCAL/McalSrc/Gpt.c:334-388 | Outside INITIALIZED elapsed plus remaining is the reload value, and in INITIALIZED both are 0 |
| `GptRuns.PeriodIsConserved` | MCAL/McalSrc/Gpt.c:259-357 | From a start to the next one, through counting, expiry and repeated stops, elapsed plus remaining is the period's low 16 bits, hence the period exactly if it is below 2^16 |
| `GptRuns.ExpiryIsRemembered` | MCAL/McalSrc/Gpt.c:326-347 | Once expired, remaining is 0 and elapsed the whole period however often it is stopped, until the next start |
| `GptRuns.OverIffNotified` | MCAL/McalSrc/Gpt.c:136-180 | From a start to the next one a channel is over exactly if it is one-shot and has notified |
| `GptRuns.NotificationsAreSpaced` | MCAL/McalSrc/Gpt.c:136-180 | Until it is started again a channel notifies at most once for every period and one clock its counter is clocked, so no expiry is notified twice, one-shot or continuous |
| `GptRuns.CounterMovesAlone` | MCAL/McalSrc/Gpt.c:136-330 | Reload value and counter of a channel move by nothing but its own start and clock |
| `GptRuns.StopLeaves` | MCAL/McalSrc/Gpt.c:307-330 | A stop disables, clears the flag, keeps reload value and counter, and is over exactly if the channel was |
| `GptRuns.InitKeepsAgreementIff` | MCAL/McalSrc/Gpt.c:191-231 | Initialising again keeps modes and registers in agreement exactly if no running channel has a row's number or loses its row |
| `GptRuns.AlignedInitIsSafeIff` | MCAL/McalSrc/Gpt.c:196-231 | With row i holding channel i: exactly if nothing runs |
| `GptRuns.InitMarksIff` | MCAL/McalSrc/Gpt.c:196-231 | After power-on all configured channels count as initialised exactly if no channel number reaches the number of rows |
| `GptRuns.OneShotNotifiesOncePerStart` | MCAL/McalSrc/Gpt.c:146-153 | In every run a one-shot channel notifies at most once per start |
| `GptRuns.NeverEarly` | MCAL/McalSrc/Gpt.c:259-293 | A started channel does not notify before its counter was clocked once more than the period |
| `CanExamples.ThreeReceiversPass` | MCAL/McalSrc/Can.c:485-494 | Three receive objects pass the check for at most two |
| `CanExamples.SecondWriteLosesFirst` | MCAL/McalSrc/Can.c:979-993 | Two writes with only the completion of the first in between lose its confirmation |
| `CanExamples.LateCompletionIsLost` | MCAL/McalSrc/Can.c:430-441 | A mailbox completing right after its check is never confirmed |
| `CanExamples.SlowRateWraps` | MCAL/core/arch/arm/armv7_m/drivers_stm32/STM32F10x_StdPeriph_Driver/src/stm32f10x_can.c:241-244 | At 72 MHz a 1 kbit/s entry with eight quanta runs with prescaler 404 instead of 4500 |
| `CanExamples.SecondRateIsNotServed` | MCAL/McalSrc/Can.c:632-640 | From reset, a request for the second table entry is accepted and not served |
| `CanExamples.FormatsLeak` | MCAL/McalSrc/Can.c:694-704 | A standard object takes an extended frame, a mixed one refuses a standard frame |
| `CanExamples.DisabledButFifo1` | MCAL/McalSrc/Can.c:872-875 | From power-on, initialising and disabling leaves FIFO 1 enabled |
| `CanExamples.SlaveFirstIsDeaf` | MCAL/McalSrc/Can.c:511-546 | The slave configured in front of the master has no filters after initialisation |
| `CanExamples.MasterSilencesSlave` | MCAL/McalSrc/Can.c:656-665 | Changing the master's baud rate takes the slave's filters away |
| `CanExamples.OldFilterStays` | MCAL/McalSrc/Can.c:686-713 | Initialised again with fewer receive objects, the slave keeps an old filter |
| `CanExamples.LockWraps` | MCAL/McalSrc/Can.c:858-864 | From power-on, initialised and disabled 2^32 times, the counter reads 0 |
| `CanExamples.FourthFrameOverwrites` | MCAL/McalSrc/Can.c:740 | From power-on, initialised and started, the fourth of four frames takes the place of the third |
| `Examples.PeekPastTheLast` | MCAL/core/common/cirq_buffer.c:218-231 | With one record in a ring of two, Peek answers for offset 1 |
| `Examples.ResultIsNotTheLength` | MCAL/core/clib/printf.c:224-229 | Five characters into a size of three leave two and a NUL, and 2 is returned |
| `Examples.SizeZeroIsNoLimit` | MCAL/core/clib/printf.c:224-229 | Five characters into a size of zero are all stored |
| `Examples.SignBehindZeros` | MCAL/core/clib/printf.c:337-363 | -5 zero-padded to four reads 00-5 |
| `Examples.PrecisionIsTheWidth` | MCAL/core/clib/printf.c:504-508 | The width of a 5.2d conversion is 2 |
| `Examples.ReadsPastTheEnd` | MCAL/core/drivers/fs_ram.c:70-82 | Reading on at the end of a one-byte file gives a byte never written |
| `Examples.HoleIsOldMemory` | MCAL/core/drivers/fs_ram.c:83-101 | A write past the end brings old memory into the file |
| `Examples.SecondWriteAfterFullHeap` | MCAL/core/drivers/fs_ram.c:86-98 | After a failed first write the next one goes through a null pointer |
| `Examples.SeekInFront` | MCAL/core/clib/clib_port.c:637-655 | A seek in front of the file leaves the cursor at 2^32 − 1 |
| `Examples.ThirdOpenFails` | MCAL/core/clib/clib_port.c:197-211 | Of three opens after start-up the third fails |
| `Examples.WokenAtOnce` | MCAL/core/common/sleep.c:66-73 | A task put to sleep between test and clearing is signalled at once and then disarmed |
| `Examples.RowNumberIsNotTheChannel` | MCAL/McalSrc/Gpt.c:226-227 | With one row for channel 1, unit 0 is marked and channel 1 is not |
| `Examples.RunningButInitialised` | MCAL/McalSrc/Gpt.c:226-227 | Initialised again while running, a channel is not started and its counter runs |
| `Examples.LongPeriodVanishes` | MCAL/McalSrc/Gpt.c:276-280 | A period of 65536 leaves a reload value of 0 |

## What the environment is taken to do

- bxCAN: requesting a transmission clears a mailbox's flags; a completion sets RQCP and empties the mailbox; clearing
  CAN_IT_TME clears RQCP and TXOK of all three; `CAN_DeInit` returns a controller's registers to reset, enables
  included, and for the first controller also the shared filter banks; the lowest-numbered matching bank decides the
  FIFO; a FIFO holds three frames and, not being locked, lets a further one overwrite the newest; `CAN_Receive`
  releases the frame it read; the receive interrupt is raised only while a frame waits. Register layout as in section
  24.7.4 of RM0008.
- Whether the acknowledge waits of `CAN_Init` succeed, when mailboxes complete, which frames arrive, what fresh memory
  holds, whether allocation succeeds and when counters are clocked are parameters or events, never assumed.
- The timers' reload and counter registers are 16 bits wide (MCAL/core/arch/arm/armv7_m/kernel/stm32f10x.h:1200) and
  count down from the reload value through 0.
- `int`, `long`, pointers and `size_t` have 32 bits, and the `int` product that divides the CAN clock wraps around.

## Left out

- Development error reports: the branch each one guards is modelled, the report itself is not.
- `Can_Init`'s installation of interrupt handlers; the stub build, version information, statistics query, empty
  polling functions and `Can_AbortTx`.
- More than two receive objects in one list: banks assigned to a FIFO that does not exist store nothing in the model.
- CAN loop-back by configuration, the fixed mode bits of CAN_MCR, and a BTR write whose second acknowledge wait fails;
  sleep and wake-up requests to the hardware beyond the driver's mode.
- Null `cPtr` arguments of the circular buffer; dynamic creation and destruction; the interrupt suspension around push
  and pop, which makes them single steps; that the unprotected count updates in the release halves may tear on a
  machine without atomic increments.
- Output to a FILE instead of a buffer, and going on after an unsupported conversion when assertions are compiled out.
- Printf.Vsnprintf: says nothing for widths of more than three digits, which overrun a local buffer, nor for missing
  or mismatched arguments, for which C defines no behaviour.
- Xtoa.Xtoa: bases 2 to 16 only; the guard for other bases can never hold, and the digit table ends at 16.
- Prompts, help text and the main loop of the shell, argMin and argMax (never read), and the shell going on behind
  argv when assertions are compiled out; a command is a function of its argument texts.
- Console input and output behind descriptors, descriptor flags, path names, and which names denote consoles; heap
  blocks are values, so a leaked block is not seen.
- What an access outside a heap block or outside the descriptor table does to memory: the model stops with `Fault`.
- The operating system around `SleepTask`: events are taken to be set when asked for.
- `Gpt` notification enable bits, prescaler, wake-up functions and `Gpt_SetMode`; every configured channel is taken to
  have a notification function; calls on channels that do not exist or starts of channels without a row, which read
  outside the tables because the checks are compiled out.
- `Mcu_Init`, `Mcu_InitClock` and the other register start-up sequences, `mbox.c`, `ramlog.c`, `logger.c`, `Dio.c`,
  `Port.c`: thin or hardware polling.
- CanTiming.SystemClockBound: absent 32-bit overflow.

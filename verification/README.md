# Verified model of bricklib2's protocol and buffer code

bricklib2 is the firmware library shared by Tinkerforge Bricks and Bricklets. This project models the parts of it that
are more than register access, and proves what they are for: the Modbus RTU master with its energy-meter drivers, the
in-place fixed-point FFT passes, the checksums and the firmware image check built on them, the concurrent buffers (SPI,
USB, byte rings, wide timers), the callback schedulers, the arithmetic with real bounds, and the printers.

Code that changes state in place is a class or a method on arrays here, proved against a function on values; what holds
over whole runs is proved about those functions.

| files | what they model |
|---|---|
| `Wrappers`, `Quotients`, `Bits`, `Division` | an optional value, uniqueness of quotient and remainder, bit strings and polynomial division on them, independent of any table |
| `Register16`, `Crc16`, `Distance` | both 16-bit checksums, what a Modbus frame checksum detects, and in how many bits accepted frames differ |
| `Register32`, `Crc32` | CRC-32 word by word, nibble by nibble and bit by bit |
| `LittleEndian`, `Firmware` | the image builder and the image check |
| `Ringbuffers` | the byte ring and its three enqueues as one bounded queue |
| `Clock` | wrapping millisecond time stamps |
| `Modbus`, `ModbusLine`, `Rs485` | the bus record and its events, what is true on the line at all times, and the bus as an object |
| `MeterScan`, `MeterPaging` | register tables, the position loops, and the paged transfer of values |
| `MeterDrivers`, `Meters` | detection and the Eastron, generic, Iskra and Eltako drivers as functions and as an object |
| `Requests`, `MeterRuns`, `MeterAnswers`, `MeterProgress` | the questions the drivers ask, every run of bus and drivers, what is stored, and what goes on |
| `MeterReplies`, `MeterBlocks`, `MeterDetection`, `MeterSchedule` | which replies get through, which word of an Eltako block goes where, which meter is found, and what is asked when |
| `Butterflies`, `Fft`, `Transforms`, `Dft` | one butterfly, one pass, whole transforms, and what they compute |
| `Spi`, `Usb`, `WideTimer` | interleavings of interrupts and hardware |
| `Dispatcher`, `CallbackValue` | the rotating dispatcher and the rate-limited value callback |
| `Arithmetic`, `Base58`, `SdPath` | division, baud value, square root; identifiers and paths |

## Where the code does less than its surroundings suggest

- The word-wise CRC-32 takes a block of one to three bytes from the upper end of the word it starts in. It is the
  checksum of the block exactly when the block is empty, has at least four bytes, or ends on a word boundary
  (`Crc32.RecalculateIsBlockChecksum`).
- For the same reason a built image of 9 to 11 bytes does not match over every old contents of the flash; all other
  lengths do (`Firmware.BuiltImageMatchesExactly`).
- A stored firmware length below 8 passes the length check, wraps around when the header is taken off, and the checksum
  is then taken over almost the whole address space: it stays inside the slot exactly for lengths from 8 on
  (`Firmware.ReadsInsideExactly`). The model reports the other lengths as `ReadsOutsideFlash`.
- A 32- or 64-bit timer read is only reliable when its last pass spans at most 2^32 - 2^16 ticks; 2^32 ticks are already
  too many (`WideTimer.Reliable32Exactly`, `WideTimer.Reliable64Exactly`, with the torn reads as `Torn32`, `Torn64`).
- The microsecond clock runs backwards while a tick waits for its interrupt, except when it is read in the last 49 cycles
  of the millisecond (`WideTimer.LateTickExactly`).
- The baud range check multiplies in 32 bits. It decides about the true product exactly when the product fits or its
  remainder still exceeds the clock (`Arithmetic.RangeCheckExactly`); some rates far above every clock pass
  (`Arithmetic.RangeCheckWraps`). BAUD fits its sixteen bits exactly for a rate above zero (`Arithmetic.BaudFits`).
- The length of a Modbus response is not compared with the request: a reply without any data is accepted
  (`MeterRuns.EmptyReplyPasses`), and what is stored depends on nothing but checked bytes exactly when the reply was long
  enough (`MeterAnswers.DataIsCheckedExactly`, `MeterAnswers.WordIsCheckedExactly`).
- A late reply to an earlier request is told apart by slave address and function code alone, whatever registers it is
  about (`MeterRuns.ToldApart`, `MeterRuns.RepliesInterchange`). An answer to one of the two Iskra blocks passes for the
  other (`MeterAnswers.BlocksInterchange`).
- The Iskra fast reads come before the full scan. If they take 100 ms or more every time, or their second block is never
  answered, no other register is read any more and the watchdog resets the device (`MeterProgress.FullScanStarves`). With
  Eastron and generic meters the full scan does not get its turn either while the last register of every fast scan goes
  unanswered (`MeterSchedule.FastScanRepeats`).
- On an error the full scans of the Eastron, generic and Iskra drivers store an unset local variable
  (`MeterAnswers.StoredIsChecked`), also into registers that the Iskra fast reads fill
  (`MeterAnswers.FastRegisterChanges`); after a failed block read the Eltako driver handles its previous block again
  (`MeterAnswers.EltakoBlockCaptured`).
- The Eltako detection state stays at 3 after a DSZ15DZMOD was found; detection does not run again, so nothing follows.
  A meter of that make counts as a DSZ15DZMOD also when its code could not be read (`MeterDetection.FailureDetects`).
- The Eltako driver takes the word of a register from its number, as if blocks started at 1 with odd numbers or at 2 with
  even ones; with any other table it stores a neighbour's value (`MeterBlocks.EltakoWordFits`).
- A USB message is handed over at once only if it fits the storage behind what is stored. While messages are too long
  for that, each is refused and what is stored stays, even if the hardware could take it (`Usb.StorageStays`); only a
  completed transfer gets it out (`Usb.CompletionSends`).

## Model

| member | source | states |
|---|---|---|
| Division.FeedAllLinear | utility/crc16.c:63-73 | remainders of two messages differ by the remainder of their difference: the linearity behind every detection result below |
| Division.BurstRemainder | utility/crc16.c:63-73 | a nonzero error pattern confined to a register's width of consecutive bits leaves a remainder, for every polynomial of that width with its highest power set |
| Division.NotEmptied | utility/crc16.c:63-73 | a register with a bit at position n or above cannot be emptied by n further message bits, whatever they are |
| Crc16.ModbusTableEntry | utility/crc16.c:28-61 | every entry of the Modbus table is eight division steps on its index |
| Crc16.TableStep | utility/crc16.c:63-73 | one table look-up moves the register as eight division steps on register and byte do |
| Crc16.Crc16Modbus | utility/crc16.c:63-73 | the loop returns the bitwise CRC of section 6.2.2 of MODBUS over Serial Line V1.02 for every byte string, also in the middle of a buffer |
| Crc16.CrcIsRemainder | utility/crc16.c:63-73 | the register after a message is the remainder of polynomial division of its bits, lowest bit first |
| Crc16.OwnFrameAccepted | warp/meter.c:87-92 | a payload with its checksum appended low byte first passes the receiver's comparison |
| Crc16.AcceptedIsZeroResidue | warp/modbus.c:115-126 | a frame passes exactly when it has at least two bytes and the CRC over all of it, checksum included, is 0 |
| Crc16.OddErrorsDetected | warp/modbus.c:115-126 | two accepted frames of one length never differ in an odd number of bits |
| Crc16.BurstsDetected | warp/modbus.c:115-126 | two different accepted frames of one length never differ only within 16 consecutive bits |
| Distance.RepeatsExactly | utility/crc16.c:63-73 | the powers of x modulo the polynomial repeat exactly every 32767 steps |
| Distance.TwoErrors | warp/modbus.c:115-126 | a frame that differs from an accepted one in exactly two bits is accepted if and only if these lie a multiple of 32767 bits apart |
| Distance.DistanceFourExactly | warp/modbus.c:115-126 | any two different accepted frames of one length differ in at least four bits if and only if that length is at most 4095 bytes, which is far above the 256 that a frame may have |
| Crc16.CcittTableEntry | utility/crc16.c:77-110 | every entry of the CCITT table is eight division steps, highest bit first, on its index |
| Crc16.CcittTableStep | utility/crc16.c:112-121 | one CCITT table look-up equals eight bitwise steps on register and byte |
| Crc16.Ccitt8In | utility/crc16.c:112-121 | the loop returns the bitwise CCITT CRC of the bytes |
| Crc16.Ccitt16In | utility/crc16.c:123-133 | the word loop returns the same CRC of the words' bytes, high byte first |
| Crc32.CrcIsRemainder | utility/crc32.c:65-107 | the 32-bit register after a message is the remainder of polynomial division of its bits |
| Crc32.WordStep | utility/crc32.c:42-56 | up to four bytes mixed in as one word and shifted 8 bits each give what feeding them byte by byte gives |
| Crc32.RecalculateBytesHelper | utility/crc32.c:42-56 | the helper's loop takes eight division steps for each of its bytes |
| Crc32.RecalculateHead | utility/crc32.c:65-107 | the leading partial word contributes exactly its upper bytes |
| Crc32.RecalculateWords | utility/crc32.c:65-107 | the word loop contributes exactly the bytes of the whole words |
| Crc32.RecalculateTail | utility/crc32.c:65-107 | the trailing partial word contributes exactly its lower bytes |
| Crc32.Recalculate | utility/crc32.c:65-107 | for every alignment and length the loops compute the bitwise checksum of the bytes they read, starting from any earlier checksum |
| Crc32.Crc32Ieee | utility/crc32.c:109-113 | the same from scratch: the frame check sequence of clause 3.2.9 of IEEE Std 802.3-2012 |
| Crc32.RecalculateIsBlockChecksum | utility/crc32.c:71-84 | what is read is the block, whatever memory holds, if and only if the block is empty, has four bytes or more, or ends on a word boundary |
| Crc32.Chaining | utility/crc32.c:58-107 | recalculating over a second block from the checksum of the first gives the checksum of the concatenation |
| Crc32.BurstsDetected | utility/crc32.c:65-107 | different messages of one length and equal checksum differ over more than 32 consecutive bits |
| Crc32.LfsByte | warp/wem/littlefs/lfs_util.c:17-33 | two nibble look-ups are eight division steps on register and byte |
| Crc32.LfsCrc | warp/wem/littlefs/lfs_util.c:17-33 | the nibble-table loop is the bitwise CRC without complements, of any stretch of a buffer and from any start |
| Crc32.LfsMatchesCrc32 | warp/wem/littlefs/lfs_util.c:17-33 | for every block that the word-wise CRC-32 reads as it is, wherever it lies, lfs_crc started at all ones and complemented returns what the word-wise CRC-32 returns |
| LittleEndian.PackRoundTrip | tng/tng_build.py:12-13 | a packed 32-bit number is read back from its four bytes |
| Firmware.CheckAll | tng/tng_firmware.c:70-88 | which of the checks fails decides the result: identifier, magic number, length, checksum, in this order; it is OK exactly when all hold and the stored length is at least 8 |
| Firmware.ReadsInsideExactly | tng/tng_firmware.c:55-68 | of the lengths that pass the length check, exactly those from 8 on keep the checksum inside the slot |
| Firmware.BuiltImageMatches | tng/tng_build.py:11-16 | every built image of 8 or at least 12 bytes, flashed over any old contents, carries its own length and a matching checksum |
| Firmware.BuiltImageMatchesExactly | tng/tng_build.py:11-16 | a built image carries its own length and a matching checksum over every old contents of the slot if and only if it has 8 or at least 12 bytes |
| Firmware.FlashAndCheck | tng/tng_firmware.c:55-88 | a built image below the limit is accepted exactly when identifier and magic number match |
| Firmware.CorruptionDetected | tng/tng_firmware.c:61-68 | a slot with a matching checksum over an image of at least 12 bytes no longer matches after any change of its body within 32 consecutive bits |
| Ringbuffers.AddRefines | utility/ringbuffer.c:52-70 | write, advance and step back is a push on a queue of size - 1 bytes that drops the newest byte and counts it when full; the answer says whether there was room |
| Ringbuffers.RxEnqueueRefines | warp/rs485.c:67-81 | the receive enqueue is the same push |
| Ringbuffers.MaskedEnqueueIsAdd | bootloader/bootloader_xmc_irq.c:253-270 | the masked enqueue leaves the very ring that ringbuffer_add leaves |
| Ringbuffers.GetRefines | utility/ringbuffer.c:82-94 | get hands out the oldest byte, or nothing from an empty ring |
| Ringbuffers.RemoveRefines | utility/ringbuffer.c:72-80 | remove drops as many of the oldest bytes as there are, up to the number asked |
| Ringbuffers.RunRefines | utility/ringbuffer.c:26-103 | for every sequence of operations with any mixture of the three enqueues, ring and queue give the same answers and end in agreement |
| Ringbuffers.Ringbuffer.Append | utility/ringbuffer.c:52-70 | the in-place add is the push on the queue |
| Ringbuffers.Ringbuffer.Take | utility/ringbuffer.c:82-94 | the in-place get is the queue's removal of its oldest byte |
| Ringbuffers.Ringbuffer.RemoveFront | utility/ringbuffer.c:72-80 | the in-place remove drops the oldest bytes of the queue |
| Ringbuffers.Ringbuffer.Receive | warp/rs485.c:67-81 | one round of the receive loop is the push on the queue |
| Ringbuffers.Ringbuffer.ReceiveMasked | bootloader/bootloader_xmc_irq.c:253-270 | one round of the masked loop is the push on the queue |
| Ringbuffers.Ringbuffer.GetUsed | utility/ringbuffer.c:26-32 | the number of bytes in the queue |
| Ringbuffers.Ringbuffer.IsFull | utility/ringbuffer.c:48-50 | whether the queue holds size - 1 bytes; the low watermark notes the free count |
| Clock.ElapsedIsReal | hal/system_timer/system_timer.c:104-110 | what the wrapping test reports as elapsed has really passed |
| Clock.ElapsedWithinWrap | hal/system_timer/system_timer.c:104-110 | within one wrap of the clock the test is exact |
| ModbusLine.SentFrame | warp/meter.c:87-115 | on an empty transmit ring at offset 0 the queued bytes are the payload with its checksum, nothing more and nothing less |
| ModbusLine.EventKeeps | warp/modbus.c:144-262 | every step of the wire state machine keeps what holds on the line: one frame in flight, failures reported at most once, samples unaltered, responses backed by what was checked |
| ModbusLine.ReceivedKeeps | warp/rs485.c:60-89 | bytes received at any time only append: what was sampled or checked stays as it was |
| ModbusLine.TransmitKeeps | warp/rs485.c:100-117 | the transmit interrupt clocks out the frame in order, each byte once |
| ModbusLine.AnsweredIsValid | warp/modbus.c:115-142 | a response without the timed-out flag is backed by a prefix of the receive buffer with correct checksum, slave address and function code |
| ModbusLine.CheckedWhenQuiet | warp/modbus.c:178-218 | a frame is judged only after at least 5 ms without receive activity, with no byte stored since its length was noted |
| ModbusLine.CountersPaired | warp/modbus.c:155-250 | one tick adds to the checksum and frame-size counters only together with the timeout counter, and at most once |
| Rs485Context.Rs485.constructor | warp/modbus.c:37-77 | a bus set up as master is idle, ready, and all its counters are zero |
| Rs485Context.Rs485.ClearRequest | warp/modbus.c:79-93 | clearing a request in place |
| Rs485Context.Rs485.InitNewRequest | warp/modbus.c:294-308 | starting a request in place; its number is a new one and not 0 |
| Rs485Context.Rs485.CheckFrameChecksum | warp/modbus.c:115-126 | the receive ring's sampled bytes are accepted exactly when they pass the checksum comparison |
| Rs485Context.Rs485.CheckSlaveResponse | warp/modbus.c:128-142 | the answer comes from the asked slave for the asked function or its exception |
| Rs485Context.Rs485.Update | warp/modbus.c:144-262 | the whole state machine in place, in every wire state and mode |
| Rs485Context.Rs485.RxIrqHandler | warp/rs485.c:60-89 | all bytes of the hardware FIFO are pushed in order and the time of activity is noted |
| Rs485Context.Rs485.TxIrqHandler | warp/rs485.c:100-117 | hands out as many bytes as fit, in order, and notes the end of transmission |
| Rs485Context.Rs485.Tick | warp/rs485.c:272-320 | drains the FIFO first and then steps the state machine |
| Rs485Context.Rs485.ReadRegisters | warp/meter.c:126-133 | builds, checksums and sends a read request |
| Rs485Context.Rs485.WriteRegister | warp/meter.c:135-150 | builds, checksums and sends a write request for one or two registers |
| Rs485Context.Rs485.NoteException | warp/meter.c:165-184 | an exception response bumps the counter of its code and nothing else |
| Requests.RequestRoundTrip | warp/meter.c:94-150 | the addressed slave reads back from the payload exactly slave, function, register number and count or value that were asked (sections 6.3, 6.4, 6.6, 6.12 of the MODBUS Application Protocol V1.1b3) |
| MeterAnswers.SlaveReadsQuestion | warp/meter.c:126-150 | on every run, with register numbers that fit 16 bits in the tables, the addressed slave reads back from the frame in flight the one question that belongs to the driver's state |
| MeterScan.RegisterSize | warp/meter.c:471-485 | one register for the 16-bit types, two for all others |
| MeterScan.Scan | warp/meter_eastron.c:127-152 | the position loop terminates on every table with an entry of the wanted kind, finds the next such entry in cyclic order, and passes the end marker at most once |
| MeterScan.PositionsAre | warp/meter_generic.c:97-121 | the entries visited are exactly those of the kind before the stop marker, each once, in table order |
| MeterScan.NextIsSuccessor | warp/meter_generic.c:97-121 | one scan goes from an entry to its cyclic successor and reports the wrap exactly from the last to the first |
| MeterScan.ScansCycle | warp/meter_eastron.c:127-152 | from any position before the end marker, also one that holds no entry of the kind, the n-th scan stands on the n-th entry of the kind from there around the cycle, and as many cycles are reported done as it went around |
| MeterPaging.Pager.constructor | warp/meter.c:276-321 | counts the entries in the register set, skipping temporaries and the end marker |
| MeterPaging.Pager.GetNextValue | warp/meter.c:488-517 | hands out the value of the next in-set entry and moves behind it; NaN when there is none left, and NaN without moving when the set is empty |
| MeterPaging.Pager.Fill | warp/meter.c:519-546 | one response is the page of at most 15 values that belongs to its offset; after the last page the first follows |
| MeterPaging.ReadAll | warp/meter.c:488-546 | a client that asks until the announced number arrived gets the value of every in-set entry in table order, in as few pages as possible, and leaves the pager at the first page |
| MeterContext.Meters.constructor | warp/meter.c:250-267 | meter_init on a bus just set up is the boot station of the runs |
| MeterContext.Meters.FindMeterType | warp/meter.c:343-371 | one detection step in place, over all four detections |
| MeterContext.Meters.GenericIsConnected | warp/meter_generic.c:36-71 | the generic detection in place |
| MeterContext.Meters.EastronIsConnected | warp/meter_eastron.c:54-102 | the Eastron detection in place |
| MeterContext.Meters.EltakoIsConnected | warp/meter_eltako.c:87-195 | the Eltako detection with its two direction writes in place |
| MeterContext.Meters.IskraIsConnected | warp/meter_iskra.c:124-164 | the Iskra detection in place |
| MeterContext.Meters.TakeResponse | warp/meter.c:165-248 | pending, failed or good; a pending response changes nothing, a failed one counts its exception and starts the error wait after a timeout |
| MeterContext.Meters.EastronTick | warp/meter_eastron.c:104-246 | the Eastron driver in place |
| MeterContext.Meters.GenericTick | warp/meter_generic.c:73-141 | the generic driver in place |
| MeterContext.Meters.MoveScan | warp/meter_eastron.c:127-152 | the position loops of state 1 move fast or full position to the cyclic successor, with one done-callback a cycle, which stores the three resettable counters |
| MeterContext.Meters.HandleReadDone | warp/meter.c:460-469 | once all registers are read the three resettable counters become differences of what stands beside them, and every value counts as read |
| MeterContext.Meters.IskraHandleReadDone | warp/meter_iskra.c:166-175 | before that the Iskra driver stores both energies and then their difference, so that the resettable counters already use them |
| MeterContext.Meters.IskraFastTick | warp/meter_iskra.c:67-121 | the Iskra fast reads in place |
| MeterContext.Meters.IskraTick | warp/meter_iskra.c:182-285 | the Iskra driver with its interleaved fast reads in place |
| MeterContext.Meters.EltakoTick | warp/meter_eltako.c:275-341 | the Eltako driver in place, with the targets of its derived values |
| MeterContext.Meters.DeriveValue | warp/meter_eltako.c:200-267 | each step of the Eltako read-done routine stores at most one further value, step 0 the counters |
| MeterContext.Meters.Tick | warp/meter.c:552-613 | meter_tick in place: waits, detection, watchdog, drivers |
| MeterContext.Meters.Perform | warp/meter.c:552-613 | each event of a run in place, driver tick, bus tick, both interrupts or time passing, is the step of the run theorems and keeps their invariant |
| MeterContext.Meters.PerformAll | warp/meter.c:552-613 | any sequence of events in place is the run of these events |
| MeterContext.Live | warp/meter.c:250-267 | bus and meter set up from scratch and driven through any events are in a state that the run theorems speak of |
| MeterRuns.StepKeeps | warp/meter.c:552-613 | driver ticks, bus ticks, both interrupts and the clock, in any order, keep the agreement of bus and driver |
| MeterRuns.EveryRun | warp/meter.c:552-613 | after every run from boot the line is in order, the bus waits exactly when the driver does, and the frame in flight is the question of the driver's state |
| MeterRuns.IskraWaits | warp/meter_iskra.c:205-284 | on every run an Iskra request waits exactly in fast states 1 and 3 while the fast reads are active and in states 1, 4 and 6 otherwise; active fast reads imply state 0 |
| MeterRuns.OthersWait | warp/meter_eastron.c:104-245 | the same for Eastron {1, 3, 5, 7}, generic {1} and Eltako {1, 2} |
| MeterRuns.OneRequestAtATime | warp/meter.c:87-115 | on every run no driver tick writes into the transmit ring or restarts the timeout of a request that waits: it is left alone, or it is finished and leaves nothing behind, neither bytes in the rings nor a flag |
| MeterRuns.RequestIsOneFrame | warp/meter.c:87-115 | on every run a request is built on an empty ring at offset 0, and while it waits the ring holds exactly one frame with a correct checksum whose beginning was clocked out |
| MeterRuns.OnlyValidReplies | warp/modbus.c:178-239 | on every run a response handed over is backed by a received prefix with correct checksum, slave address and function code |
| MeterRuns.TimedOutIsSticky | warp/modbus.c:144-250 | on every run a request raises at most one failure, and the flag stays until a driver clears the request |
| MeterRuns.FastRegistersBacked | warp/meter_iskra.c:77-113 | on every run a tick of the Iskra fast path changes registers only while such a response is held that is no exception |
| MeterRuns.FastRegistersWritten | warp/meter_iskra.c:77-113 | a good block goes word by word to the seven fast registers in order, and to no other register |
| MeterRuns.ResponseIsTaken | warp/meter.c:186-219 | on every run the next driver tick, detection included, finishes a request whose response was handed over, or comes one step closer: only the Eltako block read takes more, at most the number of table entries and two, so that no driver waits for what it has got |
| MeterRuns.EmptyReplyPasses | warp/modbus.c:128-142 | a reply of address, function code and checksum alone passes as answer to any request |
| MeterRuns.ToldApart | warp/modbus.c:115-142 | two requests accept the same replies if and only if slave address and function code are the same |
| MeterRuns.RepliesInterchange | warp/modbus.c:115-142 | the same of any two questions of the drivers, whatever registers they ask for |
| MeterAnswers.RequestFitsState | warp/meter.c:126-150 | on every run the frame in flight is the checksummed payload of the one question that belongs to the driver's state, and there is none in the other states |
| MeterAnswers.ScanStoresWhatItAsked | warp/meter_eastron.c:120-152 | on every run a tick in the full or fast scan changes only the target of the entry it stands at, and exactly when the full scan starts over also the registers that are computed then: three counters, with the Iskra driver three sums as well. What it stores is what its answer gave |
| MeterAnswers.StoredIsChecked | warp/meter.c:186-219 | on every run of every driver with a scan, a response that is not pending is good if and only if it is the checked answer to the question about the entry the scan stands at; after a failed one the target holds what the unset local held |
| MeterAnswers.DataWasChecked | warp/meter.c:196-219 | of an answer with room for its one or two registers, the bytes stored are data bytes that passed the checks, the checksum bytes not among them |
| MeterAnswers.DataIsCheckedExactly | warp/meter.c:196-219 | what a scan stores from an accepted answer is determined by the bytes that passed the checks if and only if there were at least 3 + 2 * registers of them |
| MeterAnswers.WordIsCheckedExactly | warp/meter.c:196-219 | the same of the i-th word of a block: at least 7 + 4 * i bytes |
| MeterAnswers.WordWasChecked | warp/meter.c:196-219 | of an answer that is long enough, every word taken is one of the data bytes that passed the checks |
| MeterAnswers.FastBlocksAreAsked | warp/meter_iskra.c:67-121 | on every run the two Iskra block reads ask for exactly as many registers as the words they store |
| MeterAnswers.BlocksInterchange | warp/meter_iskra.c:67-121 | every reply to one of the two Iskra block reads passes the checks for the other |
| MeterAnswers.FastRegisterChanges | warp/meter_iskra.c:77-113 | on every run a tick changes one of the seven fast registers only by the checked answer to the block read it is in, or as the target of the full scan's entry |
| MeterAnswers.EltakoBlockCaptured | warp/meter_eltako.c:287-296 | on every run the Eltako driver copies the words of the checked answer to its block read; a failed read leaves the old copy |
| MeterBlocks.EltakoStoresItsWord | warp/meter_eltako.c:287-302 | on every run from boot the tick that handles a register which fits its block (block start 1 and odd, or 2 and even) and lies in the 38 copied words stores in its target, converted by its type, the four bytes from 3 + 2 * (number - first) on of the last block reply that was good, and changes no other register |
| MeterBlocks.EltakoWordFits | warp/meter_eltako.c:297-302 | whatever block is held, a tick that handles a register of the block stores the word that answers it, (number - first) / 2 words into the block that starts at first, if and only if the block starts at 1 and the number is odd, or it starts at 2 and the number is even |
| MeterReplies.ReplyJudgedExactly | warp/modbus.c:178-239 | on every run, with a request waiting in time on an idle wire and everything received sampled, the next bus tick hands the reply over as good if and only if it has at most 256 bytes, the correct checksum, the asked slave and the asked function or its exception; as a failure if and only if it has not |
| MeterReplies.FailuresAreCounted | warp/modbus.c:186-231 | at such a tick the timeout counter goes up exactly with a reply that is not acceptable, the frame-size counter exactly above 256 bytes, and the checksum counter exactly with a wrong checksum of at most 256; no other counter changes |
| MeterReplies.ReplyArrives | warp/modbus.c:144-240 | on every run, bytes that come in while a request listens, in any pieces with anything else going on in between, at most 5 ms apart and in time, and are followed by 5 ms of quiet and four bus ticks, reach the driver as one reply: good if and only if it is acceptable and no exception, otherwise as a failure |
| MeterReplies.RequestStarts | warp/meter.c:87-150 | on every run a driver tick on an idle bus leaves it idle or starts a request: flags down, nothing clocked out yet, the receive ring as it was or emptied, and the timeout counting from that tick |
| MeterReplies.StartedListens | warp/meter.c:87-115 | on every run a request that a tick starts on an empty receive ring and that is clocked out at once then listens, with its whole frame sent, nothing received and its whole timeout ahead: the state in which ReplyArrives begins |
| MeterReplies.ExceptionIsCounted | warp/meter.c:165-184 | a response handed over without the timed-out flag is a failure if and only if its checked function code is the asked one with the exception flag, and then, of the four counters, just the one that belongs to its checked third byte goes up by one |
| MeterDetection.MeterIsWhatAnswered | warp/meter.c:343-371 | on every run the good answer to a detection step decides by its checked data bytes, listed as they come over the wire, which meter is found, and what is found is spoken to at the address that was asked |
| MeterDetection.EltakoDetects | warp/meter_eltako.c:87-195 | the make is asked for its code exactly if its bytes are those of Eltako; two codes lead to the direction writes, every other one is a DSZ15DZMOD |
| MeterDetection.FailureDetects | warp/meter.c:343-371 | a detection step without good answer finds nothing, with one exception: after a failed read of an Eltako code the meter counts as a DSZ15DZMOD |
| MeterDetection.WritesDetect | warp/meter_eltako.c:146-186 | the two direction writes end with a DSZ16DZE, however they are answered |
| MeterDetection.FoundIsAsked | warp/meter.c:323-336 | what is found is spoken to at the address of the detection that found it |
| MeterAnswers.FramesCheckedWhenQuiet | warp/rs485.c:306-312 | on every run a frame is judged only after 5 ms of quiet, and is then everything that was received |
| MeterAnswers.RequestEnds | warp/modbus.c:144-250 | on every run, once the timeout of a request has elapsed and the wire is done, two ticks of the bus without new bytes hand a response or a failure to the driver: no request waits forever |
| MeterProgress.NoDeadlock | warp/meter.c:552-613 | from every reached state with a request in flight there is a continuation without any byte received that ends the request within its timeout, 5 ms and the waits of the driver, Eltako's block handling included, unless the watchdog was due by then |
| MeterProgress.FullScanTurn | warp/meter_iskra.c:197-211 | between two registers a tick goes on with the Iskra full scan if and only if it comes through, no fast cycle is under way and the last one began less than 100 ms ago; any other tick leaves the scan where it is |
| MeterProgress.FullScanStarves | warp/meter_iskra.c:67-121 | on every run after the beginning of a fast cycle in which none ends within 100 ms with its second block not timed out, the full scan never gets its turn and stays where it is, and once the watchdog has seen this for a minute the next tick that comes through stops the driver |
| MeterSchedule.ScanMovesOn | warp/meter_eastron.c:120-152 | after a response only the scan that asked moves, to the entry of its kind that follows around the table; a fast scan ends exactly with its last entry and the next one is not yet due then |
| MeterSchedule.ScanAsksNext | warp/meter_generic.c:76-87 | between two registers a fast scan under way goes on, one begins once 500 ms have passed, and otherwise the full scan has its turn; the request is for the entry at which that scan stands |
| MeterSchedule.FastScanRepeats | warp/meter_eastron.c:104-152 | when the last register of a fast scan is not answered, the next tick that comes through begins the next fast scan, and the full scan stands still |
| MeterSchedule.SystemTypeDecides | warp/meter_eastron.c:176-204 | the password for a rewrite is written exactly when the system type read, or the old one after a failed read, does not fit the phases now connected, into the register that belongs to the meter type; otherwise the scan goes on |
| MeterSchedule.RewriteFits | warp/meter_eastron.c:215-230 | a system type is written exactly for one or for three connected phases, and the one that is written fits these phases, so that reading it back does not start another rewrite |
| MeterSchedule.StatusAfterFullScan | warp/meter_iskra.c:220-235 | after each Iskra response the scan moves by one entry, from the last one to the first, and the status states follow |
| MeterSchedule.StatusIsAsked | warp/meter_iskra.c:237-255 | the first status register is asked for exactly when the full scan has come around |
| MeterSchedule.SecondStatus | warp/meter_iskra.c:257-284 | the second status register follows the first, and a failed read leaves the old status |
| MeterSchedule.EltakoPeriod | warp/meter_eltako.c:318-334 | the next Eltako block is asked for exactly when 100 ms have passed since the answer; until then each tick makes at most one step of what is derived |
| MeterSchedule.ErrorHolds | warp/meter.c:560-565 | a timeout that a tick has taken at an instant other than 0 keeps all later ticks from doing anything for 500 ms, and no longer |
| MeterSchedule.StartHolds | warp/meter.c:567-577 | nothing is asked within 2500 ms of booting, and the first tick from then on asks the first question of the detection |
| MeterSchedule.ResetBalances | warp/meter.c:460-469 | the energies since the reset and the amounts noted at the reset add up to the energies; if both balance, import less export being the sum, so do the energies since the reset |
| MeterSchedule.IskraBalances | warp/meter_iskra.c:166-175 | an Iskra meter's import and export are a thousandth of its counters and its sum is import less export |
| MeterProgress.StuckForever | warp/meter.c:577-588 | nothing moves a driver that the watchdog has stopped |
| MeterAnswers.FailuresPaired | warp/modbus.c:155-250 | on every run frame-size and checksum failures are paired with timeouts, and a timeout is counted only when the flag goes up |
| Butterflies.TwiddledInPlace | cmsis_overwrite/arm_cfft_radix4_q31.c:184-282 | the statements of a first or middle butterfly, which overwrite a place while others still hold old values, compute the butterfly of the four old points and change nothing else |
| Butterflies.TwiddledWalking | cmsis_overwrite/arm_cfft_radix4_q31.c:456-513 | the same statements with each pointer moving on between them compute the same butterfly and leave every pointer one stride on |
| Butterflies.UntwiddledInPlace | cmsis_overwrite/arm_cfft_radix4_q31.c:661-750 | the same for the last stage |
| Butterflies.InverseButterfly | cmsis_overwrite/arm_cfft_radix4_q31.c:836-943 | the inverse butterfly is the forward one between exchanges of real and imaginary parts, wrap-around included |
| Dft.ButterflyIsFourPoint | cmsis_overwrite/arm_cfft_radix4_q31.c:184-282 | place 0, 2, 1, 3 of every butterfly, forward and inverse, holds the wrapped sum over n of its n-th point times the nk-th power of -j or j for k = 0, 1, 2, 3, scaled as its stage does; in first and middle stages it is then rotated by the k-th twiddle factor |
| Dft.RotateIsProduct | cmsis_overwrite/arm_cfft_radix4_q31.c:231-275 | rotated means multiplied exactly, for the forward transform by the conjugate: each part is within one of the upper half of the exact product, scaled as the stage does |
| Fft.ButterfliesPartition | cmsis_overwrite/arm_cfft_radix4_q31.c:302-393 | every point of a pass belongs to exactly one butterfly, at exactly one of its four places |
| Fft.TableIndex | cmsis_overwrite/arm_cfft_radix4_q31.c:302-320 | the largest twiddle index of a pass stays inside the table |
| Fft.FirstStageIndex | cmsis_overwrite/arm_cfft_radix4_q31.c:172-282 | the first stage with computed indices leaves the pass out of place of the old stretch and touches nothing around it |
| Fft.FirstStagePointer | cmsis_overwrite/arm_cfft_radix4_q31.c:416-524 | the first stage with walking pointers, each moved in the middle of a butterfly right after its last use, leaves the same |
| Fft.MiddleStageIndex | cmsis_overwrite/arm_cfft_radix4_q31.c:290-393 | a middle stage with computed indices leaves the pass out of place |
| Fft.MiddleStagePointer | cmsis_overwrite/arm_cfft_radix4_q31.c:532-648 | a middle stage with walking pointers, moved in the same way, leaves the same |
| Fft.LastStage | cmsis_overwrite/arm_cfft_radix4_q31.c:661-750 | the last stage leaves the pass out of place |
| Dft.PassIsFourPoint | cmsis_overwrite/arm_cfft_radix4_q31.c:290-393 | after a pass every point of the buffer is a four-point transform of the four old points a stride apart, times the twiddle factor of its column |
| Transforms.TableForPass | cmsis_overwrite/arm_cfft_radix4_q31.c:290-393 | span times twiddle modifier stays the same from pass to pass, so that one table serves them all |
| Transforms.Radix4Index | cmsis_overwrite/arm_cfft_radix4_q31.c:172-393 | for every length 4^m the index form leaves the composition of the passes |
| Transforms.Radix4Pointer | cmsis_overwrite/arm_cfft_radix4_q31.c:416-648 | the pointer form leaves the same array as the index form |
| Dft.PlacesHoldBins | cmsis_overwrite/arm_cfft_radix4_q31.c:172-393 | through all passes the n-th input reaches place o with the twiddle exponent n times bin, modulo the circle, where the bin number has the base-4 digits of o reversed and the bits of each digit exchanged: the exponent of the discrete Fourier transform |
| Dft.ReversedIsBitReversed | cmsis_overwrite/arm_cfft_radix4_q31.c:661-750 | that bin number is o with its bits reversed, the order for which arm_cfft_q31 has its bit reversal |
| Dft.PowerIsPasses | cmsis_overwrite/arm_cfft_q31.c:108-120 | every power of four from 16 to 4096 is transformed by exactly the passes that PlacesHoldBins is about |
| Transforms.InverseRadix4 | cmsis_overwrite/arm_cfft_radix4_q31.c:836-1389 | the inverse transform is bit for bit the forward one between exchanges of real and imaginary parts |
| Transforms.CombineInPlace | cmsis_overwrite/arm_cfft_q31.c:136-180 | the pair loop in place computes every pair from its old points |
| Transforms.Radix4By2InPlace | cmsis_overwrite/arm_cfft_q31.c:136-202 | pair loop, two half-size transforms and doubling in place equal the composition out of place |
| Dft.PairIsTwoPoint | cmsis_overwrite/arm_cfft_q31.c:136-180 | with exact multiplications a pair becomes its scaled sum and its scaled difference times the twiddle factor, conjugated for the forward transform, and doubled |
| Dft.TwicePowerIsPasses | cmsis_overwrite/arm_cfft_q31.c:136-202 | for twice a power of four every point is twice the point that the passes of half the length make of the sums or of the differences |
| Dft.By2PlacesHoldBins | cmsis_overwrite/arm_cfft_q31.c:136-202 | pair loop and passes together give the first half the even and the second half the odd bins, with the exponents of the discrete Fourier transform |
| Dft.OtherLengthsStay | cmsis_overwrite/arm_cfft_q31.c:86-124 | a buffer of any length that is neither is left alone |
| Transforms.InverseRadix4By2 | cmsis_overwrite/arm_cfft_q31.c:204-261 | the inverse twice-a-power-of-four transform is the forward one between exchanges |
| Transforms.CfftInPlace | cmsis_overwrite/arm_cfft_q31.c:79-130 | the dispatch over the nine lengths, any other length left alone, and the reordering of the points where it is asked for |
| Transforms.InverseCfft | cmsis_overwrite/arm_cfft_q31.c:79-130 | for every buffer, table and length, reordered or not, the inverse transform is the forward transform between exchanges |
| Spi.RunKeeps | warp/wem/sdmmc.c:49-107 | every interleaving of both handlers, manual drain and hardware shift keeps index balance and byte order |
| Spi.SentInOrder | warp/wem/sdmmc.c:75-107 | on every interleaving the k-th byte clocked out is the k-th byte handed over, bytes not yet sent stand unharmed in the shared buffer, and the indices differ by what is in FIFOs and shifter |
| Spi.CompleteTransfer | warp/wem/sdmmc.c:109-162 | when both indices reach the length, every byte was sent and the buffer holds exactly the received bytes |
| Spi.TransferCompletes | warp/wem/sdmmc.c:125-151 | the transfer cannot get stuck: if in every round of its loop the wire delivers at least one byte, and the receive interrupt comes when more than 8 bytes wait, then 2 * length + 2 rounds before the timeout are enough; the last 8 bytes, and transfers of at most 8, get through by the manual drain alone |
| Spi.RoundAdvances | warp/wem/sdmmc.c:125-145 | such a round gets a transfer going and brings one that is going strictly closer to its end |
| Spi.SpiMaster.MisoIrqHandler | warp/wem/sdmmc.c:49-73 | the receive handler is exactly as many single steps as there are bytes in its FIFO, put behind the bytes already there |
| Spi.SpiMaster.MosiIrqHandler | warp/wem/sdmmc.c:75-107 | the transmit handler is exactly as many single steps as bytes remain and both FIFOs can take |
| Spi.SpiMaster.Transceive | warp/wem/sdmmc.c:109-162 | success and buffer are determined by what the rounds before the timeout bring; a successful transfer has sent the given bytes and returns exactly the received ones |
| Dispatcher.Tick | utility/communication_callback.c:40-51 | one tick calls every handler exactly once in table order and leaves the stable partition: returned false, then returned true |
| Dispatcher.Moves | utility/communication_callback.c:40-51 | a handler that returned false moves forward by exactly the number of handlers ahead that returned true; one that returned true goes behind all that did not |
| Dispatcher.NewIndexesDiffer | utility/communication_callback.c:40-51 | no handler is lost or doubled, and equals keep their order |
| Dispatcher.BoundedWaiting | utility/communication_callback.c:40-51 | over any number of ticks a waiting handler never moves back and is overtaken at most as often as there were handlers ahead of it |
| WideTimer.Reliable32Exactly | hal/ccu4_timer/ccu4_timer.c:26-36 | every 32-bit read whose last pass spans at most n ticks shows the counter at some instant of the pass if and only if n is at most 2^32 - 2^16 |
| WideTimer.Reliable64Exactly | hal/ccu4_timer/ccu4_timer.c:38-54 | the same exact bound for the 64-bit read |
| WideTimer.Torn32 | hal/ccu4_timer/ccu4_timer.c:26-36 | one tick above the bound a read can show a value the counter never had during the pass |
| WideTimer.GetValue32 | hal/ccu4_timer/ccu4_timer.c:26-36 | the retry loop ends with the first pass that succeeds and returns the counter at the instant slice 0 was read, if that pass kept the bound |
| WideTimer.RetriesOnce32 | hal/ccu4_timer/ccu4_timer.c:26-36 | if two passes take less than 2^16 ticks, one of them succeeds |
| WideTimer.GetValue64 | hal/ccu4_timer/ccu4_timer.c:38-54 | the same for all four slices, a failed check leaving out the reads after it |
| WideTimer.RetriesOnce64 | hal/ccu4_timer/ccu4_timer.c:38-54 | if fourteen reads take less than 2^16 ticks, the first or second pass succeeds |
| WideTimer.ScaledIsClose | hal/system_timer/system_timer.c:75-99 | multiply and shift fits 32 bits, stays in 0..999 and is at most one below the division by 48 |
| WideTimer.MicrosecondsMonotone | hal/system_timer/system_timer.c:75-99 | with the tick interrupt handled at once the microsecond clock never runs backwards |
| WideTimer.MicrosecondsAccurate | hal/system_timer/system_timer.c:75-99 | it then shows the full microseconds or one more |
| WideTimer.ReadingAccurate | hal/system_timer/system_timer.c:75-99 | with any number of ticks waiting for their interrupt the clock is behind by exactly one millisecond each |
| WideTimer.ReadingOrder | hal/system_timer/system_timer.c:75-99 | with ticks handled at any time, a later reading is not below an earlier one if and only if a tick was handled in between or the scaled VAL has not grown |
| WideTimer.LateTickExactly | hal/system_timer/system_timer.c:40-99 | while ticks wait for their interrupt, no earlier reading is above the present one if and only if VAL has at most 48 left |
| WideTimer.GetUs | hal/system_timer/system_timer.c:75-99 | the retry loop ends with the first pass that finds the tick counter unchanged; what it returns is the microsecond clock at the instant VAL was read if and only if no tick was waiting then |
| WideTimer.RetriesOnceUs | hal/system_timer/system_timer.c:75-99 | if two passes take less than a millisecond, one of them succeeds |
| Usb.SentInOrder | tng/usb_stm32/usb.c:81-145 | on every run the bytes of successful transmits followed by the storage are the accepted messages in order, and the buffer in flight is the last chunk handed over |
| Usb.InFlightUntouched | tng/usb_stm32/usb.c:112-145 | during a transfer nothing but its completion touches the buffer in flight |
| Usb.RefusedLeavesQueue | tng/usb_stm32/usb.c:112-145 | a message is refused only when the storage cannot take it, and nothing queued or sent changes |
| Usb.CompletionSends | tng/usb_stm32/usbd_tfp.c:117-122 | a completed transfer whose follow-up the hardware takes hands over exactly the stored bytes as one chunk, empties the storage and keeps that chunk in flight; with nothing stored nothing is in flight |
| Usb.TwoCompletions | tng/usb_stm32/usb.c:81-98 | after any run two completed transfers whose follow-ups are taken bring everything accepted to the hardware, with nothing in flight |
| Usb.SendGoesOut | tng/usb_stm32/usb.c:112-145 | a message is handed over by its own call if and only if nothing is in flight, nothing has to stay stored before it, and the hardware takes it |
| Usb.StorageStays | tng/usb_stm32/usb.c:112-145 | without a completed transfer, messages too long for the rest of the storage leave it as it is, whatever the hardware could take |
| Usb.UsbSender.TrySendStorage | tng/usb_stm32/usb.c:81-98 | pushing the storage in place |
| Usb.UsbSender.AppendToStorage | tng/usb_stm32/usb.c:100-110 | appending to the storage in place |
| Usb.UsbSender.Send | tng/usb_stm32/usb.c:112-145 | sending in place keeps the order of all bytes |
| Usb.UsbSender.DataIn | tng/usb_stm32/usbd_tfp.c:117-122 | the completion step clears the flag and pushes the storage |
| Arithmetic.LongDivision | asf_overwrite/sam0/drivers/sercom/sercom.c:73-93 | the exact quotient for every 64-bit dividend and every divisor from 1 on, no intermediate overflow; all ones for divisor 0 |
| Arithmetic.RangeCheckExactly | asf_overwrite/sam0/drivers/sercom/sercom.c:150-154 | the 32-bit range check decides whether rate * samples exceeds the clock if and only if the product fits 32 bits or its remainder exceeds the clock |
| Arithmetic.RangeCheckWraps | asf_overwrite/sam0/drivers/sercom/sercom.c:150-154 | a rate far above every clock passes the check |
| Arithmetic.AsyncBaud | asf_overwrite/sam0/drivers/sercom/sercom.c:135-161 | accepted exactly when the 32-bit product does not exceed the clock; BAUD then comes from the ratio of that product to the clock, wrapped or not; nothing is divided for clock 0 |
| Arithmetic.BaudFits | asf_overwrite/sam0/drivers/sercom/sercom.c:156-161 | BAUD fits its sixteen bits if and only if the rate is above zero |
| Arithmetic.BaudAccurate | asf_overwrite/sam0/drivers/sercom/sercom.c:156-161 | (65536 - BAUD) / 65536 exceeds rate * samples / clock by less than 2^-16 and falls short by less than 2^-32 |
| Arithmetic.SqrtIntegerPrecise | utility/sqrt.c:24-48 | the root rounded to nearest for every 32-bit argument: r(r - 1) < x <= r(r + 1), and 0 for 0, without overflow |
| Base58.RoundTrip | protocols/tfp/tfp.c:44-63 | reading the digits in base 58 gives the number back |
| Base58.AtMostSixDigits | protocols/tfp/tfp.c:44-63 | a 32-bit number has at most six digits |
| Base58.TfpUidToBase58 | protocols/tfp/tfp.c:44-63 | the buffer holds the digits, highest first, padded with zeros |
| Base58.Base58Encode | warp/wem/sd.c:57-77 | the second encoder writes the same digits and returns the end |
| SdPath.SdItoa | warp/wem/sd.c:80-96 | a byte in decimal without leading zeros, and nothing else changes |
| SdPath.GetPathWithFilename | warp/wem/sd.c:98-115 | the buffer of 32 characters holds the path as a terminated string of at most 21 |
| SdPath.PathRoundTrip | warp/wem/sd.c:98-115 | every part of the name can be read back from the path, also whether it has a day |
| SdPath.PathsDiffer | warp/wem/sd.c:98-115 | different names have different paths |
| CallbackValue.ThresholdIsWanted | utility/callback_value.h:212-226 | the evaluated threshold, the rewritten '<' and '>' included, holds for a value of the type exactly when the user's does |
| CallbackValue.FirstIsImmediate | utility/callback_value.h:232-237 | after a configuration the period counts as elapsed at once, across clock wrap-around |
| CallbackValue.EveryRun | utility/callback_value.h:266-339 | on every run from boot messages leave in trigger order with the value that triggered, all but one buffered message have left, every trigger met the user's threshold, and two triggers of an instance without a configuration in between are a period apart across clock wrap-around |
| CallbackValue.TriggersExactly | utility/callback_value.h:288-316 | with no message buffered, a handler call adds a trigger if and only if the period is above 0 and over since the last trigger or configuration, the value differs from the one that triggered last where it has to, and the user's threshold holds |
| CallbackValue.EveryRunTriggers | utility/callback_value.h:266-339 | the same on every run from boot, stated over the history of triggers and true time within one wrap of the clock |
| CallbackValue.HeldBack | utility/callback_value.h:271-287 | while a message is buffered a handler call adds no trigger |
| CallbackValue.ConfigurationIsTaken | utility/callback_value.h:199-240 | a configuration with a known option replaces the old one, and its period counts as over |
| CallbackValue.Callbacks.SetConfiguration | utility/callback_value.h:199-240 | configuring in place; an unknown option changes nothing |
| CallbackValue.Callbacks.HandleCallback | utility/callback_value.h:266-339 | the handler in place; it answers true exactly when it sent a message |
| CallbackValue.Callbacks.Perform | utility/callback_value.h:199-339 | each event of a run in place is the step of the run theorem and keeps its invariant |
| CallbackValue.Callbacks.PerformAll | utility/callback_value.h:199-339 | any sequence of events in place is the run of these events |

## Left out

- Firmware.BuiltImageMatches: one direction; Firmware.BuiltImageMatchesExactly shows that the lengths it leaves out do not match over every old contents.
- Firmware.CheckAll: a stored length below 8 gets a status of its own instead of a checksum over almost all of memory, which is not modelled; the flash page size is a parameter, because the vendor header that holds it is not part of this model.
- MeterAnswers.WordWasChecked: needs an answer that is long enough, and so does MeterAnswers.DataWasChecked; MeterAnswers.WordIsCheckedExactly and MeterAnswers.DataIsCheckedExactly say what happens otherwise.
- MeterAnswers.ScanStoresWhatItAsked: derived values are symbols that name what they are computed from or for, because the floating-point sums are not modelled.
- WideTimer.GetUs: the values of the tick counter at the reads are given, at most the number of milliseconds passed; the variant that divides by another main clock is not modelled.
- WideTimer.GetValue32: the instants of the register reads are given as a finite sequence, and the result is None if the loop still reads after the last of them; slice 0 runs through its full 16 bits.
- Spi.SpiMaster.Transceive: FIFOs are flushed before, the receive FIFO does not overrun, and a missing output buffer corresponds to sending 0xFF bytes; what interrupts and wire bring in each round of the loop is an input, and the timeout elapses in the last round.
- Transforms.Cfft: the reordering takes any list of places, because arm_bitreversal_32 and its tables are not part of this model; cooperative yields and the big-endian variant are not modelled, and the rounding multiply macros, whose header is not part of this model, are an arbitrary parameter.
- Transforms.Radix4: freedom from overflow is not claimed, because it does not hold for all inputs; words wrap.
- CallbackValue.EveryRun: several instances of one value type share the buffer of their handler function, as in a build without channels; with channels every channel is a run of its own. The value read is an input.
- Usb.SentInOrder: sending and completion are single steps; an interrupt inside usb_send is not modelled.
- MeterRuns.EveryRun: driver tick, bus tick and interrupts are single steps; master mode, a receive ring of at least 155 and a transmit ring of at least 14 bytes, sizes up to 32768; receive and transmit part of the shared buffer are separate arrays.
- Rs485Context.Rs485.Update: the early return while a response is streamed is absent, because nothing in the repository sets that flag.
- MeterProgress.NoDeadlock: the request timeout is a 32-bit number, as the field is; a driver that the watchdog has stopped is left out.
- MeterProgress.FullScanStarves: for runs shorter than one wrap of the millisecond clock; a block that times out at the instant 0 of that clock starts no wait after an error and counts as answered in time.
- MeterContext.Meters.Tick: the build without hardware version and display hooks; the loop that waits for the watchdog is a flag that stops all ticks.
- MeterContext.Meters.EltakoTick: derived values, floating-point conversion and scale factors of registers are left symbolic, as words with their type and as names of what is computed.
- Register tables: any tables with a fast and a full entry before the stop marker (Eltako: register numbers 1 to 152), not the particular ones; the meter type SDM72CTM, which no detection returns and no switch handles, is absent.
- The test in warp/meter_eastron.c:163 for meter types that other drivers handle never holds there and is left out.
- The two statics that say whether a scan is fast, one in the Eastron and one in the generic driver, are one field, because only one driver runs.
- Phase flags and the contents of unset locals come from outside as inputs of a tick.
- Modbus slave and plain RS485 modes beyond the wire state machine, streaming of longer messages, and meter_write_string.
- Bootloader protocol, SPITFP, the message loop tng_tick, the SD read cache and the coroutine switch.
- The rate limit in front of the dispatcher, synchronous and fractional baud modes, the fast square roots.
- Pin, clock, DMA, USB descriptor, PWM, ADC, LED and logging code: register writes only.

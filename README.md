# LGT printer firmware: display link, DWIN engine and power-loss journal

This project models three parts of the LGT build of the Marlin printer
firmware and proves properties of the model.

- **The second serial port, MarlinSerial1.** The model covers:
  - the receive ring that the receive interrupt fills, with its drop counter
    and its maximum-fill statistic;
  - the emergency command scanner for `M108`, `M112` and `M410`, which is
    fed from that interrupt;
  - XON/XOFF flow control, driven by a flag byte;
  - the transmit ring that the data-register-empty interrupt drains;
  - the `write` / `print` / `println` / `printNumber` family built on top of
    the rings.

  The class `MarlinSerial.Serial1` keeps both rings as arrays, with their
  head and tail positions. It also records:
  - the bytes that have gone out on the line (`wire`);
  - the bytes received (`received`);
  - the scanner's state and the effects it fired.

  `Out()` is the wire, then the control character owed (if any), then
  the bytes queued in the ring. Every writing method is proved against
  it. It is what the line will eventually carry only while the transmit
  interrupt is never left enabled without work (`Quiet()`). The
  firmware's own `write` can leave the interrupt enabled on an empty ring,
  and the interrupt then sends a stale ring byte (see "## Findings").
- **The DWIN touch-screen engine, `LGT_SCR.cpp`.** The class
  `LgtScreen.Screen` models:
  - the shared `data_storage` array and the frame encoders that fill it;
  - the read pass that collects a reply from the display;
  - the decoder, the address switch and every button handler;
  - the file listing, the status light, `LGT_Stop_Printing` and
    `LGT_Power_Loss_Recovery_Resume`.

  The module `DwinFrames` defines, as pure functions:
  - the frames the encoders send;
  - the bytes the read pass keeps;
  - the decision the decoder takes.

  The module `LgtSession` holds the pure specifications of the read loop,
  the listing, the work-time text and the reheat commands.
- **The power-loss recovery journal, `power_loss_recovery.cpp`.** The class
  `Recovery.Journal` models:
  - the in-memory record and the copy on the card;
  - the command table that `check_print_job_recovery` fills with the resume
    list: the re-homing preamble, the saved queue tail from its read index,
    `M23` and `M24`;
  - `save_job_recovery_info` with its save gate and its sentinels.

Calls into other parts of the firmware are appended to an `events`
sequence. These include the planner, the thermal manager, the card, the
print timer, `idle()`, the LED driver and EEPROM. G-code handed to the
queue is appended to `enqueued`, and bytes written to the display are
appended to `out`.

Values read from those parts arrive as method parameters:
- the timer's duration;
- the EEPROM total;
- the hotend temperature;
- the scaled feed rate;
- the thermal readings.

The build constants live in a `LgtConfig.Config` value with a validity
predicate. These are the addresses, button codes, page ids, `DATA_SIZE`,
`FILE_LIST_NUM`, the preset temperatures, the axis limits, and the
`U20_Pro`/`U30_Pro` choice. `BUFSIZE`, the hotend and fan counts and
`HOTENDS > 1` live in `Recovery.Setup`.

Integer widths are modelled explicitly where the code depends on them:
- 8-bit ring positions and counters, with the skip-zero increment;
- 16-bit words, addresses and `int16_t` values;
- the 32-bit `unsigned long` arithmetic of the timers and of `print`;
- the 16-bit `int` loop index of the file listing.

## Model

| member | source | states |
|---|---|---|
| Ring.EmptyIff | Marlin/MarlinSerial1.cpp:350-355 | a ring is empty exactly when head equals tail, the test `peek`, `read` and the transmit interrupt use |
| Ring.FullIff | Marlin/MarlinSerial1.cpp:182-189 | the ring holds N-1 bytes exactly when the slot after head is the tail, the receive interrupt's "buffer critical" test |
| Ring.Push | Marlin/MarlinSerial1.cpp:189-192 | storing at head and advancing head appends the byte to the ring's contents and increases the count by one |
| Ring.Pop | Marlin/MarlinSerial1.cpp:360-365 | the oldest byte is the one at tail, and advancing tail removes exactly that byte |
| Ring.WriteFree | Marlin/MarlinSerial1.cpp:464-466 | writing the slot at head before advancing it leaves the queued contents unchanged |
| Ring.MaskedMod | Marlin/MarlinSerial1.cpp:183 | reducing to a byte and masking with N-1 is reduction modulo N for the ring sizes |
| Bits.AndMask | Marlin/MarlinSerial1.cpp:183 | `x & (2^j - 1)` keeps the low j bits: it is x modulo 2^j |
| Bits.HighBit | Marlin/MarlinSerial1.cpp:268-270 | `x & 0x80` is the top bit of x and `x \| 0x80` sets it |
| Bits.LowBits | Marlin/MarlinSerial1.cpp:269 | `x & 0x7F` and `x & 0x1F` are x modulo 128 and 32 |
| Ring.MaskedNext | Marlin/MarlinSerial1.cpp:183 | `(uint8_t)(p + 1) & (N - 1)` is the next position of the ring |
| Ring.MaskedCount | Marlin/MarlinSerial1.cpp:390 | `(uint8_t)(N + head - tail) & (N - 1)` is the number of queued bytes |
| Ring.MaskedDiff | Marlin/MarlinSerial1.cpp:201 | the count without the `N +` bias, as the receive interrupt computes it, is the same number |
| Bits.IncSkipZeroValues | Marlin/MarlinSerial1.cpp:195 | `if (!++x) ++x;` never yields 0: it counts up to 255 and then wraps to 1 |
| Bits.SplitJoin | Marlin/LGT_SCR.cpp:479-485 | joining two bytes high first and splitting the word gives the two bytes back |
| Bits.JoinSplit | Marlin/LGT_SCR.cpp:1420-1436 | splitting a value high byte first and joining the halves gives its 16-bit pattern |
| Bits.Int16RoundTrip | Marlin/LGT_SCR.cpp:1420-1436 | an `int16_t` value survives the encoder's split and the decoder's join, read back as signed |
| NumberText.DigitsStep | Marlin/MarlinSerial1.cpp:613-616 | one turn of the digit loop stores `n % base` and continues with `n / base` |
| NumberText.LongTextCases | Marlin/MarlinSerial1.cpp:534-546 | `print(long, base)` writes the low byte for base 0, '-' and the magnitude for a negative number in base 10, and the bits read as `unsigned long` otherwise |
| NumberText.DigitCharValue | Marlin/MarlinSerial1.cpp:618 | the character printed for a digit below 36 reads back as that digit |
| NumberText.DigitsCorrect | Marlin/MarlinSerial1.cpp:613-616 | the collected digits are the base-b representation: each below b, no leading zero, value n |
| NumberText.DigitsFit | Marlin/MarlinSerial1.cpp:611 | a number below 2^k has at most k digits in any base of at least 2 |
| NumberText.DigitsFitLong | Marlin/MarlinSerial1.cpp:611 | an `unsigned long` never needs more than the 32 bytes of `buf`, even in base 2 |
| NumberText.NegativeMagnitude | Marlin/MarlinSerial1.cpp:538-541 | `n = -n` on a negative `long`, read as `unsigned long`, is its magnitude, including for `LONG_MIN` |
| NumberText.ParseRevText | Marlin/MarlinSerial1.cpp:617-618 | printing a digit sequence back to front and reading the text gives the sequence's value |
| NumberText.ParseSnoc | Marlin/MarlinSerial1.cpp:617-618 | reading one more digit character multiplies by the base and adds the digit |
| NumberText.NumberTextRoundTrip | Marlin/MarlinSerial1.cpp:609-622 | for bases up to 36 the printed text reads back as n, and a non-zero n never starts with '0' |
| NumberText.RevTextFirst | Marlin/MarlinSerial1.cpp:617-618 | the first character printed is the most significant digit |
| NumberText.DecimalRoundTrip | Marlin/MarlinSerial1.cpp:534-546 | `print(long, 10)` reads back as the number printed, including the most negative `long` |
| EmergencyParser.RunAppend | Marlin/MarlinSerial1.cpp:93-177 | scanning a + b is scanning a and then b from the state a left, with the effects concatenated |
| EmergencyParser.RunSnoc | Marlin/MarlinSerial1.cpp:93-177 | scanning one more byte is one more step of the state machine |
| EmergencyParser.RunIgnore | Marlin/MarlinSerial1.cpp:151-153 | in the ignore state nothing but a newline changes the state, and nothing fires |
| EmergencyParser.RunCompleted | Marlin/MarlinSerial1.cpp:155-156 | a recognised command stays recognised, firing nothing, until the newline |
| EmergencyParser.RunM10 | Marlin/MarlinSerial1.cpp:135-137 | from `M10` the rest of the line leads to `M108` or to the ignore state, as the command text says |
| EmergencyParser.RunM11 | Marlin/MarlinSerial1.cpp:139-141 | from `M11` the rest of the line leads to `M112` or to the ignore state |
| EmergencyParser.RunM41 | Marlin/MarlinSerial1.cpp:147-149 | from `M41` the rest of the line leads to `M410` or to the ignore state |
| EmergencyParser.RunM1 | Marlin/MarlinSerial1.cpp:127-133 | from `M1` the scanner follows the text towards `M108` or `M112` |
| EmergencyParser.RunM4 | Marlin/MarlinSerial1.cpp:143-145 | from `M4` the scanner follows the text towards `M410` |
| EmergencyParser.RunAfterM | Marlin/MarlinSerial1.cpp:118-125 | after `M` and any spaces, the scanner reaches the state the command number text describes |
| EmergencyParser.RunAfterN | Marlin/MarlinSerial1.cpp:107-116 | after `N`, digits, '-' and spaces are skipped, and an `M` starts the command |
| EmergencyParser.RunLine | Marlin/MarlinSerial1.cpp:97-153 | within a line, the state machine is in exactly the state the declarative line classification gives, and nothing fires |
| EmergencyParser.LineEffect | Marlin/MarlinSerial1.cpp:155-175 | a whole line and its newline fire exactly the effect of the command the line starts with; a blank line leaves the scanner ignoring |
| EmergencyParser.IgnoredLine | Marlin/MarlinSerial1.cpp:151-153 | an ignored line ends at its newline in the reset state and fires nothing |
| EmergencyParser.KillLine | Marlin/MarlinSerial1.cpp:161-166 | `N0 M112` on a line of its own fires the kill path exactly once |
| EmergencyParser.MidLineIgnored | Marlin/MarlinSerial1.cpp:98-104 | a command after other text on the line fires nothing |
| EmergencyParser.BlankLineSwallowsNext | Marlin/MarlinSerial1.cpp:98-104 | an empty line makes the scanner ignore the whole next line, command or not |
| MarlinSerial.SizesArePowersOfTwo | Marlin/MarlinSerial1.h:80-89 | the default receive and transmit sizes, 128 and 32, are powers of two |
| MarlinSerial.PositionsFit | Marlin/MarlinSerial1.h:93-97 | the position type chosen by the 256-byte rule holds every index of any power-of-two receive ring up to 2^16 |
| MarlinSerial.TxOver256Wraps | Marlin/MarlinSerial1.h:86 | with `uint8_t` transmit positions, a 512-byte ring would wrap from 255 to 0 |
| MarlinSerial.FlagFacts | Marlin/MarlinSerial1.cpp:68-74 | in each legal flag-byte state, `& 0x1F` gives the control character and `& 0x80` tells whether it was sent |
| MarlinSerial.DropCountStep | Marlin/MarlinSerial1.cpp:194-196 | one more drop moves the skip-zero drop counter to the count after k+1 drops |
| MarlinSerial.RxFlood | Marlin/MarlinSerial1.cpp:181-197 | bytes arriving with nobody reading: the ring keeps the first N-1 and drops the rest, and the counter equals the number dropped, skipping 0 on wrap |
| MarlinSerial.CString | Marlin/MarlinSerial1.h:138 | the bytes `write(const char*)` sends are those before the first NUL |
| MarlinSerial.MaskedNextValue | Marlin/MarlinSerial1.cpp:183 | the byte-sum masked by N-1 is the next ring position |
| MarlinSerial.MaskedCountValue | Marlin/MarlinSerial1.cpp:386-391 | `(N + head - tail) & (N - 1)` is the ring count |
| MarlinSerial.MaskedDiffValue | Marlin/MarlinSerial1.cpp:201 | `(head - tail) & (N - 1)` in the position type is the ring count |
| MarlinSerial.ControlChar | Marlin/MarlinSerial1.cpp:269 | `state & 0x1F` is XON for the XON state and XOFF for both XOFF states |
| MarlinSerial.IsSent | Marlin/MarlinSerial1.cpp:268 | the sent bit is set exactly in the two sent states |
| MarlinSerial.MarkSent | Marlin/MarlinSerial1.cpp:270 | `state \| 0x80` is the sent state of the same control character |
| MarlinSerial.CollectDigits | Marlin/MarlinSerial1.cpp:610-616 | the first loop of `printNumber` leaves the digits of n, least significant first, in a fresh 32-byte buffer, and returns their number |
| MarlinSerial.CollectStep | Marlin/MarlinSerial1.cpp:613-616 | one turn of the digit loop stores digit i of n, `m % base`, and leaves the digits after it in `m / base` |
| MarlinSerial.Serial1.constructor | Marlin/MarlinSerial1.cpp:61-82 | both rings are empty, the flag byte is XON sent, the counters are 0, and the scanner is in its reset state |
| MarlinSerial.Serial1.StoreRxdChar | Marlin/MarlinSerial1.cpp:181-257 | the received byte is appended when the ring has room and counted as dropped otherwise; the maximum fill is tracked, XOFF is decided, and the scanner takes one step |
| MarlinSerial.Serial1.StoreOrDrop | Marlin/MarlinSerial1.cpp:182-197 | with room, the byte is appended; without room, the buffer and head are untouched and the drop counter steps |
| MarlinSerial.Serial1.TrackMaxEnqueued | Marlin/MarlinSerial1.cpp:199-204 | the maximum fill becomes the larger of itself and the current count |
| MarlinSerial.Serial1.RxFlowControl | Marlin/MarlinSerial1.cpp:206-252 | at 1/8 full with XON in force, XOFF is written at once when the transmitter is idle and otherwise scheduled; nothing changes otherwise |
| MarlinSerial.Serial1.EmergencyParse | Marlin/MarlinSerial1.cpp:93-177 | the scanner takes one step on the byte and records the effect it fires |
| MarlinSerial.Serial1.Peek | Marlin/MarlinSerial1.cpp:350-355 | the oldest unread byte, or -1 when the ring is empty |
| MarlinSerial.Serial1.Available | Marlin/MarlinSerial1.cpp:386-391 | the number of stored but unread bytes |
| MarlinSerial.Serial1.AvailableForWrite | Marlin/MarlinSerial1.cpp:410-415 | the number of bytes still queued for transmission (the formula gives the occupied count, not the free space) |
| MarlinSerial.Serial1.TxUdrEmptyIrq | Marlin/MarlinSerial1.cpp:261-288 | an owed control character goes out first; otherwise the byte at tail goes out and tail advances; the interrupt is disabled when the ring is empty; with a control character owed or a byte queued, `Out()` is unchanged |
| MarlinSerial.Serial1.SendControl | Marlin/MarlinSerial1.cpp:267-271 | the owed character goes out, the flag byte records it as sent, and `Out()` is unchanged |
| MarlinSerial.Serial1.SendQueued | Marlin/MarlinSerial1.cpp:274-278 | the byte at tail goes out and tail advances, even on an empty ring; with a byte queued, `Out()` is unchanged |
| MarlinSerial.Serial1.WriteNoHandshake | Marlin/MarlinSerial1.cpp:429-471 | with an empty ring and an empty register the byte goes straight to the wire, whatever UDRIE is and ahead of an owed control character; otherwise it is queued after a free slot is awaited and UDRIE is set; when no control character is owed, `Out()` gains exactly the byte on either path |
| MarlinSerial.Serial1.Enqueue | Marlin/MarlinSerial1.cpp:446-469 | the byte is queued behind the ring's contents and the interrupt is enabled; a full ring first drains through the interrupt handler |
| MarlinSerial.Serial1.PushTx | Marlin/MarlinSerial1.cpp:464-469 | storing at head and advancing it appends the byte to the ring and to `Out()` |
| MarlinSerial.Serial1.AwaitRoom | Marlin/MarlinSerial1.cpp:450-462 | the busy wait ends with a free slot after head and does not change `Out()` |
| MarlinSerial.Serial1.Write | Marlin/MarlinSerial1.cpp:417-427 | an owed control character is written first and then c; the line carries what was committed, then c |
| MarlinSerial.Serial1.Read | Marlin/MarlinSerial1.cpp:357-384 | returns and removes the oldest byte, or -1; under XOFF, a read that leaves fewer than a tenth of the ring queued writes XON at once |
| MarlinSerial.Serial1.Flush | Marlin/MarlinSerial1.cpp:393-407 | every unread byte is discarded; under XOFF, XON replaces it and is written |
| MarlinSerial.Serial1.ResumeRx | Marlin/MarlinSerial1.cpp:402-405 | the flag byte becomes XON sent and XON follows what is already committed; on an idle transmitter XON goes straight to the wire and the ring and UDRIE are untouched |
| MarlinSerial.Serial1.StaleAfterFlush | Marlin/MarlinSerial1.cpp:393-407 | as written: a byte received at 1/8 fill with the register busy schedules XOFF, and a `flush()` on an idle register then writes XON directly while UDRIE stays set on an empty ring; the next interrupt sends the stale byte at tail and the ring reads as full |
| MarlinSerial.Serial1.GuardedWrite | Marlin/MarlinSerial1.cpp:429-471 | with the direct path taken only when UDRIE is clear, every write ends with `Quiet()`, and without an owed control character `Out()` gains exactly c |
| MarlinSerial.Serial1.GuardedResume | Marlin/MarlinSerial1.cpp:402-405 | with the guarded write, XON follows what is committed and `Quiet()` holds |
| MarlinSerial.Serial1.GuardedFlush | Marlin/MarlinSerial1.cpp:393-407 | with the guarded write, the unread bytes are discarded and `Quiet()` is preserved |
| MarlinSerial.Serial1.NoStaleAfterFlush | Marlin/MarlinSerial1.cpp:393-407 | with the guarded write, the same run as `StaleAfterFlush` ends with exactly XON added to what was on the wire |
| MarlinSerial.Serial1.WriteStr | Marlin/MarlinSerial1.h:138 | each byte before the NUL is written in order |
| MarlinSerial.Serial1.WriteBuffer | Marlin/MarlinSerial1.h:139 | exactly the first `size` bytes of the buffer are written in order |
| MarlinSerial.Serial1.PrintString | Marlin/MarlinSerial1.h:140 | each of the string's characters is written in order |
| MarlinSerial.Serial1.Println | Marlin/MarlinSerial1.cpp:557-560 | carriage return and then line feed are written |
| MarlinSerial.Serial1.PrintNumber | Marlin/MarlinSerial1.cpp:609-622 | the line gains the base-`base` text of n, most significant digit first, or "0" for zero |
| MarlinSerial.Serial1.WriteDigits | Marlin/MarlinSerial1.cpp:617-618 | the collected digits are written from the last down, each as its character, so the line gains `RevText` of them |
| MarlinSerial.Serial1.PrintULong | Marlin/MarlinSerial1.cpp:548-551 | base 0 writes the low byte and any other base prints the number |
| MarlinSerial.Serial1.PrintLong | Marlin/MarlinSerial1.cpp:534-546 | the text of `print(long, base)` is written: the raw byte, a signed decimal, or the bits as `unsigned long` |
| MarlinSerial.Serial1.PrintDecimal | Marlin/MarlinSerial1.cpp:537-543 | base 10 writes '-' and then the magnitude for a negative n, and the number alone otherwise, as `LongText(n, 10)` gives |
| MarlinSerial.Serial1.PrintNegative | Marlin/MarlinSerial1.cpp:538-542 | a negative n writes '-' and then the magnitude of n as an `unsigned long`, which is right even for `LONG_MIN` |
| DwinFrames.Word | Marlin/LGT_SCR.cpp:1427-1428 | a 16-bit quantity is two bytes, high first |
| DwinFrames.PageFrame | Marlin/LGT_SCR.cpp:262-277 | the page frame is 10 bytes |
| DwinFrames.ClearFrame | Marlin/LGT_SCR.cpp:350-363 | the clear frame is 8 bytes |
| DwinFrames.ValueFrame | Marlin/LGT_SCR.cpp:1420-1436 | the value frame is 8 bytes |
| DwinFrames.Text7Frame | Marlin/LGT_SCR.cpp:1459-1478 | the short text frame is 13 bytes |
| DwinFrames.Text31Frame | Marlin/LGT_SCR.cpp:1479-1498 | the text and file-name frames are 37 bytes |
| DwinFrames.ResetFrame | Marlin/LGT_SCR.cpp:1500-1518 | the reset frame is 10 bytes |
| DwinFrames.ButtonFrame | Marlin/LGT_SCR.cpp:1659-1681 | the button frame is 14 bytes |
| DwinFrames.RecoveryNameFrame | Marlin/LGT_SCR.cpp:1682-1704 | the recovery-name frame is 14 bytes |
| DwinFrames.WordSplit | Marlin/LGT_SCR.cpp:1427-1428 | the two bytes of a word join back to the value cut to 16 bits |
| DwinFrames.PageFrameShape | Marlin/LGT_SCR.cpp:262-277 | a page frame is a well-formed write of the page id to the page register |
| DwinFrames.ClearFrameShape | Marlin/LGT_SCR.cpp:350-363 | a clear frame writes 0xFFFF to the address |
| DwinFrames.ValueFrameShape | Marlin/LGT_SCR.cpp:1420-1436 | a value frame carries the address and the value, each cut to 16 bits |
| DwinFrames.Text7FrameShape | Marlin/LGT_SCR.cpp:1459-1478 | a short text frame carries the first 7 bytes of the buffer |
| DwinFrames.Text31FrameShape | Marlin/LGT_SCR.cpp:1479-1498 | a text frame carries the first 31 bytes of the buffer |
| DwinFrames.ResetFrameShape | Marlin/LGT_SCR.cpp:1500-1518 | the reset frame is a well-formed write of the reset magic |
| DwinFrames.ButtonFrameShape | Marlin/LGT_SCR.cpp:1659-1681 | a button frame carries the page, the button and the new state, each cut to 16 bits |
| DwinFrames.RecoveryNameFrameShape | Marlin/LGT_SCR.cpp:1682-1704 | the frame carries `sys_cmd`, the address and the length, and never the `cmd` argument |
| DwinFrames.Synced | Marlin/LGT_SCR.cpp:462-468 | the input from the first `DW_FH_0` on: a suffix that starts with `DW_FH_0`, with no `DW_FH_0` before it |
| DwinFrames.Stored | Marlin/LGT_SCR.cpp:462-471 | the read loop stores at most `DATA_SIZE` bytes, starting with `DW_FH_0` |
| DwinFrames.Consumed | Marlin/LGT_SCR.cpp:462-471 | the read loop never takes more bytes than the receiver holds |
| DwinFrames.Words | Marlin/LGT_SCR.cpp:482-486 | word j joins the bytes at 7+2j and 8+2j, for each even offset below the length byte |
| DwinFrames.Decode | Marlin/LGT_SCR.cpp:472-486 | a command is decoded exactly when at least two bytes were stored, both header bytes match and the opcode is `CMD_VAR_R`; its address and words come from the fixed offsets |
| DwinFrames.ReadReply | Marlin/LGT_SCR.cpp:474-486 | the display's one-word reply to a variable read is 9 bytes |
| DwinFrames.WordJoin | Marlin/LGT_SCR.cpp:479-480 | the decoder joins what the encoders split: a 16-bit value comes back unchanged |
| DwinFrames.ReplyRoundTrip | Marlin/LGT_SCR.cpp:474-486 | a one-word reply decodes to its address and value |
| DwinFrames.ReplyInStream | Marlin/LGT_SCR.cpp:459-486 | a reply after noise without `DW_FH_0`, followed by anything, decodes to the same command when the buffer has room |
| DwinFrames.StoredPrefix | Marlin/LGT_SCR.cpp:462-471 | after noise without `DW_FH_0`, the first n bytes of a frame are stored when the buffer has room for them |
| DwinFrames.ReplyPrefix | Marlin/LGT_SCR.cpp:474-486 | stored bytes that begin with a one-word reply decode to it, whatever follows |
| DwinFrames.SyncedSkips | Marlin/LGT_SCR.cpp:464-468 | noise without `DW_FH_0` before a frame is skipped exactly |
| DwinFrames.LengthIgnored | Marlin/LGT_SCR.cpp:474-477 | the byte at offset 2 is never checked: changing it never changes the decision or the command |
| DwinFrames.PaddedDecode | Marlin/LGT_SCR.cpp:476-486 | the cleared buffer's zeros past `re_count` change nothing the decoder sees: decoding the stored bytes is deciding on the whole buffer |
| DwinFrames.PassExhausts | Marlin/LGT_SCR.cpp:462-471 | the read loop stops only with `DATA_SIZE` bytes stored or every byte of the receiver read, so a second read entered before `re_count` is reset reads nothing |
| DwinFrames.ConsumedSplit | Marlin/LGT_SCR.cpp:462-471 | the loop reads the discarded prefix and then the stored bytes, in order, from the front of the input |
| LgtConfig.CaseIndex | Marlin/LGT_SCR.cpp:567-568 | each inbound address variable has its position in the switch's case order |
| LgtConfig.Classify | Marlin/LGT_SCR.cpp:567-568 | an address selects only a case whose label it is |
| LgtConfig.ClassifyIff | Marlin/LGT_SCR.cpp:567-568 | with distinct labels, an address selects a case if and only if it is that case's label |
| LgtSession.Received | Marlin/LGT_SCR.cpp:461-471 | `data_storage` after the loop: the stored bytes, then zeros; with nothing stored, slot 0 keeps the last byte read |
| LgtSession.PassedStart | Marlin/LGT_SCR.cpp:461-462 | the read loop starts with nothing read and the buffer cleared |
| LgtSession.PassedStep | Marlin/LGT_SCR.cpp:464-470 | the loop's step: byte n goes to slot r, and r advances once slot 0 holds `DW_FH_0` |
| LgtSession.StoringStep | Marlin/LGT_SCR.cpp:464-470 | once storing has begun, every byte read is stored and slot 0 keeps `DW_FH_0` |
| LgtSession.SeekingStep | Marlin/LGT_SCR.cpp:464-468 | before storing begins, a byte goes to slot 0, and storing begins exactly when that byte is `DW_FH_0` |
| LgtSession.PassedExit | Marlin/LGT_SCR.cpp:462 | when the loop stops, the buffer is `Received`, the count is the stored length and the consumed count is `Consumed` |
| LgtSession.ReceivedAgrees | Marlin/LGT_SCR.cpp:474-486 | once a frame was stored, every offset of the buffer reads as the stored bytes do, past the end included |
| LgtSession.Visited | Marlin/LGT_SCR.cpp:368-369 | with a 16-bit `int` loop index, a count above 32768 visits nothing; otherwise every entry is visited |
| LgtSession.Listing | Marlin/LGT_SCR.cpp:364-385 | the listing holds at most `FILE_LIST_NUM` indices |
| LgtSession.ListFrames | Marlin/LGT_SCR.cpp:376-377 | one 37-byte name frame per listed entry |
| LgtSession.ListFramesSnoc | Marlin/LGT_SCR.cpp:375-378 | listing one more entry appends its name frame at the next row address |
| LgtSession.ListIdles | Marlin/LGT_SCR.cpp:379-380 | the listing calls `idle()` at most twice |
| LgtSession.ListIdlesSnoc | Marlin/LGT_SCR.cpp:379-380 | the n+1-th entry adds an `idle()` call exactly when it is the 10th or the 20th |
| LgtSession.TimeText | Marlin/LGT_SCR.cpp:64-69 | "%lu h %lu m" never needs more than 15 bytes, so it and its NUL fit in the 31-byte buffer |
| LgtSession.TimeBuffer | Marlin/LGT_SCR.cpp:592 | the buffer after `sprintf`: the text, its NUL, and the old bytes after them |
| LgtSession.DecimalDigitsFit | Marlin/LGT_SCR.cpp:64-69 | a number below 10^d has at most d decimal digits |
| LgtSession.DecimalTextFits | Marlin/LGT_SCR.cpp:64-69 | its decimal text has at most d characters |
| LgtSession.TimeTextParts | Marlin/LGT_SCR.cpp:64-69 | the text reads back as the hours and the minutes below 60 that make up the total |
| LgtSession.StatusLed | Marlin/LGT_SCR.cpp:234-260 | each status has its LED colour and pattern: blinking only in setup and standby, red for heat and pause; a value outside the enumeration has none |
| LgtSession.RunningFans | Marlin/LGT_SCR.cpp:1633-1639 | the fans below n with a non-zero saved speed |
| LgtSession.FanCommands | Marlin/LGT_SCR.cpp:1633-1639 | one `M106` per running fan |
| LgtSession.FanCommandsSnoc | Marlin/LGT_SCR.cpp:1634-1638 | fan n adds its `M106 P<n> S<f>` exactly when its saved speed is non-zero |
| LgtSession.RunningFansExact | Marlin/LGT_SCR.cpp:1633-1639 | the fan commands name exactly the running fans, each once, in fan order |
| LgtSession.RunningFansNonZero | Marlin/LGT_SCR.cpp:1635-1636 | every fan listed has a non-zero speed |
| LgtSession.RunningFansIncreasing | Marlin/LGT_SCR.cpp:1634 | the fans are listed in increasing index order |
| LgtSession.RunningFansComplete | Marlin/LGT_SCR.cpp:1634-1638 | every fan with a non-zero saved speed is listed |
| LgtSession.ReheatTargets | Marlin/LGT_SCR.cpp:1628-1632 | the first two commands read back as the saved bed target and the saved first hotend target |
| LgtSession.CornerMoves | Marlin/LGT_SCR.cpp:1181-1295 | a corner is one move on U20_Pro, and on U30_Pro a lift to Z10, the move and a descent to Z0 |
| LgtSession.ScanExact | Marlin/LGT_SCR.cpp:369-374 | the scan finds exactly the non-directory entries, each once, in strictly decreasing order |
| LgtSession.ListingExact | Marlin/LGT_SCR.cpp:364-385 | the listing shows only files, highest index first, at most `FILE_LIST_NUM`; with fewer and at most 32768 entries, it shows every file |
| Recovery.Zero | Marlin/power_loss_recovery.cpp:129 | the zeroed record is well-formed and fails the sentinel test |
| Recovery.FixSlash | Marlin/power_loss_recovery.cpp:174 | a leading '/' becomes a space and no other byte changes |
| Recovery.Preamble | Marlin/power_loss_recovery.cpp:160-166 | the fixed commands before the queue tail: three more on U20_Pro |
| Recovery.ResumeList | Marlin/power_loss_recovery.cpp:150-178 | the preamble, then the saved queue tail, then `M23` with the file name and `M24` with the position |
| Recovery.Captured | Marlin/power_loss_recovery.cpp:208-239 | after a save both sentinels are the bumped head; Z carries the recovery offset, the queue and its indices are copied, and the elapsed time is a 32-bit sum |
| Recovery.CopyQueueTail | Marlin/power_loss_recovery.cpp:168-172 | the `while (c--)` loop appends the queue tail from the read index to the table |
| Recovery.Put | Marlin/power_loss_recovery.cpp:161 | `sprintf(job_recovery_commands[ind++], ...)` appends one command after those the table holds |
| Recovery.HoldsSnoc | Marlin/power_loss_recovery.cpp:170 | writing the next slot extends what the table holds by that command |
| Recovery.CopyStep | Marlin/power_loss_recovery.cpp:169-171 | one turn of the copy loop extends the table by the entry at the read index, and the index stays `(r0 + k) % BUFSIZE` |
| Recovery.QueueTailSnoc | Marlin/power_loss_recovery.cpp:168-172 | the tail with one more entry ends with the entry at `(r + c) % BUFSIZE` |
| Recovery.NextIndex | Marlin/power_loss_recovery.cpp:171 | `(r + 1) % BUFSIZE` keeps the index at `(r0 + k) % BUFSIZE` |
| Recovery.QueueTailRotation | Marlin/power_loss_recovery.cpp:168-172 | the replayed tail is the saved queue rotated to its read index and cut to the saved count: the waiting commands, oldest first |
| Recovery.ResumePosition | Marlin/power_loss_recovery.cpp:174-176 | the list ends by reopening the fixed file name and resuming at the saved position, which reads back from its text |
| Recovery.SaveThenCheck | Marlin/power_loss_recovery.cpp:209-210 | a record written by a save passes the sentinel test of a later check |
| Recovery.Journal.constructor | Marlin/power_loss_recovery.cpp:129-130 | the record is zero, the table empty and the phase idle, with the card's copy given |
| Recovery.Journal.CheckPrintJobRecovery | Marlin/power_loss_recovery.cpp:128-190 | an accepted record sets `check_recovery`, restores the feed rate and fills the table with the resume list; any other outcome leaves the table empty and the record zero, and disagreeing sentinels raise "INVALID DATA" |
| Recovery.Journal.FillResumeList | Marlin/power_loss_recovery.cpp:150-178 | the table holds exactly the resume list, the count is its length, and the file name is fixed |
| Recovery.Journal.WritePreamble | Marlin/power_loss_recovery.cpp:160-166 | the table holds the preamble and the index is past it |
| Recovery.Journal.WriteStart | Marlin/power_loss_recovery.cpp:174-176 | a leading '/' of the file name becomes a space; the table gains `M23` with that name and `M24` with the saved position, and nothing before them changes |
| Recovery.Journal.SaveJobRecoveryInfo | Marlin/power_loss_recovery.cpp:195-254 | when Z is above 0 and moved by at least 0.1 mm, the record becomes the captured one and is stored; otherwise nothing changes |
| LgtScreen.ExitedJob | Marlin/LGT_SCR.cpp:541-544 | the recovered time, progress and offsets are cleared and nothing else changes |
| LgtScreen.ExitedMachine | Marlin/LGT_SCR.cpp:537-550 | feed rate and flow are 100 percent, E is 0, and the other axes and the fan keep their values |
| LgtScreen.ReheatCommands | Marlin/LGT_SCR.cpp:1626-1645 | the commands built step by step are the reheat list: bed and hotend reheated, one `M106` per running fan, and the hotend selected on a multi-hotend build |
| LgtScreen.FanLoop | Marlin/LGT_SCR.cpp:1634-1640 | one `M106` per fan with a non-zero saved speed, in fan order, as `FanCommands` lists them |
| LgtScreen.Screen.constructor | Marlin/LGT_SCR.cpp:70-80 | the buffers are zeroed; nothing is listed, selected or sent; the globals take their initial values |
| LgtScreen.Screen.Send | Marlin/LGT_SCR.cpp:1481-1497 | the buffer holds the frame followed by zeros, and the frame's bytes are printed in order |
| LgtScreen.Screen.ChangePage | Marlin/LGT_SCR.cpp:262-277 | the page frame is sent |
| LgtScreen.Screen.CleanData | Marlin/LGT_SCR.cpp:350-363 | the clear frame is sent |
| LgtScreen.Screen.SendValue | Marlin/LGT_SCR.cpp:1420-1436 | the value frame is sent |
| LgtScreen.Screen.SendText7 | Marlin/LGT_SCR.cpp:1459-1478 | the short text frame is sent |
| LgtScreen.Screen.SendText31 | Marlin/LGT_SCR.cpp:1479-1498 | the text frame is sent |
| LgtScreen.Screen.SendFilename | Marlin/LGT_SCR.cpp:389-408 | the text frame of the entry's long name is sent |
| LgtScreen.Screen.SystemReset | Marlin/LGT_SCR.cpp:1500-1518 | the reset frame is sent |
| LgtScreen.Screen.SetButton | Marlin/LGT_SCR.cpp:1659-1681 | the button frame is sent |
| LgtScreen.Screen.SaveRecoveryFilename | Marlin/LGT_SCR.cpp:1682-1704 | the recovery-name frame is sent, whatever `cmd` is |
| LgtScreen.Screen.ReadPass | Marlin/LGT_SCR.cpp:461-471 | `re_count` is the stored length, the receiver lost exactly the consumed bytes, and the buffer is `Received` |
| LgtScreen.Screen.ReadLoop | Marlin/LGT_SCR.cpp:462-471 | the loop stops with the buffer full or the receiver empty, with its state as `Passed` describes |
| LgtScreen.Screen.ReadByte | Marlin/LGT_SCR.cpp:464-470 | one turn of the loop moves the state from k to k+1 bytes and takes one byte from the receiver |
| LgtScreen.Screen.StorageAt | Marlin/LGT_SCR.cpp:484-485 | a buffer byte, with positions past the end reading 0 |
| LgtScreen.Screen.ReadCommand | Marlin/LGT_SCR.cpp:476-486 | the command holds the joined address and the words of the buffer |
| LgtScreen.Screen.GetMyserial1Cmd | Marlin/LGT_SCR.cpp:459-505 | exactly the decoded command, if any, is dispatched; the read stops only with the buffer full or the receiver empty; `re_count` ends at 0; an undecodable reply changes nothing else; the buffer is cleared unless nothing was stored |
| LgtScreen.Screen.AfterPass | Marlin/LGT_SCR.cpp:472-504 | returns at once when nothing was stored; otherwise decides on the stored bytes and clears |
| LgtScreen.Screen.Dispatch | Marlin/LGT_SCR.cpp:474-504 | the command decoded from the stored bytes reaches the switch; anything else is dropped; `re_count` and the buffer are cleared |
| LgtScreen.Screen.Decide | Marlin/LGT_SCR.cpp:474-502 | the stored bytes, read with zeros past `re_count`, decode to at most one command, and exactly that one is analysed |
| LgtScreen.Screen.Clear | Marlin/LGT_SCR.cpp:461 | the buffer is all zeros |
| LgtScreen.Screen.Analysis | Marlin/LGT_SCR.cpp:564-1418 | an address without a case, or an unknown button, changes nothing; every value case has the whole effect `ValueDone` states for it, on all fields, and leaves the journal alone |
| LgtScreen.Screen.ValueCase | Marlin/LGT_SCR.cpp:569-594 | each value case has the effect `ValueDone` states: the file selection, the hotend and bed targets as `int16_t` set-target events, the filament length and temperature, the work-time display, fan, flow, feed and menu; every other field is unchanged |
| LgtScreen.Screen.HandlerCase | Marlin/LGT_SCR.cpp:569-594 | the four value cases that call a handler have the effect `ValueDone` states |
| LgtScreen.Screen.SelectCase | Marlin/LGT_SCR.cpp:569-577 | the file-select and menu cases have the effect `ValueDone` states |
| LgtScreen.Screen.ShowCase | Marlin/LGT_SCR.cpp:590-594 | the work-time and feed cases have the effect `ValueDone` states |
| LgtScreen.Screen.StoreCase | Marlin/LGT_SCR.cpp:578-589 | the target, filament-length and filament-temperature cases (and the fan and flow cases further down the switch) store the word or raise a target event, as `ValueDone` states, whatever the readings |
| LgtScreen.Screen.SelectFile | Marlin/LGT_SCR.cpp:569-577 | the selection changes if and only if the value is a listed row other than the current one; then the events gain `Dehighlight` and then `Highlight`, and the output gains the name frame of the chosen file |
| LgtScreen.Screen.ShowWorkTime | Marlin/LGT_SCR.cpp:590-594 | the EEPROM total is stored, written into the buffer as hours and minutes, and sent |
| LgtScreen.Screen.FeedChange | Marlin/LGT_SCR.cpp:1397-1403 | the percentage is stored, and the scaled feed rate, cut to 16 bits and capped at 3000, is shown |
| LgtScreen.Screen.MenuChange | Marlin/LGT_SCR.cpp:1407-1415 | the menu takes the value; the filament memory clears for the filament menus and the move distance for the move menu |
| LgtScreen.Screen.Press | Marlin/LGT_SCR.cpp:595-1392 | the button switch keeps the session valid and the journal ready |
| LgtScreen.Screen.PressMotion | Marlin/LGT_SCR.cpp:598-946 | the jog, homing, motor and corner buttons keep the session valid |
| LgtScreen.Screen.PressFilament | Marlin/LGT_SCR.cpp:1031-1137 | the filament buttons keep the session valid |
| LgtScreen.Screen.PressLevel | Marlin/LGT_SCR.cpp:1310-1362 | the levelling buttons keep the session valid |
| LgtScreen.Screen.PressPrint | Marlin/LGT_SCR.cpp:961-1030 | the file, print, recovery and light buttons keep the session valid and the journal ready |
| LgtScreen.Screen.MotionKey | Marlin/LGT_SCR.cpp:932-1000 | XY home enqueues `G28 X0 Y0` and marks XY homed; disable clears the queue and stops; enable enables the steppers; P0-P2 choose the jog distance |
| LgtScreen.Screen.MeasuKey | Marlin/LGT_SCR.cpp:1324-1354 | each levelling step key sets the distance or step, shows its page, or stops the motion, and changes nothing else |
| LgtScreen.Screen.JogPlus | Marlin/LGT_SCR.cpp:740-755 | below the maximum, the axis moves by the step and stops at the maximum, and the level display follows Z on U20_Pro; at the maximum nothing moves |
| LgtScreen.Screen.JogMinus | Marlin/LGT_SCR.cpp:606-620 | the axis always moves down by the step, and stops at the minimum once the axes are homed |
| LgtScreen.Screen.JogZMinus | Marlin/LGT_SCR.cpp:756-776 | U30_Pro stops at the minimum once Z is homed; U20_Pro never clamps and moves the level display down |
| LgtScreen.Screen.JogE | Marlin/LGT_SCR.cpp:853-865 | the extruder moves only at or above the extrude temperature of `LGT_Get_Extrude_Temp` (LGT_SCR.cpp:552-560), the recorded filament's preset temperature less 5; otherwise the step is remembered and the no-temperature dialog shows that temperature |
| LgtScreen.Screen.HomeZ | Marlin/LGT_SCR.cpp:937-946 | U20_Pro homes every axis and marks XY homed; U30_Pro homes Z and marks Z homed |
| LgtScreen.Screen.MoveNoTempReturn | Marlin/LGT_SCR.cpp:947-952 | the move page of the remembered distance opens |
| LgtScreen.Screen.FilaNoTempReturn | Marlin/LGT_SCR.cpp:953-960 | the filament page of the remembered preset opens, in the utility or the home menu |
| LgtScreen.Screen.FileOpen | Marlin/LGT_SCR.cpp:961-972 | with a selection, the start dialog of its five-row page opens; without one, nothing is sent |
| LgtScreen.Screen.FileOpenYes | Marlin/LGT_SCR.cpp:973-992 | with a selection, the file is printed, the timer starts, the name is shown and saved, and the print home opens; without one, nothing changes |
| LgtScreen.Screen.Pause | Marlin/LGT_SCR.cpp:1002-1008 | the wait page opens, the status becomes pause, the print and timer pause, and `M2001` is queued |
| LgtScreen.Screen.Resume | Marlin/LGT_SCR.cpp:1009-1017 | the print home opens, the head returns, the print and timer restart, and the status becomes printing |
| LgtScreen.Screen.TotalWorkTime | Marlin/LGT_SCR.cpp:58-63 | the job's minutes, from the timer plus the recovered seconds as a 32-bit sum, are added to the total, which is saved |
| LgtScreen.Screen.ExitPrintPage | Marlin/LGT_SCR.cpp:535-551 | feed rate and flow reset, the home texts are cleared, the recovery offsets are cleared, the home menu is in standby, and E is 0 |
| LgtScreen.Screen.Abort | Marlin/LGT_SCR.cpp:1018-1024 | the wait page opens, printing is flagged to stop, the minutes are credited with the recovered time still counted, and the print page is left |
| LgtScreen.Screen.Finish | Marlin/LGT_SCR.cpp:1025-1030 | the home page opens, the print page is left, and printing is over |
| LgtScreen.Screen.FilaPreset | Marlin/LGT_SCR.cpp:1031-1052 | the preset's hotend and bed targets are set and shown, and the choice is remembered, so the extrude temperature becomes that preset's hotend target less 5 |
| LgtScreen.Screen.FilaLoadUnload | Marlin/LGT_SCR.cpp:1053-1087 | hot enough, the load or unload runs at once; otherwise a wait page opens and it runs after `M109` |
| LgtScreen.Screen.FilaHeatNo | Marlin/LGT_SCR.cpp:1088-1101 | the wait is cancelled; from the utility menu the heaters go off, and from the print menu E returns |
| LgtScreen.Screen.FilaOk | Marlin/LGT_SCR.cpp:1102-1127 | the move stops and the dialog's menu opens again |
| LgtScreen.Screen.FilaChangeYes | Marlin/LGT_SCR.cpp:1128-1137 | the print pauses for a filament change, with `M2006` queued |
| LgtScreen.Screen.PowerLossRecoveryResume | Marlin/LGT_SCR.cpp:1626-1651 | the reheat list is queued, the journal starts draining, and the recovered time, progress and Z offset take the saved values |
| LgtScreen.Screen.RecoveryYes | Marlin/LGT_SCR.cpp:1138-1153 | the saved name is shown, the reheat list is queued, printing restarts, and the print home opens |
| LgtScreen.Screen.RecoveryShow | Marlin/LGT_SCR.cpp:1139-1147 | the icon is hidden, printing is marked started (on the U20 Pro the status too), and the saved name is shown |
| LgtScreen.Screen.RecoveryNo | Marlin/LGT_SCR.cpp:1154-1169 | the interrupted job's minutes are credited, the recovery file is removed, the offsets are cleared, and the home page opens |
| LgtScreen.Screen.FileClean | Marlin/LGT_SCR.cpp:1170-1180 | any selection is dropped and its texts are blanked; the file menu is current |
| LgtScreen.Screen.Corner | Marlin/LGT_SCR.cpp:1181-1203 | the first corner move homes with the heaters off, then the nozzle goes to the corner |
| LgtScreen.Screen.CornerBack | Marlin/LGT_SCR.cpp:1296-1309 | a homed nozzle lifts 10 mm and the homed flag clears |
| LgtScreen.Screen.MeasuStart | Marlin/LGT_SCR.cpp:1310-1323 | step 1 of the measured levelling from a zeroed offset: heaters off, XY homed, the probe point approached |
| LgtScreen.Screen.MeasuStopMove | Marlin/LGT_SCR.cpp:1355-1362 | the offset is zeroed and shown, and the motion is stopped |
| LgtScreen.Screen.SwitchLeds | Marlin/LGT_SCR.cpp:1374-1387 | the LEDs toggle; the switch shows 1 and the LED is turned off when they go off |
| LgtScreen.Screen.StopPrinting | Marlin/LGT_SCR.cpp:506-534 | the job stops, the heaters and fans go off, the card record gets both sentinels 0 so that a later check rejects it, and the head lifts and homes X |
| LgtScreen.Screen.PrinterStatusLight | Marlin/LGT_SCR.cpp:234-260 | the LED shows the status's pattern; a status outside the enumeration becomes standby with no LED change |
| LgtScreen.Screen.PrinterLightUpdate | Marlin/LGT_SCR.cpp:1610-1624 | when not printing, the status is heat while below target and standby otherwise; while printing it is kept; then the LED shows it |
| LgtScreen.Screen.ListEntry | Marlin/LGT_SCR.cpp:375-380 | the index is appended, its name frame is sent, and `idle()` runs after the 10th and 20th entries |
| LgtScreen.Screen.ScanOne | Marlin/LGT_SCR.cpp:372-383 | entry i is listed exactly when it is not a directory, and the loop invariant moves to i-1 |
| LgtScreen.Screen.ListStep | Marlin/LGT_SCR.cpp:375-381 | a file's index and frame are appended and the row address advances |
| LgtScreen.Screen.DisplayFilename | Marlin/LGT_SCR.cpp:364-385 | the listed indices are `Listing`: the files from the last entry down, at most `FILE_LIST_NUM`; their frames are sent at consecutive rows and the `idle()` calls are made |
| LgtScreen.ListedStep | Marlin/LGT_SCR.cpp:375-381 | listing file i appends its index, its frame at the next row and any `idle()` call, and the invariant moves to i-1 |
| LgtScreen.ScanSnoc | Marlin/LGT_SCR.cpp:373-376 | a file found at i moves from the entries still to scan to the end of the listed ids |
| LgtScreen.ListedSkip | Marlin/LGT_SCR.cpp:372-374 | passing over a directory keeps the invariant with i-1 |
| LgtScreen.ListedDone | Marlin/LGT_SCR.cpp:369-382 | when the loop stops at the bottom or with `FILE_LIST_NUM` files, the listed indices are `Listing` |

## Left out

- Hardware registers are modelled as a `wire` sequence and boolean flags. The UART registers, baud setup (`begin`, `end`, `checkRx`) and the TXC bit are not modelled.
- The data-register-empty flag is a method parameter. The transmit spin-wait is modelled as interrupt steps until a slot frees.
- Interrupt interleaving is not modelled. Critical sections are taken as atomic and each interrupt runs to completion between steps.
- Floating point is not modelled. This leaves out `printFloat`, `print(double)`, `dtostrf` of the saved Z and E, the float overload of `LGT_Send_Data_To_Screen` and `MMS_SCALED`. The scaled feed rate and positions in tenths of a millimetre come in as integers.
- `MarlinSerial.Serial1.PrintLong` requires a base of 0 or at least 2 that fits a `uint8_t`. Base 1 makes `printNumber` loop forever, and a base cut to 0 divides by zero.
- `MarlinSerial.Serial1.PrintULong` has the same base restriction.
- The `println(...)` overloads other than `println()` are not modelled. Each is a print followed by `println()`.
- `print(char)`, `print(int)` and their unsigned forms are not modelled. They only widen to `long` or `unsigned long`.
- The transport with `TX_BUFFER_SIZE1 == 0` is not modelled (MarlinSerial1.cpp:473-516). The build uses 32.
- `flushTX` is not modelled.
- `LgtScreen.Screen.Press` states only that the session stays valid and the journal ready. The per-button effects are stated by the handler methods it calls, such as `JogPlus`, `FileOpenYes` and `RecoveryYes`.
- `LgtScreen.Screen.PressMotion`, `PressFilament`, `PressLevel` and `PressPrint` are limited the same way.
- `LGT_Printer_Data_Updata` is not modelled. It is a further switch that refreshes display values from the thermal and motion state; it is recorded only as a `DataUpdate` event. In the tune menu it also calls `LGT_Get_MYSERIAL1_Cmd` again (LGT_SCR.cpp:1553-1556) while the outer `re_count` is still set. That nested read reads nothing, because the outer read stopped with the buffer full or the receiver empty (`DwinFrames.PassExhausts`), and the buffer and `re_count` it clears are cleared again at LGT_SCR.cpp:488-490.
- `GetMyserial1Cmd` takes the receiver as fixed while a command is handled. Bytes that arrive during a dispatch are not modelled; in the tune menu the firmware's nested read would read and discard them.
- `LGT_Print_Cause_Of_Kill`, `LGT_SDCard_Status_Update`, `LGT_Main_Function`, `DWIN_MAIN_FUNCTIONS` and `LGT_DW_Setup` are not modelled. They are timing and card-detection loops around the modelled handlers.
- `LGT_Change_Filament` is not modelled. It drives the planner with float feed rates.
- `LED_Bright_State` is not modelled. It is the PWM blink counter, and the LED request is recorded as an event.
- `debug_print_job_recovery` is not modelled. It is serial debugging output behind a debug switch.
- The thermal read-back of `setTargetHotend` and `setTargetBed` is not modelled.
- `LgtScreen.Screen.ReadCommand`: bytes at offsets past `DATA_SIZE` read as 0. The C code reads past the array there, which is undefined.
- `ExitPrintPage` and `Abort` only signal the `destination[E]` and planner update through the `SetEPosition` event.
- `LgtScreen.Screen.DisplayFilename` requires no current selection. The firmware calls it only after the selection is reset, because a stale selection above the new count would index past the listing.
- `LgtConfig.ClassifyIff` requires the case labels to be distinct. The C compiler enforces this; `Config.Distinct` states it.
- `Recovery.Journal.SaveJobRecoveryInfo` does not model the `SAVE_INFO_INTERVAL_MS` timer. As written, the timer only stores the next deadline; only the Z test gates the save.
- The card's answers come in as parameters: whether a card and a recovery file exist, the percentage done, the absolute file name and the file position. The power-loss pin's kill is not modelled.
- `Recovery.Journal.constructor` requires the card's copy of the record to be `WellFormed`: read index below `BUFSIZE`, count at most `BUFSIZE`, one target per hotend, one speed per fan and NUL-free strings. `check_print_job_recovery` checks none of this (power_loss_recovery.cpp:168-175); a record the firmware did not write could index past the queue.
- `Recovery.Decimal` takes `%i` and `%ld` as decimal text through `print(long, 10)`'s text. `sprintf`'s buffer sizes are not checked.
- The firmware's state is grouped into records `Ui`, `Job`, `Level` and `Machine`. Variables owned by other modules, such as the position, feed rate, flow, fans and `wait_for_heatup`, are fields of `Machine` and start at their defaults.
- Strings and file names are byte sequences. `Ascii` takes each character's low byte.
- `DEHILIGHT_FILE_NAME()` and `HILIGHT_FILE_NAME()` come from a header that is not part of this model. They are opaque `Dehighlight` and `Highlight` events. Events and output bytes are separate logs, so the model does not say where these fall relative to the bytes of the name frame in `out`.

## Findings

| source | as written | input that shows it | evidently intended | confidence | as-written member | corrected member |
|---|---|---|---|---|---|---|
| Marlin/MarlinSerial1.cpp:441-447 | `writeNoHandshake` writes straight to the data register when the ring is empty and the register is free, without looking at UDRIE, so UDRIE can stay set on an empty ring | XON in force, the register busy, the receive ring one byte short of 1/8 full: a received byte schedules XOFF and sets UDRIE; then `flush()` with the register free writes XON directly; the next transmit interrupt finds no control character owed and sends the stale byte at tail, leaving the ring reading as full. With interrupts enabled the transmit interrupt would send the owed XOFF and clear UDRIE first (MarlinSerial1.cpp:261-287), so on hardware the sequence needs `flush()` to run with interrupts held off, or the data register to free inside `flush()` between the XOFF test at 402 and the register test at 439 | take the direct path only when UDRIE is clear, so that UDRIE is set only while a byte is queued or a control character is owed (`Quiet()`); `GuardedFlush` and `NoStaleAfterFlush` build on it | not executed | `MarlinSerial.Serial1.StaleAfterFlush` | `MarlinSerial.Serial1.GuardedWrite` |

The printing methods (`Write`, `WriteStr`, `PrintNumber` and the rest) keep the firmware's own `writeNoHandshake`, so that they describe the transport as it behaves. The guarded methods show that the one-condition correction keeps `Quiet()`, and with it the reading of `Out()` as the line's eventual output. The model takes each method as one atomic step, so the correction is shown only for those steps; a transmit interrupt that fires inside `flush()` before the emptiness test at line 432 is outside the model.

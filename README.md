# LED controller over a serial line: a verified model

This project models the STM32 firmware, which drives three LEDs from text commands received on UART3. It also models the two host-side helpers that vet the commands a Linux terminal sends to the board.

- **Line assembly** (module `LineAssembler`): characters arrive one at a time from the receive interrupt.
  - Each character is upper-cased.
  - LF is ignored. CR ends the line. BS or DEL erases the last character.
  - Printable characters are stored while there is room in the 64-character buffer.
  - The assembled line is the buffer read as a C string.
- **Command grammar** (module `Grammar`): the branch chain of `Command_Parser_ProcessCommands` and its `Parse_*` helpers.
  - A line names a command, is rejected with a specific error, or is recognised by no branch.
  - It is proved sound and complete against the set of spellings of each command.
- **Dispatching** (module `Dispatcher`): running a command against the LED bank and the pattern engine.
  - Each command emits its `[OK]` or `[ERR]` reply.
  - The generic error is added when a command was not processed.
  - The buffer is reset and the `STM32> ` prompt follows every non-empty line.
  - The UART output is modelled as the sequence of strings sent.
- **LED bank** (module `LedBank`): LED numbers 1..3 and their pin masks.
  - The interlocked `LED_SetState`: it refuses while a pattern runs.
  - `LED_ForceState`, `LED_GetState` and `LED_Toggle`.
- **Pattern engine** (module `Patterns`): the "chenillard" state machine.
  - It holds the active pattern, the frequency tier, the step and the update flag.
  - Its timer set mirrors which hardware timers run.
  - Start, stop and frequency change; the timer callback; the periodic update with its three step tables.
  - A started pattern is proved to cycle with period 3, 2 or 6.
- **The firmware object** (module `Firmware`, class `Firmware`): the same state as mutable fields.
  - The fields are the 64-character command buffer array, the LED pin array, the pattern variables, and a ghost UART log and timer set.
  - Each C function is a method with the C function's loops (`memset`, `strlen`, the status lines).
  - Each method is proved to perform exactly the step of the corresponding pure function above.
- **Host side** (modules `CommandValidator`, `SpecialCommands`, `HostAgreement`):
  - `Command_Validate`, with its upper-cased copy into a 128-character buffer;
  - `Special_IsSpecialCommand` and `Special_ProcessCommand`, with their `strncpy` and in-place lower-casing;
  - lemmas relating what the host accepts to what the firmware parses.

C semantics are written out:
- `strlen` and `strcmp` read the buffer up to its first NUL (`Ascii.CStr`);
- the sub-parsers read `command[i]` and `&command[i]` of the zero-filled buffer; `Grammar.At` and `Grammar.From` read the same values from the line (`Grammar.BufferReads`), the zero fill past its end included;
- `toupper`, `tolower`, `isprint` and `isdigit` are the ASCII classifications.

The copies of the firmware sources under STM32F756ZG_Serial_Communication/ are identical to those under Core/, so the paths below cite Core/.

Where the code and its documentation disagree, the model follows the code:

- **LF after CR.** The documentation says LF is always ignored. In `Command_Parser_ProcessChar`, a completed line is cleared *before* the LF test (Core/Src/Modules/command_parser.c:94-107). So an LF that arrives before the main loop has processed a CR-terminated line discards that line (`LineAssembler.LineFeed`). The host sends only CR (linux_app/serial_handler.c:104), so the host's own traffic is unaffected (`HostAgreement.SentLineArrivesUpperCased`).
- **HELP, CLEAR and QUIT** are defined as macros in command_parser.c (lines 47, 52 and 53) but tested by no branch of the dispatcher. On the board they are unknown commands.
- **The host validator accepts any digit** where the firmware accepts only 1..3 (`HostAgreement.ValidatorAcceptsOutOfRangeLed`). The board then rejects such a line with a specific error.

Some methods of `Firmware.Firmware` have no C function of their own. They are pieces of a C function, split out so that each is proved on its own:
- `Dispatch` is the branch chain of `Command_Parser_ProcessCommands`;
- `SetLedAndReply`, `StartPatternAndReply`, `FrequencyOfDigit` and `SetFrequencyAndReply` are the tails of the `Parse_*` helpers;
- `SendLedStatusLines` and `SendPatternStatusLine` are parts of `Execute_STATUS_Command`;
- `ForceAllOff` is the loop in `Pattern_Stop`, and `LightPattern3Step` is the switch of `Pattern3_Update`;
- `ResetLine` is the three-statement reset at the top of `Command_Parser_ProcessChar` (also the body of `Command_Parser_Init`), and `AcceptChar` is the rest of that function;
- `ClearBuffer` and `Strlen` are the `memset` and `strlen` calls.

## Model

| member | source | states |
|---|---|---|
| Ascii.ToUpper | Core/Src/Modules/command_parser.c:101 | `toupper` maps a-z to A-Z (code minus 32) and leaves every other character alone; the result is never lower case |
| Ascii.ToLower | linux_app/special_commands.c:48-50 | `tolower` maps A-Z to a-z (code plus 32) and leaves every other character alone |
| Ascii.UpperString | linux_app/command_validator.c:46-51 | the character-by-character `toupper` of a string has the same length and maps each position |
| Ascii.LowerString | linux_app/special_commands.c:48-50 | the character-by-character `tolower` of a string has the same length and maps each position |
| Ascii.CaseMappingsAbsorb | linux_app/command_validator.c:48-49 | upper-casing after lower-casing is plain upper-casing, and conversely; upper-casing is idempotent |
| Ascii.CStr | Core/Src/Modules/command_parser.c:151 | the C string in a buffer is a NUL-free prefix of it, followed by a NUL when shorter than the buffer |
| Ascii.CStrUpTo | Core/Src/Modules/command_parser.c:112 | a buffer with no NUL before index k and a NUL at k holds exactly its first k characters as a C string |
| Ascii.CStrOfCaseMapped | linux_app/command_validator.c:48-52 | case mapping a buffer does not move its terminating NUL: the C string of the mapped buffer is the mapped C string |
| Ascii.DigitChar | Core/Src/Modules/command_parser.c:255 | the digit character of 0..9 is a digit whose value is that number |
| LedBank.NumberToPinDistinct | Core/Src/Modules/led_controller.c:86-99 | `LED_NumberToPin` is non-zero exactly for the LED numbers 1..3, each such pin is a single bit, and distinct LEDs have distinct pins |
| LedBank.SetState | Core/Src/Modules/led_controller.c:137-162 | `LED_SetState` succeeds exactly for an LED number 1..3 while no pattern runs, and then writes that LED; otherwise nothing changes |
| LedBank.GetState | Core/Src/Modules/led_controller.c:170-188 | `LED_GetState` returns LED_ERROR exactly for an invalid number, otherwise LED_ON iff the pin is set |
| LedBank.Toggled | Core/Src/Modules/led_controller.c:195-207 | `LED_Toggle` succeeds exactly for a valid LED number and keeps three LEDs |
| LedBank.ForceThenGet | Core/Src/Modules/led_controller.c:107-124 | after `LED_ForceState` the LED reads back the written state and every other LED reads back unchanged |
| LedBank.SetThenGet | Core/Src/Modules/led_controller.c:137-162 | with no pattern running, `LED_SetState` on a valid LED succeeds, reads back the written state and leaves the others unchanged |
| LedBank.SetRefusedWhilePatternActive | Core/Src/Modules/led_controller.c:145-149 | while a pattern runs, `LED_SetState` fails and changes nothing, whatever the arguments |
| LedBank.ToggleTwice | Core/Src/Modules/led_controller.c:195-207 | toggling the same LED twice restores the bank; a toggle inverts only its own LED |
| Patterns.SequenceLength | Core/Src/Modules/pattern_controller.c:276-371 | the three patterns have between 2 and 6 steps (3, 2 and 6) |
| Patterns.Pattern1Leds | Core/Src/Modules/pattern_controller.c:276-289 | the step table of pattern 1 yields a state for each of the three LEDs |
| Patterns.Pattern2Leds | Core/Src/Modules/pattern_controller.c:300-320 | the step table of pattern 2 yields a state for each of the three LEDs |
| Patterns.Pattern3Leds | Core/Src/Modules/pattern_controller.c:335-371 | the step table of pattern 3 yields a state for each of the three LEDs |
| Patterns.PatternLeds | Core/Src/Modules/pattern_controller.c:225-242 | the update applies the step table of the active pattern, three LEDs wide |
| Patterns.StepTableClosedForm | Core/Src/Modules/pattern_controller.c:276-371 | pattern 1 lights LED i alone at step i; pattern 2 lights the LEDs of step parity (1 and 3, then 2); pattern 3 lights LED i for steps i..i+2 (fill, then empty) |
| Patterns.Initialized | Core/Src/Modules/pattern_controller.c:53-59 | `Pattern_Controller_Init`: no pattern, 1 s tier, step 0, no pending update; the LEDs and timers are untouched |
| Patterns.Stop | Core/Src/Modules/pattern_controller.c:108-129 | `Pattern_Stop` succeeds iff a pattern runs; it then stops every timer and turns every LED off; otherwise nothing changes |
| Patterns.Start | Core/Src/Modules/pattern_controller.c:72-97 | `Pattern_Start` succeeds iff the pattern is 1..3; it then stops a running pattern (LEDs off), starts at step 0 with an update pending and the current tier's timer running; otherwise nothing changes |
| Patterns.SetFrequency | Core/Src/Modules/pattern_controller.c:143-170 | `Pattern_SetFrequency` succeeds iff the tier is 500 ms, 1 s or 3 s and changes only the tier and, while a pattern runs, which timer runs |
| Patterns.TimerCallback | Core/Src/Modules/pattern_controller.c:257-264 | the timer callback raises the update flag iff a pattern runs and the tick is from the current tier's timer; nothing else changes |
| Patterns.Update | Core/Src/Modules/pattern_controller.c:216-246 | `Pattern_Controller_Update` does nothing unless an update is pending and a pattern runs; it keeps the pattern, tier and timers and preserves the engine invariants |
| Patterns.UpdateAppliesOneStep | Core/Src/Modules/pattern_controller.c:216-246 | a pending update writes the step table's LEDs for the current step, advances the step modulo the pattern's length and clears the flag |
| Patterns.StartIsStopThenStart | Core/Src/Modules/pattern_controller.c:80-88 | starting a pattern while another runs is the same as stopping it, then starting; the LEDs are off and the step is 0 |
| Patterns.SetFrequencyKeepsStep | Core/Src/Modules/pattern_controller.c:143-170 | a frequency change keeps the pattern, its step and the LEDs; with no pattern running it changes only the tier |
| Patterns.TimerCallbackIdempotent | Core/Src/Modules/pattern_controller.c:257-264 | a second tick before the update changes nothing: updates do not accumulate |
| Patterns.TickSettled | Core/Src/Modules/pattern_controller.c:216-264 | one tick and update of a running pattern advances the step by one modulo its length and changes nothing else |
| Patterns.TicksSettled | Core/Src/Modules/pattern_controller.c:216-264 | n ticks advance the step by n modulo the pattern's length |
| Patterns.Periodic | Core/Src/Modules/pattern_controller.c:276-371 | after a whole number of cycles (3, 2 or 6 ticks each) the engine, LEDs included, is back where it was |
| Patterns.StartThenUpdateIsPeriodic | Core/Src/Modules/pattern_controller.c:72-97 | a started pattern shows its step-0 LEDs at the first update and is periodic from there |
| LineAssembler.Cleared | Core/Src/Modules/command_parser.c:79-84 | `Command_Parser_Init`: zeroed buffer, cursor 0, no line complete; the line is empty |
| LineAssembler.LineIsPrefix | Core/Src/Modules/command_parser.c:129-133 | in the assembler's invariant state the line is exactly the characters before the cursor |
| LineAssembler.Feed | Core/Src/Modules/command_parser.c:91-134 | `Command_Parser_ProcessChar` keeps the invariant: cursor at most 63, NUL from the cursor on, only printable upper-case-folded characters before it |
| LineAssembler.LineFeed | Core/Src/Modules/command_parser.c:94-107 | LF changes nothing while a line is typed, but clears a completed, unprocessed line |
| LineAssembler.CarriageReturn | Core/Src/Modules/command_parser.c:110-115 | CR completes the line and keeps its text and cursor |
| LineAssembler.Backspace | Core/Src/Modules/command_parser.c:118-126 | BS or DEL is a no-op on an empty line and otherwise drops the last character |
| LineAssembler.Store | Core/Src/Modules/command_parser.c:129-133 | a printable character is appended upper-cased while the cursor is below 63; at 63, or when not printable, it is dropped |
| LineAssembler.NewLineAfterComplete | Core/Src/Modules/command_parser.c:94-98 | a character after a completed line is fed to a cleared buffer |
| LineAssembler.FeedAll | Core/Src/Modules/command_parser.c:91-134 | feeding any sequence of characters keeps the invariant |
| LineAssembler.TypedLine | Core/Src/Modules/command_parser.c:101-133 | typing printable characters yields their upper-cased text cut to 63 characters; the buffer is never overrun |
| LineAssembler.TypedStep | Core/Src/Modules/command_parser.c:129-133 | one more printable character extends the typed text, within the 63-character limit |
| LineAssembler.TypedLineThenReturn | Core/Src/Modules/command_parser.c:91-134 | typing printable characters and CR yields a complete line with their upper-cased text, cut to 63 characters |
| LineAssembler.ExampleLedLine | Core/Src/Modules/command_parser.c:91-134 | "LED1 ON" and CR assemble into a complete "LED1 ON" |
| LineAssembler.ExampleBackspace | Core/Src/Modules/command_parser.c:118-126 | "led1", BS and CR give the line "LED" |
| Grammar.BufferReads | Core/Src/Modules/command_parser.c:271-279 | in a valid assembler state, `command[i]` of the 64-slot buffer is `At` of the line and the C string at `&command[i]` is `From` of the line, for every index of the buffer |
| Grammar.TierOfDigit | Core/Src/Modules/command_parser.c:317-320 | the tier digits 1, 2, 3 select 500 ms, 1 s and 3 s |
| Grammar.LedSyntax | Core/Src/Modules/command_parser.c:212-247 | `Parse_LED_Command` always either accepts the line or rejects it, and its reason is one of its four texts (too short, LED number, missing space, ON/OFF) |
| Grammar.ChenillardOnSyntax | Core/Src/Modules/command_parser.c:265-287 | `Parse_Chenillard_ON_Command` always either accepts or rejects, with the pattern-number or the " ON" format error |
| Grammar.ChenillardFrequencySyntax | Core/Src/Modules/command_parser.c:301-322 | `Parse_Chenillard_Frequency_Command` always either accepts or rejects, with the format or the tier-number error |
| Grammar.ShortcutSyntax | Core/Src/Modules/command_parser.c:343-396 | `Parse_Shortcut_Command` always either accepts or rejects, with the PAT-number, FREQ-number or invalid-shortcut error |
| Grammar.ClassifySound | Core/Src/Modules/command_parser.c:154-185 | every line the firmware accepts yields an in-range command and is one of that command's spellings (STATUS, STOP, LEDn ON/OFF, CHENILLARDn ON, PATn, CHENILLARD FREQUENCEn, FREQn) |
| Grammar.ClassifyComplete | Core/Src/Modules/command_parser.c:154-185 | every spelling of every in-range command is accepted as that command |
| Grammar.LedLineAccepted | Core/Src/Modules/command_parser.c:212-247 | a line starting with LED is accepted iff it has at least 7 characters, an LED number 1..3, the space and exactly ON or OFF; otherwise it draws a specific error |
| Dispatcher.OkLine | Core/Src/Modules/command_parser.c:451-462 | `Send_Success_Message` sends "[OK] " and the message, adding CRLF only when the message does not already end with it |
| Dispatcher.ErrLine | Core/Src/Modules/command_parser.c:467-472 | `Send_Error_Message` sends "[ERR] ", the message and CRLF |
| Dispatcher.Emit | Core/Src/Modules/uart_handler.c:96-100 | `UART_SendString` appends one string to the output and changes nothing else |
| Dispatcher.StatusReport | Core/Src/Modules/command_parser.c:418-446 | the STATUS report is a header, one line per LED, the pattern line, and the overflow warning exactly when an overflow was seen |
| Dispatcher.ExecuteStatus | Core/Src/Modules/command_parser.c:418-446 | STATUS is always processed, changes neither the line nor the engine, sends the report and clears the overflow flag |
| Dispatcher.ExecuteStop | Core/Src/Modules/command_parser.c:402-412 | STOP is always processed, leaves no pattern running, and replies OK when one was stopped and with an error otherwise |
| Dispatcher.ExecuteSetLed | Core/Src/Modules/command_parser.c:250-257 | an LED write succeeds iff the number is 1..3 and no pattern runs; on success exactly that LED takes the state and "LED n mise a ON/OFF" is sent, otherwise nothing changes and the refusal is sent |
| Dispatcher.ExecuteStart | Core/Src/Modules/command_parser.c:285-293 | starting succeeds iff the number is a pattern; the engine becomes `Patterns.Start` of it and "Chenillard n active" is sent, otherwise only the error is sent |
| Dispatcher.ExecuteSetFrequency | Core/Src/Modules/command_parser.c:327-335 | a tier change succeeds iff the tier is one of the three; the engine becomes `Patterns.SetFrequency` of it and "Frequence reglee a 500MS/1S/3S" is sent, otherwise only the error is sent |
| Dispatcher.Execute | Core/Src/Modules/command_parser.c:154-185 | executing a command sends at least one reply, keeps the earlier output, changes the engine only on success, and keeps the engine invariants |
| Dispatcher.Run | Core/Src/Modules/command_parser.c:154-191 | an accepted line is executed; a malformed one sends its specific error and is not processed; an unrecognised one changes nothing |
| Dispatcher.Respond | Core/Src/Modules/command_parser.c:146-202 | `Command_Parser_ProcessCommands` does nothing unless a line is complete; it then always resets the buffer, sends output exactly for a non-empty line, ends that output with the prompt, and never rewrites earlier output |
| Dispatcher.Receive | Core/Src/Modules/uart_handler.c:113-136 | a received character moves the receive index one slot round the 64-slot buffer, raises the overflow flag exactly when the index wraps, feeds `LineAssembler.Feed`, and leaves the engine and the output alone |
| Dispatcher.ReceiveCounts | Core/Src/Modules/uart_handler.c:122-133 | after k received characters the index has moved k slots modulo 64 and the flag is up iff it was up or the index passed the last slot; the line is `FeedAll` of the characters |
| Dispatcher.OverflowOnSixtyFourthByte | Core/Src/Modules/uart_handler.c:125-129 | from index 0 with the flag down, 63 characters leave it down and 64 or more raise it, whatever the lines contain |
| Dispatcher.EmptyLineIsSilent | Core/Src/Modules/command_parser.c:151-201 | an empty line only resets the buffer: no reply and no prompt |
| Dispatcher.MalformedLineChangesNothing | Core/Src/Modules/command_parser.c:186-201 | a malformed line leaves the LEDs and patterns alone and sends its specific error, the generic error and the prompt |
| Dispatcher.UnknownLineChangesNothing | Core/Src/Modules/command_parser.c:186-201 | an unrecognised line leaves the LEDs and patterns alone and sends the generic error and the prompt |
| Dispatcher.MalformedLedLineKeepsLeds | Core/Src/Modules/command_parser.c:212-247 | a rejected LED line changes no LED and sends its specific error, the generic error and the prompt |
| Dispatcher.LedLineRefusedWhilePatternRuns | Core/Src/Modules/command_parser.c:250-257 | an LED command while a pattern runs changes nothing and is answered with the refusal, the generic error and the prompt |
| Dispatcher.LedLineAppliedWhenIdle | Core/Src/Modules/command_parser.c:250-257 | an LED command numbering LED 1..3 with no pattern running writes exactly that LED and answers "LED n mise a ON/OFF" and the prompt |
| Dispatcher.AcceptedLineRuns | Core/Src/Modules/command_parser.c:146-202 | an accepted line leaves the board as the command's execution with the buffer reset, followed by the generic error exactly when the command was not processed, and by the prompt |
| Dispatcher.StartLineStartsPattern | Core/Src/Modules/command_parser.c:265-294 | a CHENILLARDn ON or PATn line with n in 1..3 runs `Patterns.Start` of n (pattern n active, step 0, update pending) and replies "Chenillard n active" and the prompt |
| Dispatcher.PatTwoStartsPatternTwo | Core/Src/Modules/command_parser.c:350-362 | "PAT2" starts pattern 2 and is answered "[OK] Chenillard 2 active" and the prompt |
| Dispatcher.FrequencyLineSetsTier | Core/Src/Modules/command_parser.c:301-336 | a CHENILLARD FREQUENCEd or FREQd line with d in 1..3 changes only the tier (and its timer) and replies "Frequence reglee a" the tier's name, then the prompt |
| Dispatcher.StopWhileRunning | Core/Src/Modules/command_parser.c:402-412 | STOP while a pattern runs stops it, turns all LEDs off and is answered "[OK] Chenillard arrete" and the prompt |
| Dispatcher.StopReplyWhenRunning | Core/Src/Modules/command_parser.c:402-408 | executing STOP with a pattern running is processed, performs `Patterns.Stop` and sends only "[OK] Chenillard arrete" |
| Dispatcher.OkText | Core/Src/Modules/command_parser.c:451-462 | a message already ending in CR LF is sent after "[OK] " unchanged |
| Dispatcher.RedundantStopIsProcessed | Core/Src/Modules/command_parser.c:402-412 | STOP with no pattern running answers with its error and the prompt but not the generic error |
| Dispatcher.StatusReportsOverflowOnce | Core/Src/Modules/command_parser.c:440-443 | STATUS reports an overflow and consumes the flag, so the next report has no warning |
| Dispatcher.WarningOnlyOnOverflow | Core/Src/Modules/command_parser.c:440-443 | with no overflow, no line of the report is the overflow warning |
| Firmware.Firmware.constructor | Core/Src/Modules/command_parser.c:79-84 | the reset state: empty line, LEDs off, no pattern, 1 s tier, no timers, no overflow, no output |
| Firmware.Firmware.SendString | Core/Src/Modules/uart_handler.c:96-100 | appends the string to the UART output |
| Firmware.Firmware.UartHasOverflow | Core/Src/Modules/uart_handler.c:149-154 | returns the overflow flag and clears it |
| Firmware.Firmware.TimerStart | Core/Src/Modules/timer_handler.c:67-112 | succeeds iff the tier is one of the three; the tier's timer then joins the running set, otherwise nothing changes |
| Firmware.Firmware.TimerStop | Core/Src/Modules/timer_handler.c:113-152 | succeeds iff the tier is one of the three; the tier's timer then leaves the running set, otherwise nothing changes |
| Firmware.Firmware.LedForceState | Core/Src/Modules/led_controller.c:107-124 | writes the pin array as `LedBank.Forced` says |
| Firmware.Firmware.LedSetState | Core/Src/Modules/led_controller.c:137-162 | writes the pin array and returns success exactly as `LedBank.SetState` says, interlocked on the active pattern |
| Firmware.Firmware.LedGetState | Core/Src/Modules/led_controller.c:170-188 | returns `LedBank.GetState` of the pins |
| Firmware.Firmware.LedToggle | Core/Src/Modules/led_controller.c:195-207 | writes the pin array and returns success exactly as `LedBank.Toggled` says |
| Firmware.Firmware.LedControllerInit | Core/Src/Modules/led_controller.c:47-65 | turns every LED off through the interlocked `LED_SetState`, so the LEDs are unchanged when a pattern already runs |
| Firmware.Firmware.ForceAllOff | Core/Src/Modules/pattern_controller.c:122-126 | the loop that forces each LED off leaves all three off |
| Firmware.Firmware.PatternControllerInit | Core/Src/Modules/pattern_controller.c:53-59 | resets the pattern variables as `Patterns.Initialized` says |
| Firmware.Firmware.PatternIsActive | Core/Src/Modules/pattern_controller.c:201-204 | true exactly when a pattern is active |
| Firmware.Firmware.PatternGetActive | Core/Src/Modules/pattern_controller.c:178-181 | returns no pattern or a pattern 1..3 |
| Firmware.Firmware.PatternGetFrequency | Core/Src/Modules/pattern_controller.c:189-192 | returns one of the three tiers |
| Firmware.Firmware.PatternStart | Core/Src/Modules/pattern_controller.c:72-97 | performs exactly `Patterns.Start` on the fields and timers |
| Firmware.Firmware.PatternStop | Core/Src/Modules/pattern_controller.c:108-129 | performs exactly `Patterns.Stop` on the fields and timers |
| Firmware.Firmware.PatternSetFrequency | Core/Src/Modules/pattern_controller.c:143-170 | performs exactly `Patterns.SetFrequency` on the fields and timers |
| Firmware.Firmware.PatternTimerCallback | Core/Src/Modules/pattern_controller.c:257-264 | performs exactly `Patterns.TimerCallback` |
| Firmware.Firmware.PatternControllerUpdate | Core/Src/Modules/pattern_controller.c:216-246 | performs exactly `Patterns.Update` |
| Firmware.Firmware.Pattern1Update | Core/Src/Modules/pattern_controller.c:276-289 | writes pattern 1's LEDs for the current step and advances the step modulo 3 |
| Firmware.Firmware.Pattern2Update | Core/Src/Modules/pattern_controller.c:300-320 | writes pattern 2's LEDs for the current step and advances the step modulo 2 |
| Firmware.Firmware.Pattern3Update | Core/Src/Modules/pattern_controller.c:335-371 | writes pattern 3's LEDs for the current step and advances the step modulo 6 |
| Firmware.Firmware.LightPattern3Step | Core/Src/Modules/pattern_controller.c:343-367 | on LEDs that are all off, the switch lights exactly `Patterns.Pattern3Leds` of the step |
| Firmware.Firmware.ClearBuffer | Core/Src/Modules/command_parser.c:194 | the `memset` loop zeroes the command buffer |
| Firmware.Firmware.CommandParserInit | Core/Src/Modules/command_parser.c:79-84 | resets the line assembler to `LineAssembler.Cleared` |
| Firmware.Firmware.RxCompleteCallback | Core/Src/Modules/uart_handler.c:113-136 | the index and overflow update and the call to the parser perform exactly `Dispatcher.Receive` |
| Firmware.Firmware.ProcessChar | Core/Src/Modules/command_parser.c:91-134 | the in-place update of the buffer array, cursor and flag is exactly `LineAssembler.Feed`; nothing else changes |
| Firmware.Firmware.ResetLine | Core/Src/Modules/command_parser.c:94-97 | the `memset` and index and flag reset give `LineAssembler.Cleared` and change nothing else |
| Firmware.Firmware.AcceptChar | Core/Src/Modules/command_parser.c:100-133 | on a buffer that is not complete, the upper-casing and the LF, CR, BS/DEL and printable cases perform exactly `LineAssembler.Feed` |
| Firmware.Firmware.Strlen | Core/Src/Modules/command_parser.c:151 | the `strlen` loop finds the length of the buffer's C string |
| Firmware.Firmware.ProcessCommands | Core/Src/Modules/command_parser.c:146-202 | performs exactly `Dispatcher.Respond` |
| Firmware.Firmware.Dispatch | Core/Src/Modules/command_parser.c:154-191 | the branch chain performs exactly `Dispatcher.Run` of `Grammar.Classify` of the line |
| Firmware.Firmware.ParseLedCommand | Core/Src/Modules/command_parser.c:212-258 | performs exactly `Dispatcher.Run` of `Grammar.LedSyntax` |
| Firmware.Firmware.ParseChenillardOnCommand | Core/Src/Modules/command_parser.c:265-294 | performs exactly `Dispatcher.Run` of `Grammar.ChenillardOnSyntax` |
| Firmware.Firmware.ParseChenillardFrequencyCommand | Core/Src/Modules/command_parser.c:301-336 | performs exactly `Dispatcher.Run` of `Grammar.ChenillardFrequencySyntax` |
| Firmware.Firmware.SetLedAndReply | Core/Src/Modules/command_parser.c:250-257 | the interlocked LED write and its reply perform exactly `Dispatcher.ExecuteSetLed` |
| Firmware.Firmware.StartPatternAndReply | Core/Src/Modules/command_parser.c:285-293 | starting a pattern and replying perform exactly `Dispatcher.ExecuteStart` |
| Firmware.Firmware.FrequencyOfDigit | Core/Src/Modules/command_parser.c:317-324 | the frequency switch knows a digit iff it is 1..3, and then selects the tier `Grammar.TierOfDigit` names |
| Firmware.Firmware.SetFrequencyAndReply | Core/Src/Modules/command_parser.c:327-335 | changing the tier and replying perform exactly `Dispatcher.ExecuteSetFrequency` |
| Firmware.Firmware.ParseShortcutCommand | Core/Src/Modules/command_parser.c:343-396 | performs exactly `Dispatcher.Run` of `Grammar.ShortcutSyntax` |
| Firmware.Firmware.ExecuteStopCommand | Core/Src/Modules/command_parser.c:402-412 | performs exactly `Dispatcher.ExecuteStop` |
| Firmware.Firmware.ExecuteStatusCommand | Core/Src/Modules/command_parser.c:418-446 | performs exactly `Dispatcher.ExecuteStatus` |
| Firmware.Firmware.SendLedStatusLines | Core/Src/Modules/command_parser.c:424-427 | the loop over the LEDs sends one status line per LED, in order |
| Firmware.Firmware.SendPatternStatusLine | Core/Src/Modules/command_parser.c:430-438 | sends exactly `Dispatcher.PatternStatusLine` of the engine and changes nothing else |
| Firmware.Firmware.SendSuccessMessage | Core/Src/Modules/command_parser.c:451-462 | sends `Dispatcher.OkLine` of the message |
| Firmware.Firmware.SendErrorMessage | Core/Src/Modules/command_parser.c:467-472 | sends `Dispatcher.ErrLine` of the message |
| CommandValidator.UpperCopy | linux_app/command_validator.c:46-52 | the copy holds the upper-cased command, cut to 127 characters |
| CommandValidator.Validate | linux_app/command_validator.c:39-106 | the copy loop into the 128-character array and the format checks return exactly `Validated` |
| CommandValidator.AcceptsExactlyTheForms | linux_app/command_validator.c:57-102 | the validator accepts exactly HELP, STATUS, STOP, CLEAR, QUIT and the digit forms LEDd ON/OFF, CHENILLARDd ON, CHENILLARD FREQUENCEd, PATd, FREQd for any digit d |
| CommandValidator.CaseInsensitive | linux_app/command_validator.c:46-52 | whether a command is valid does not depend on its letter case |
| CommandValidator.OnlyPrefixMatters | linux_app/command_validator.c:48 | only the first 127 characters of a command are examined |
| SpecialCommands.Normalized | linux_app/special_commands.c:43-50 | the normalized copy is the lower-cased command, cut to 127 characters |
| SpecialCommands.NormalizedCopy | linux_app/special_commands.c:43-50 | `strncpy`, its NUL padding and the in-place lower-casing loop produce exactly `Normalized` |
| SpecialCommands.IsSpecialCommand | linux_app/special_commands.c:36-60 | returns exactly `IsSpecial`: a non-null, non-empty command equal to help, clear or quit in any case |
| SpecialCommands.ProcessCommand | linux_app/special_commands.c:67-96 | returns exactly `Process`: the code of help, clear or quit, otherwise none |
| SpecialCommands.SpecialIffProcessed | linux_app/special_commands.c:36-96 | a command is special iff processing it yields a code other than none |
| SpecialCommands.CaseInsensitive | linux_app/special_commands.c:48-50 | the code does not depend on the command's letter case |
| HostAgreement.FirmwareCommandsPassValidator | linux_app/command_validator.c:39-106 | every line the board accepts, typed in any case, passes the host validator |
| HostAgreement.ValidatorAcceptsOutOfRangeLed | linux_app/command_validator.c:63-74 | for every digit d outside 1..3 the validator accepts "ledd on", which the board rejects with its LED-number error |
| HostAgreement.SpellingAccepted | linux_app/command_validator.c:57-102 | every firmware spelling of an in-range command has at most 21 characters and one of the validator's shapes |
| HostAgreement.LedLineUpperCased | linux_app/command_validator.c:46-52 | "ledd on" upper-cased is "LEDd ON" and holds no NUL |
| HostAgreement.LedLineOutOfRange | Core/Src/Modules/command_parser.c:222-226 | "LEDd ON" with d outside 1..3 draws the LED-number error |
| HostAgreement.SpecialWordUpperCased | linux_app/command_validator.c:57-61 | help, clear and quit upper-cased are HELP, CLEAR and QUIT |
| HostAgreement.SpecialCommandsPassValidator | linux_app/command_validator.c:57-61 | the special commands pass the validator |
| HostAgreement.SentLineArrivesUpperCased | linux_app/serial_handler.c:104 | a printable command of up to 63 characters that the host sends with CR reaches the board as its upper-cased text |

## Left out

- The hardware interfaces are not modelled: GPIO clock and pin configuration, the UART HAL (`HAL_UART_Transmit`, receive re-arming), and the timer HAL. LED pins are booleans, UART output is a sequence of strings, and the hardware timers are a set of running tiers.
- The receive interrupt and the main loop run concurrently on the board. The model runs `ProcessChar` and `ProcessCommands` as separate atomic steps.
- `snprintf` into the 30-, 40-, 80- and 100-byte message buffers is modelled as concatenation. Every message the firmware formats fits, so truncation never happens.
- The STATUS and success/error lines are modelled as strings, not `snprintf` formats.
- The contents of the UART receive buffer (`rxBuffer`) are not modelled: the character the HAL stored there is the callback's parameter. The receive index and the overflow flag are modelled, since `Execute_STATUS_Command` reads and clears the flag. `UART_Reset` and the re-arming of reception are not modelled.
- The replies "Impossible de demarrer chenillard" and "Impossible de regler frequence" follow `Pattern_Start` and `Pattern_SetFrequency` calls that cannot fail once the parser has checked the argument. They are modelled in `Dispatcher.ExecuteStart` and `Dispatcher.ExecuteSetFrequency`, but no parsed line reaches them.
- `Command_Init` and `Special_Init` do nothing, so they are not modelled.
- `Command_GetValidCommands`: modelled as the constant empty string with no contract, because that is all it returns.
- `Special_ProcessCommand` calls `UI_DisplayHelp`, `UI_ClearScreen` and `printf`. These terminal effects are left out; only the returned code is modelled.
- The NULL pointer a host caller may pass is a `CString.Null` value.
- The host's serial port, terminal UI and main loop are not modelled: linux_app/serial_handler.c, ui_handler.c and main.c.
- The firmware's main loop is not modelled: module_wrappers.c and main.c.
- `Patterns.Pattern1Leds`, `Patterns.Pattern2Leds` and `Patterns.Pattern3Leds` state only the width of their result. Their contents are stated by `Patterns.StepTableClosedForm`.
- `LedBank.Toggled`: states only the width and the success flag. `LedBank.ToggleTwice` states the contents.

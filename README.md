# ATmega328P controlled acquisition: framing model

This project models the run-time core of a small ATmega328P firmware. The
firmware is meant to sample one analog channel and stream the 8-bit samples
over the USART, with a newline byte after every 128 samples. `main` configures
the ADC in free-running auto-trigger mode and enables its conversion-complete
interrupt. It never enables interrupts globally, though (see "## Left out").
The core is the conversion-complete handler `ISR(ADC_vect)` and the primitives
it uses:

- `ADC_SPL_COUNT`, the `uint8_t` frame counter. It starts at 0. Each handler
  invocation increments it. When it reaches `ADC_SPL_TH` (128), the
  handler sends `'\n'` and resets the counter to 0.
- `USART_Transmit`, a busy-wait on the UDRE0 flag of UCSR0A followed by one
  write to UDR0.
- The `SET`/`CLR`/`TOGGLE` port macros. The handler raises and then lowers
  PORTB bit 4 for oscilloscope tracing.
- The baud divisor `BRC = F_CPU/16/BAUD - 1` and its split into UBRR0H and
  UBRR0L.

Files and modules:

- `port_bits.dfy` (`PortBits`): the three macros as `bv8` functions. Each one
  states which bit it forces or flips and that every other bit is unchanged.
- `baud_rate.dfy` (`BaudRate`): the divisor, the high/low register split, and
  the round trip through the register pair.
- `usart.dfy` (`Usart`): the polling loop. The hardware is represented by the
  successive readings of UCSR0A that the loop observes.
- `framing.dfy` (`Framing`): the handler's effect as a function `Step` on the
  pair (counter, bytes sent). `Run` applies `Step` once per conversion.
  `Framed` is an independent reference: the samples in blocks of 128, each
  complete block followed by a terminator. The lemmas connect `Run` to
  `Framed`.
- `acquisition.dfy` (`Acquisition`): class `AdcController`. Its fields are the
  counter, the bytes written to UDR0 and PORTB. `Transmit` is
  `USART_Transmit` and `HandleAdc` is `ISR(ADC_vect)`. `HandleAdc` is proved to
  advance the fields by exactly one `Framing.Step`. `Acquire` builds the
  controller at power-on and runs the handler once per sample. It is proved
  to end with the counter at N mod 128 and the reference framing of the
  samples on the line.

Modelling choices:

- The counter is an integer in [0, 256) (`Framing.Count`). `ADC_SPL_COUNT++`
  is `Framing.Increment`, `(count + 1) % 256`, which wraps like the C
  `uint8_t`. Serial and PORTB bytes are `bv8`. The UBRR register bytes are
  integers in [0, 256) (`BaudRate.Byte`). From power-on the counter never exceeds 127. Only an unreachable
  counter of 255 would wrap to 0 without a terminator, so the properties
  "terminator if and only if reset" and "counter below 128" are stated for
  states that satisfy `Framing.Valid`. `Framing.Valid` holds initially and every
  step preserves it.
- The UDRE0 bit position (5) and the PORTB reset value (0) come from the
  ATmega328P data sheet. `<avr/io.h>` is not part of this model.
- `Transmit` and `HandleAdc` take the sequence of UCSR0A readings their wait
  loops see. They require enough readings with UDRE0 set: one per byte sent.
  This is the assumption that the flag eventually asserts.

## Model

| member | source | states |
|---|---|---|
| `PortBits.Set` | src/main.cpp:26 | the result has bit `pin` set and every other bit as in the input |
| `PortBits.Clr` | src/main.cpp:25 | the result has bit `pin` clear and every other bit as in the input |
| `PortBits.Toggle` | src/main.cpp:27 | the result has bit `pin` inverted and every other bit as in the input |
| `PortBits.ToggleTwice` | src/main.cpp:27 | toggling the same pin twice gives back the original register |
| `PortBits.BitsDetermineValue` | src/main.cpp:25-27 | two registers that agree on all eight bits are equal, so the bitwise contracts of the macros fix their results |
| `PortBits.PulseLeavesPinLow` | src/main.cpp:61-73 | SET then CLR of one pin equals CLR alone: that pin ends low and all other pins keep their value |
| `BaudRate.Divisor` | src/main.cpp:20-22 | `F_CPU/16/BAUD - 1` is one less than `F_CPU / (16 * BAUD)` and is at least -1 |
| `BaudRate.SplitRoundTrip` | src/main.cpp:82-83 | the bytes written to UBRR0H and UBRR0L, read back as a 16-bit pair, give the divisor modulo 2^16 (the divisor itself when it is in [0, 65536)) |
| `BaudRate.BrcIsZero` | src/main.cpp:20-22 | with a 16 MHz clock and 1 Mbit/s, BRC is 0, both register bytes are 0, and their combination is BRC |
| `Usart.ReadyCount` | src/main.cpp:46-47 | the count of readings with UDRE0 set is at most the number of readings, and it is 0 exactly when no reading is ready |
| `Usart.ReadyCountAfter` | src/main.cpp:46-47 | skipping readings that are not ready keeps the ready count; also skipping the first ready one lowers it by one |
| `Usart.AwaitReady` | src/main.cpp:46-47 | if some reading has UDRE0 set, the loop stops at the first such reading and has looked at no reading after it |
| `Acquisition.AdcController.Transmit` | src/main.cpp:43-51 | exactly the byte `data` is appended to the UDR0 output, once, at the first reading that shows UDRE0 set; the counter and PORTB are untouched |
| `Acquisition.AdcController.constructor` | src/main.cpp:40 | the counter starts at 0, nothing has been sent, and the state is valid |
| `Acquisition.Acquire` | src/main.cpp:40-75 | power-on followed by one handler invocation per sample, each with enough ready UCSR0A readings, ends with a valid counter equal to N mod 128, the samples on the line in order with a terminator after every 128th, and PORTB at 0 |
| `Acquisition.AdcController.HandleAdc` | src/main.cpp:53-75 | the counter and the serial output advance by exactly one `Framing.Step` on the sample; a valid counter stays valid; PORTB bit 4 ends low and every other PORTB bit is as before |
| `Framing.Step` | src/main.cpp:60-71 | one invocation sends the sample first and then nothing else, or the terminator (1 or 2 bytes); the terminator is sent exactly when the incremented counter reaches 128; a valid counter stays below 128 and becomes (count + 1) mod 128; from a valid state the counter is reset to 0 exactly when a terminator was sent |
| `Framing.Run` | src/main.cpp:60-71 | over N invocations a valid counter stays valid, and between N and 2N bytes are sent |
| `Framing.FramedSnoc` | src/main.cpp:67-71 | one more sample extends the reference framing by that sample, plus a terminator exactly when it is a 128th sample |
| `Framing.StepAfter` | src/main.cpp:60-71 | one invocation from a counter of n mod 128 leaves it at (n + 1) mod 128 and sends the sample, followed by the terminator exactly when that new value is 0 |
| `Framing.RunFromInit` | src/main.cpp:40-71 | after N invocations from power-on the counter is N mod 128, and the output is the N samples in order with a terminator after every 128th |
| `Framing.FramedLength` | src/main.cpp:67-70 | the output after N samples holds N + N/128 bytes: N/128 terminators |
| `Framing.FramedAt` | src/main.cpp:64-70 | output position p holds the terminator when p mod 129 = 128, and otherwise the sample with index p - p/129, whatever its value (a sample equal to 0x0A is sent unchanged) |
| `Framing.CountIgnoresContent` | src/main.cpp:60-71 | two runs over equally long sample sequences end with the same counter and the same number of bytes sent: framing depends on the count only |
| `Framing.OneFullFrame` | src/main.cpp:60-71 | 128 equal samples give those 128 bytes, then one terminator, and the counter ends at 0 |
| `Framing.FrameAndTwoMore` | src/main.cpp:60-71 | samples 1..130 give bytes 1..128, a terminator, then 129 and 130, and the counter ends at 2 |

## Left out

- The peripheral set-up in `main` (src/main.cpp:85-126): one-shot register writes. Their bit positions are defined in `<avr/io.h>`, which is not part of this model. Only the UBRR0H/UBRR0L split of the divisor is modelled.
- The source never enables interrupts: `main` (src/main.cpp:78-127) has no `sei()`, and the global interrupt flag is clear after reset. As written, `ISR(ADC_vect)` is never entered, nothing is sent, and `main` returns after the last configuration write. The model takes each handler invocation as given.
- Interrupt delivery and preemption. Each handler invocation is one atomic method call, and nothing else touches the counter.
- The timing of the busy-wait, and a UDRE0 flag that never asserts. A flag that never asserts is a hang. The model instead requires enough ready readings.
- The ADC conversion and what `ADCH` means under left alignment. The sample is taken to be any byte.
- Sample rate, clock and `U2X0` (double speed) numerics (src/main.cpp:7, 89, 110). These depend on the hardware and involve fractions.
- The timer-gated triggering that the header comment (src/main.cpp:4-7) describes. The code configures only the free-running ADC, and it has no timer handler. The model follows the code.
- The moment during a handler run when PORTB bit 4 is high (src/main.cpp:61-73) is not recorded. `HandleAdc` states only the register's value at the end. DDRB is never configured in the source, and the model does not cover what the pin drives.
- `PortBits.Set`, `PortBits.Clr`, `PortBits.Toggle`: the pin is limited to 0..7. The C macros accept wider pin numbers, but the firmware only uses pin 4.
- `BaudRate.SplitRoundTrip`: treats the register pair as 16 bits. The hardware UBRR0 register uses only the low 12 bits.

# Transmit-only USART2 bring-up on an STM32 (Dafny model)

This project models `Src/main.c` of a bare-metal STM32 program that brings up
USART2 as a transmit-only UART on pin PA2 and backs the C library's character
output with it. The model covers the following parts of the file:

- the baud-rate divisor `compute_uart_bd`, which rounds half up in 32-bit
  unsigned arithmetic and returns `uint16_t`;
- `uart_set_baudrate`, which writes that divisor to `BRR`;
- the register bring-up `uart_tx_init`. It gates the GPIOA and USART2 clocks,
  puts PA2 in alternate function 7 and writes the divisor. It then assigns
  `CR1` outright to TE and ORs in UE;
- the blocking byte write `uart2_write` and the redirect `__io_putchar`.

Files:

- `registers.dfy` (module `Registers`) holds the three register blocks as
  classes with `bv32` fields: `Gpio` is `GPIO_TypeDef` (Src/main.c:38-49),
  `Rcc` is `RCC_TypeDef` (Src/main.c:52-85) and `Usart` is `USART_TypeDef`
  (Src/main.c:88-96). Every named register of the C structs is a field.
  The module also holds the bit masks the bring-up uses. `WithField` states
  what a read-modify-write of one bit field means: the field gets the new value and
  every other bit keeps its value.
- `baud.dfy` (module `Baud`) holds `ComputeUartBd` on `u32`/`u16` newtypes.
  The 32-bit wrap of the sum and the 16-bit truncation of the quotient are
  written out. The lemmas relate the result to the exact quotient rounded to
  nearest with ties up (`NearestTiesUp`).
- `uart_tx.dfy` (module `UartTx`) holds the methods that change register
  state, and the specification function `InitEffect` for the bring-up.

Modelling decisions:

- A register is a field and a register write is a field assignment. Each
  method's `modifies` clause names single fields (`rcc`AHB1ENR`, ...). So
  every register a method does not name is provably left unchanged.
- `uart_tx_init` is split at its two commented halves (Src/main.c:132 and
  :147) into `ConfigureGpioPin` and `ConfigureUartModule`. Each keeps one
  statement per register access of the C code, in the same order.
- The values `uart2_write` reads from `SR` come from the hardware. They are
  the parameter `statusReads`, in read order. The poll stops at the first
  word with TXE (bit 7) set. The method returns the number of reads as
  `polls`, which the C function does not return.
- C's `int` is the newtype `int32`. `ch & 0xFF` on a two's-complement `int`
  is the value in 0..255 congruent to `ch` modulo 256 (`LowByte`). The bitwise
  AND is `BitAnd`, defined bit by bit on non-negative integers, and
  `LowByteIsMask` proves the two agree.

Where the written design of this system and the code differ, the model
follows the code:

- The design describes enabling as "assign TE, write the divisor, set TE,
  set UE". The code writes `BRR` first (line 152), then assigns `CR1 = TE`
  (156), then ORs in UE (159).
- The design asks for a reported error on a zero baud rate or a divisor
  above 16 bits. The code has no error path. Here a zero baud rate is a
  precondition, and the 16-bit truncation and 32-bit wrap are modelled as
  the code performs them.
- The design's `writeByte` takes a byte. `uart2_write` takes an `int` and
  masks it.

## Model

| member | source | states |
|---|---|---|
| `Registers.WithField` | Src/main.c:135-149 | a read-modify-write of one field gives that field the new value and leaves every bit outside the field exactly as it was |
| `Registers.WithFieldIdempotent` | Src/main.c:135-149 | writing the same field value a second time changes nothing, so re-enabling a clock bit is a no-op |
| `Baud.ComputeUartBd` | Src/main.c:191-194 | when the sum does not wrap and the quotient fits 16 bits, the divisor is the clock over the baud rate rounded to nearest, ties up |
| `Baud.RoundHalfUpIsNearest` | Src/main.c:193 | `(clk + baud/2) / baud` is within one half of `clk / baud`, with an exact half rounding up, for every clock and every nonzero baud rate |
| `Baud.NoWrapNoTruncation` | Src/main.c:191-193 | in range, neither the 32-bit wrap nor the 16-bit truncation alters the quotient |
| `Baud.DivisorExact` | Src/main.c:191-194 | in range, the returned divisor equals the unbounded quotient `(clk + baud/2) / baud` |
| `Baud.NearestUnique` | Src/main.c:193 | at most one integer is the nearest-ties-up rounding of a quotient |
| `Baud.DivisorIsNearest` | Src/main.c:191-194 | in range, a value equals the divisor if and only if it is the nearest-ties-up rounding of clock over baud rate |
| `Baud.DivisorTruncatesNearest` | Src/main.c:191-194 | without 32-bit wrap, the divisor is the nearest rounding taken modulo 65536, so a quotient of 65536 or more is silently truncated |
| `Baud.TiesRoundUp` | Src/main.c:193 | when the clock is an exact half-multiple of an even baud rate, the divisor is the quotient rounded up (3 over 2 gives 2) |
| `Baud.NearestNonIncreasing` | Src/main.c:193 | a larger divisor never has a larger nearest quotient |
| `Baud.DivisorNonIncreasing` | Src/main.c:191-194 | for a fixed clock, if the lower baud rate is in range, a higher baud rate never gives a larger divisor, including when its sum wraps and the divisor drops to 0 |
| `Baud.NoWrapNonIncreasing` | Src/main.c:191-194 | the same ordering when the sum at the higher baud rate does not wrap |
| `Baud.WrapGivesZero` | Src/main.c:191-193 | for every clock and nonzero baud rate whose 32-bit sum wraps, the wrapped sum is below the baud rate and the divisor is 0 |
| `Baud.WrapLosesDivisor` | Src/main.c:191-193 | one instance of the wrap: for clock 0xFFFFFFFF and baud 3 the 32-bit sum wraps and the divisor is 0, not the truncated nearest value 0x5555 |
| `UartTx.ConfiguredDivisor` | Src/main.c:27-29 | with a 16 MHz APB1 clock and 115200 baud nothing wraps, and the divisor is 139, the nearest integer to 138.89 |
| `UartTx.UartSetBaudrate` | Src/main.c:187-189 | BRR receives the divisor zero-extended from 16 to 32 bits, and no other register changes |
| `UartTx.InitEffect` | Src/main.c:130-160 | after bring-up, AHB1ENR bit 0 and APB1ENR bit 17 are set; PA2's MODER field is 0b10 and its AFRL field 0b0111; all other bits of those four registers are unchanged; BRR is 139; CR1 has exactly TE and UE set, whatever it held before |
| `UartTx.InitIdempotent` | Src/main.c:130-160 | running the bring-up twice leaves the six registers as running it once |
| `UartTx.UartTxInit` | Src/main.c:130-160 | the six written registers end as `InitEffect` of their old values, and no other register changes |
| `UartTx.ConfigureGpioPin` | Src/main.c:132-145 | the GPIOA clock bit and PA2's mode and alternate-function fields are set and all other bits of AHB1ENR, MODER and AFRL are kept |
| `UartTx.ConfigureUartModule` | Src/main.c:147-159 | the USART2 clock bit is set with all other APB1ENR bits kept; BRR holds the configured divisor; CR1 is exactly TE or UE, because it is assigned and not ORed |
| `UartTx.WaitTxe` | Src/main.c:167-168 | the poll stops at the first status read with TXE set; every earlier read had TXE clear |
| `UartTx.LowByte` | Src/main.c:171 | `ch & 0xFF` is the value in 0..255 congruent to `ch` modulo 256, and a character code 0..255 passes unchanged |
| `UartTx.BitAndLowOnes` | Src/main.c:171 | for every non-negative integer, bitwise AND with k one-bits equals the value modulo 2^k |
| `UartTx.LowByteIsMask` | Src/main.c:171 | the bitwise AND of `ch`'s 32-bit two's-complement pattern with 0xFF equals `LowByte(ch)`, for negative `ch` as well |
| `UartTx.Uart2Write` | Src/main.c:166-172 | DR receives the low byte of `ch` only after a status read with TXE set, all earlier reads having TXE clear, and no other register changes |
| `UartTx.IoPutchar` | Src/main.c:178-181 | the character is written to DR through `uart2_write` and returned unchanged |

## Left out

- `main` and its endless `printf` loop (Src/main.c:117-124) are left out. They are C library formatted output that never terminates; only `__io_putchar` is modelled.
- Base addresses, pointer casts and `volatile` access (Src/main.c:8-21, 35, 99-101) are left out. Registers are object fields, so the model does not capture that each access reaches hardware or how accesses are ordered on the bus.
- The reserved padding words of `RCC_TypeDef` are not fields. Registers the code never touches are fields, and the frames prove them unchanged.
- `UartTx.WaitTxe`: assumes TXE appears in the supplied status reads. The C loop spins forever if TXE never sets, and that non-terminating run is not modelled. Real hardware timing of TXE is not modelled either.
- `UartTx.Uart2Write`: does not read the `SR` field of the `Usart` object. The successive status values are the `statusReads` parameter instead, because they come from the hardware and not from the program.
- `Baud.ComputeUartBd`: a zero baud rate is a precondition, because the code divides by it (Src/main.c:193) and has no error path. No error result is invented.
- The design's transmitter state machine (disabled, configuring, enabled) has no counterpart in the code and is not modelled.

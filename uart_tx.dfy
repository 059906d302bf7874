/** Bring-up of USART2 as a transmit-only UART on pin PA2, and the blocking
    byte write that backs the C library's character output.

    uart_tx_init gates the clocks of GPIOA and USART2, puts PA2 in alternate
    function 7 (USART2_TX), writes the baud-rate divisor and enables the
    transmitter and the USART. uart2_write busy-polls the TXE status flag and
    then stores the low byte of its argument in the data register. */
module UartTx {
  import opened Registers
  import opened Baud

  /** C's int, the type of the character passed to uart2_write. */
  newtype int32 = x: int | -0x8000_0000 <= x < 0x8000_0000

  /** System clock, 16 MHz; the APB1 peripheral clock is assumed equal to it. */
  const SYS_FREQ: u32 := 16_000_000
  const APB1_CLK: u32 := SYS_FREQ
  /** Target baud rate. */
  const UART_BAUDRATE: u32 := 115_200

  /** The configured clock and baud rate give the divisor 139, which is
      16 000 000 / 115 200 = 138.89 rounded to nearest. */
  lemma ConfiguredDivisor()
    ensures InRange(APB1_CLK, UART_BAUDRATE)
    ensures NearestTiesUp(APB1_CLK as int, UART_BAUDRATE as int, 139)
    ensures ComputeUartBd(APB1_CLK, UART_BAUDRATE) == 139
  {
  }

  /** uart_set_baudrate: BRR receives the divisor, zero-extended from 16 to
      32 bits. */
  method UartSetBaudrate(usart: Usart, periphClk: u32, baudRate: u32)
    requires baudRate != 0
    modifies usart`BRR
    ensures usart.BRR == ComputeUartBd(periphClk, baudRate) as bv16 as bv32
  {
    usart.BRR := ComputeUartBd(periphClk, baudRate) as bv16 as bv32;
  }

  /** The six registers that uart_tx_init writes. */
  datatype InitRegs = InitRegs(ahb1enr: bv32, apb1enr: bv32, moder: bv32,
                               afrl: bv32, brr: bv32, cr1: bv32)

  function Touched(rcc: Rcc, gpioa: Gpio, usart2: Usart): InitRegs
    reads rcc, gpioa, usart2
  {
    InitRegs(rcc.AHB1ENR, rcc.APB1ENR, gpioa.MODER, gpioa.AFRL, usart2.BRR, usart2.CR1)
  }

  /** What uart_tx_init makes of the registers it writes, stated field by
      field: two clock-enable bits set, the PA2 mode and alternate-function
      fields set, every other bit of those four registers kept; BRR holds the
      configured divisor and CR1 exactly TE and UE, whatever both held before. */
  function InitEffect(s: InitRegs): (t: InitRegs)
    ensures t.ahb1enr & GPIOAEN == GPIOAEN && SameOutside(t.ahb1enr, s.ahb1enr, GPIOAEN)
    ensures t.apb1enr & USART2EN == USART2EN && SameOutside(t.apb1enr, s.apb1enr, USART2EN)
    ensures t.moder & MODER2_MASK == MODER2_ALTERNATE
    ensures SameOutside(t.moder, s.moder, MODER2_MASK)
    ensures t.afrl & AFRL2_MASK == AFRL2_AF7
    ensures SameOutside(t.afrl, s.afrl, AFRL2_MASK)
    ensures t.brr == 139
    ensures t.cr1 & CR1_TE == CR1_TE && t.cr1 & CR1_UE == CR1_UE
    ensures t.cr1 & !(CR1_TE | CR1_UE) == 0
  {
    ConfiguredDivisor();
    InitRegs(
      ahb1enr := WithField(s.ahb1enr, GPIOAEN, GPIOAEN),
      apb1enr := WithField(s.apb1enr, USART2EN, USART2EN),
      moder := WithField(s.moder, MODER2_MASK, MODER2_ALTERNATE),
      afrl := WithField(s.afrl, AFRL2_MASK, AFRL2_AF7),
      brr := ComputeUartBd(APB1_CLK, UART_BAUDRATE) as bv16 as bv32,
      cr1 := CR1_TE | CR1_UE)
  }

  /** Running the bring-up twice leaves the registers as running it once. */
  lemma InitIdempotent(s: InitRegs)
    ensures InitEffect(InitEffect(s)) == InitEffect(s)
  {
  }

  /** uart_tx_init: the GPIO pin configuration, then the UART module
      configuration. Only the six registers named in the modifies clause
      change; every other register of the three blocks keeps its value. */
  method UartTxInit(rcc: Rcc, gpioa: Gpio, usart2: Usart)
    modifies rcc`AHB1ENR, rcc`APB1ENR, gpioa`MODER, gpioa`AFRL, usart2`BRR, usart2`CR1
    ensures Touched(rcc, gpioa, usart2) == InitEffect(old(Touched(rcc, gpioa, usart2)))
  {
    ConfigureGpioPin(rcc, gpioa);
    ConfigureUartModule(rcc, usart2);
  }

  /** First half of uart_tx_init: clock to GPIOA, PA2 mode 0b10, PA2
      alternate function 0b0111, one statement per register access. */
  method ConfigureGpioPin(rcc: Rcc, gpioa: Gpio)
    modifies rcc`AHB1ENR, gpioa`MODER, gpioa`AFRL
    ensures rcc.AHB1ENR == WithField(old(rcc.AHB1ENR), GPIOAEN, GPIOAEN)
    ensures gpioa.MODER == WithField(old(gpioa.MODER), MODER2_MASK, MODER2_ALTERNATE)
    ensures gpioa.AFRL == WithField(old(gpioa.AFRL), AFRL2_MASK, AFRL2_AF7)
  {
    rcc.AHB1ENR := rcc.AHB1ENR | GPIOAEN;
    gpioa.MODER := gpioa.MODER | (1 << 5);
    gpioa.MODER := gpioa.MODER & !(1 << 4);
    gpioa.AFRL := gpioa.AFRL | (1 << 8);
    gpioa.AFRL := gpioa.AFRL | (1 << 9);
    gpioa.AFRL := gpioa.AFRL | (1 << 10);
    gpioa.AFRL := gpioa.AFRL & !(1 << 11);
  }

  /** Second half of uart_tx_init: clock to USART2, the divisor, then CR1
      assigned outright (clearing all its other bits) before UE is OR-ed in. */
  method ConfigureUartModule(rcc: Rcc, usart2: Usart)
    modifies rcc`APB1ENR, usart2`BRR, usart2`CR1
    ensures rcc.APB1ENR == WithField(old(rcc.APB1ENR), USART2EN, USART2EN)
    ensures usart2.BRR == ComputeUartBd(APB1_CLK, UART_BAUDRATE) as bv16 as bv32
    ensures usart2.CR1 == CR1_TE | CR1_UE
  {
    rcc.APB1ENR := rcc.APB1ENR | USART2EN;
    UartSetBaudrate(usart2, APB1_CLK, UART_BAUDRATE);
    usart2.CR1 := 1 << 3;
    usart2.CR1 := usart2.CR1 | (1 << 13);
  }

  /** The transmit data register empty flag is set in status word `sr`. */
  predicate TxeSet(sr: bv32)
  {
    sr & SR_TXE != 0
  }

  /** The poll loop of uart2_write. `statusReads` are the successive values
      the hardware returns for reads of SR; the loop reads them in order until
      one has TXE set. It returns the number of reads made: the last of them
      is the first read with TXE set. */
  method WaitTxe(statusReads: seq<bv32>) returns (polls: nat)
    requires exists k :: 0 <= k < |statusReads| && TxeSet(statusReads[k])
    ensures 0 < polls <= |statusReads|
    ensures TxeSet(statusReads[polls - 1])
    ensures forall k :: 0 <= k < polls - 1 ==> !TxeSet(statusReads[k])
  {
    var i := 0;
    while !TxeSet(statusReads[i])
      invariant 0 <= i < |statusReads|
      invariant forall k :: 0 <= k < i ==> !TxeSet(statusReads[k])
      decreases |statusReads| - i
    {
      i := i + 1;
    }
    polls := i + 1;
  }

  /** `ch & 0xFF` on a 32-bit two's-complement int: the value below 256 that
      agrees with `ch` modulo 256. A character code 0-255 passes unchanged.
      LowByteIsMask proves this equals the bitwise AND. */
  function LowByte(ch: int32): (b: int32)
    ensures 0 <= b < 0x100
    ensures (ch as int - b as int) % 0x100 == 0
    ensures 0 <= ch < 0x100 ==> b == ch
  {
    (ch as int % 0x100) as int32
  }

  function Pow2(k: nat): (p: nat)
    ensures 0 < p
  {
    if k == 0 then 1 else 2 * Pow2(k - 1)
  }

  /** C's `&` on two non-negative integers, one bit at a time from the least
      significant end. */
  function BitAnd(a: nat, b: nat): nat
    decreases a
  {
    if a == 0 || b == 0 then 0
    else 2 * BitAnd(a / 2, b / 2) + (if a % 2 == 1 && b % 2 == 1 then 1 else 0)
  }

  /** The remainder is the only value below the divisor that differs from
      the dividend by a multiple of it. */
  lemma ModUnique(a: int, d: int, q: int, r: int)
    requires 0 < d && a == d * q + r && 0 <= r < d
    ensures a % d == r
  {
    var q', r' := a / d, a % d;
    assert a == d * q' + r' && 0 <= r' < d;
    if q' < q {
      MulMono(q' + 1, q, d);
    } else if q < q' {
      MulMono(q + 1, q', d);
    }
  }

  /** Taking a number modulo 2p is taking its half modulo p and putting the
      low bit back. */
  lemma HalveMod(a: nat, p: nat)
    requires 0 < p
    ensures a % (2 * p) == 2 * ((a / 2) % p) + a % 2
  {
    var q, r := (a / 2) / p, (a / 2) % p;
    assert a / 2 == p * q + r;
    assert a == 2 * (a / 2) + a % 2;
    assert 2 * (p * q) == (2 * p) * q;
    ModUnique(a, 2 * p, q, 2 * r + a % 2);
  }

  /** AND with k one-bits keeps the k low bits: `a & (2^k - 1) == a % 2^k`. */
  lemma {:induction false} BitAndLowOnes(a: nat, k: nat)
    ensures BitAnd(a, Pow2(k) - 1) == a % Pow2(k)
  {
    if k == 0 {
    } else if a == 0 {
    } else {
      var p := Pow2(k - 1);
      var m := Pow2(k) - 1;
      assert m / 2 == p - 1 && m % 2 == 1;
      assert BitAnd(a, m) == 2 * BitAnd(a / 2, p - 1) + a % 2;
      BitAndLowOnes(a / 2, k - 1);
      HalveMod(a, p);
    }
  }

  /** `ch & 0xFF` taken on the 32-bit two's-complement pattern of `ch` (its
      value modulo 2^32) is LowByte(ch), for negative `ch` as well. */
  lemma LowByteIsMask(ch: int32)
    ensures BitAnd(ch as int % 0x1_0000_0000, 0xFF) == LowByte(ch) as int
  {
    var c := ch as int;
    var x := c % 0x1_0000_0000;
    assert Pow2(8) == 0x100;
    BitAndLowOnes(x, 8);
    var q, r := c / 0x100, c % 0x100;
    assert c == 0x100 * q + r && 0 <= r < 0x100;
    if c < 0 {
      ModUnique(c, 0x1_0000_0000, -1, c + 0x1_0000_0000);
      ModUnique(x, 0x100, q + 0x100_0000, r);
    } else {
      ModUnique(x, 0x100, q, r);
    }
  }

  /** uart2_write: waits for TXE, then writes the low byte of `ch` to DR.
      DR is the only register written, and it is written only after a read
      of SR with TXE set, all earlier reads having had TXE clear. */
  method Uart2Write(usart2: Usart, ch: int32, statusReads: seq<bv32>) returns (polls: nat)
    requires exists k :: 0 <= k < |statusReads| && TxeSet(statusReads[k])
    modifies usart2`DR
    ensures 0 < polls <= |statusReads| && TxeSet(statusReads[polls - 1])
    ensures forall k :: 0 <= k < polls - 1 ==> !TxeSet(statusReads[k])
    ensures usart2.DR == LowByte(ch) as bv32
  {
    polls := WaitTxe(statusReads);
    usart2.DR := LowByte(ch) as bv32;
  }

  /** __io_putchar: sends `ch` through uart2_write and returns it unchanged. */
  method IoPutchar(usart2: Usart, ch: int32, statusReads: seq<bv32>) returns (r: int32)
    requires exists k :: 0 <= k < |statusReads| && TxeSet(statusReads[k])
    modifies usart2`DR
    ensures usart2.DR == LowByte(ch) as bv32
    ensures r == ch
  {
    var _ := Uart2Write(usart2, ch, statusReads);
    r := ch;
  }
}

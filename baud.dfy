/** The USART baud-rate divisor: compute_uart_bd turns the peripheral clock
    and the target baud rate into the 16-bit value written to BRR, rounding
    the quotient to the nearest integer with ties rounding up.

    The C function works on uint32_t and returns uint16_t, so the sum
    `PeriphClk + BaudRate / 2` wraps modulo 2^32 and the quotient is
    truncated modulo 2^16. Both are written out below; the lemmas say when
    they do not happen and what the result is when they do. */
module Baud {

  const U32: int := 0x1_0000_0000
  const U16: int := 0x1_0000

  /** C's uint32_t. */
  newtype u32 = x: int | 0 <= x < 0x1_0000_0000
  /** C's uint16_t. */
  newtype u16 = x: int | 0 <= x < 0x1_0000

  /** compute_uart_bd as written: `(PeriphClk + BaudRate/2U) / BaudRate` in
      32-bit unsigned arithmetic, returned as uint16_t. A zero baud rate
      divides by zero in the C code, so it is excluded here. */
  function ComputeUartBd(periphClk: u32, baudRate: u32): (bd: u16)
    requires baudRate != 0
    ensures InRange(periphClk, baudRate)
            ==> NearestTiesUp(periphClk as int, baudRate as int, bd as int)
  {
    RoundHalfUpIsNearest(periphClk as int, baudRate as int);
    NoWrapNoTruncation(periphClk as int, baudRate as int);
    var sum := (periphClk as int + baudRate as int / 2) % U32;
    (sum / baudRate as int % U16) as u16
  }

  /** The sum `PeriphClk + BaudRate/2` does not wrap around 32 bits. */
  predicate NoWrap(periphClk: u32, baudRate: u32)
  {
    periphClk as int + baudRate as int / 2 < U32
  }

  /** Neither the 32-bit sum wraps nor the quotient exceeds 16 bits. */
  predicate InRange(periphClk: u32, baudRate: u32)
  {
    baudRate != 0 && NoWrap(periphClk, baudRate)
    && (periphClk as int + baudRate as int / 2) / baudRate as int < U16
  }

  /** `q` is `clk / baud` rounded to the nearest integer, a tie (a fraction of
      exactly one half) rounding up: q - 1/2 <= clk/baud < q + 1/2. */
  predicate NearestTiesUp(clk: int, baud: int, q: int)
  {
    (2 * q - 1) * baud <= 2 * clk < (2 * q + 1) * baud
  }

  /** Multiplying by a non-negative factor keeps an inequality. */
  lemma MulMono(a: int, b: int, c: int)
    requires a <= b && 0 <= c
    ensures a * c <= b * c
  {
  }

  /** Adding half the divisor before an integer division rounds to nearest,
      ties up, for every non-negative dividend and positive divisor. */
  lemma RoundHalfUpIsNearest(clk: int, baud: int)
    requires 0 <= clk && 0 < baud
    ensures NearestTiesUp(clk, baud, (clk + baud / 2) / baud)
  {
    var h := baud / 2;
    var q := (clk + h) / baud;
    var r := (clk + h) % baud;
    assert clk + h == q * baud + r && 0 <= r < baud;
    assert 2 * h <= baud <= 2 * h + 1;
    assert (2 * q - 1) * baud == 2 * (q * baud) - baud;
    assert (2 * q + 1) * baud == 2 * (q * baud) + baud;
  }

  /** In range, neither the modulo 2^32 nor the modulo 2^16 changes anything. */
  lemma NoWrapNoTruncation(clk: int, baud: int)
    requires 0 <= clk && 0 < baud
    ensures clk + baud / 2 < U32 && (clk + baud / 2) / baud < U16
            ==> (clk + baud / 2) % U32 / baud % U16 == (clk + baud / 2) / baud
  {
    var sum := clk + baud / 2;
    if sum < U32 && sum / baud < U16 {
      assert sum % U32 == sum;
      assert 0 <= sum / baud;
    }
  }

  /** In range, the divisor is the plain quotient. */
  lemma DivisorExact(periphClk: u32, baudRate: u32)
    requires InRange(periphClk, baudRate)
    ensures ComputeUartBd(periphClk, baudRate) as int
            == (periphClk as int + baudRate as int / 2) / baudRate as int
  {
    NoWrapNoTruncation(periphClk as int, baudRate as int);
  }

  /** At most one integer is the nearest to a quotient. */
  lemma NearestUnique(clk: int, baud: int, q1: int, q2: int)
    requires 0 < baud
    requires NearestTiesUp(clk, baud, q1) && NearestTiesUp(clk, baud, q2)
    ensures q1 == q2
  {
    if q1 < q2 {
      MulMono(2 * q1 + 1, 2 * q2 - 1, baud);
    } else if q2 < q1 {
      MulMono(2 * q2 + 1, 2 * q1 - 1, baud);
    }
  }

  /** When nothing wraps or truncates, the divisor is exactly the clock over
      the baud rate rounded to nearest with ties up, and no other value is. */
  lemma DivisorIsNearest(periphClk: u32, baudRate: u32, q: int)
    requires InRange(periphClk, baudRate)
    ensures ComputeUartBd(periphClk, baudRate) as int == q
            <==> NearestTiesUp(periphClk as int, baudRate as int, q)
  {
    var exact := (periphClk as int + baudRate as int / 2) / baudRate as int;
    RoundHalfUpIsNearest(periphClk as int, baudRate as int);
    DivisorExact(periphClk, baudRate);
    if NearestTiesUp(periphClk as int, baudRate as int, q) {
      NearestUnique(periphClk as int, baudRate as int, q, exact);
    }
  }

  /** Without 32-bit wrap-around, the divisor is the nearest integer taken
      modulo 2^16: a quotient of 65536 or more is silently truncated. */
  lemma DivisorTruncatesNearest(periphClk: u32, baudRate: u32, q: int)
    requires baudRate != 0 && NoWrap(periphClk, baudRate)
    requires NearestTiesUp(periphClk as int, baudRate as int, q)
    ensures ComputeUartBd(periphClk, baudRate) as int == q % U16
  {
    RoundHalfUpIsNearest(periphClk as int, baudRate as int);
    NearestUnique(periphClk as int, baudRate as int, q,
                  (periphClk as int + baudRate as int / 2) / baudRate as int);
  }

  /** When `clk / baud` has a fractional part of exactly one half, the
      divisor rounds up (for instance 3 / 2 gives 2, not 1). */
  lemma TiesRoundUp(periphClk: u32, baudRate: u32)
    requires baudRate != 0 && NoWrap(periphClk, baudRate)
    requires baudRate as int % 2 == 0 && periphClk as int % baudRate as int == baudRate as int / 2
    ensures ComputeUartBd(periphClk, baudRate) as int == (periphClk as int / baudRate as int + 1) % U16
  {
    var clk, baud := periphClk as int, baudRate as int;
    var q := clk / baud + 1;
    assert clk == (clk / baud) * baud + baud / 2;
    assert (2 * q - 1) * baud == 2 * ((clk / baud) * baud) + baud;
    assert (2 * q + 1) * baud == 2 * ((clk / baud) * baud) + 3 * baud;
    DivisorTruncatesNearest(periphClk, baudRate, q);
  }

  /** A larger divisor never has a larger nearest quotient. */
  lemma NearestNonIncreasing(clk: int, b1: int, b2: int, q1: int, q2: int)
    requires 0 <= clk && 0 < b1 <= b2
    requires NearestTiesUp(clk, b1, q1) && NearestTiesUp(clk, b2, q2)
    ensures q2 <= q1
  {
    if q1 < 0 {
      MulMono(2 * q1 + 1, -1, b1);
    } else if q1 < q2 {
      MulMono(b1, b2, 2 * q1 + 1);
      MulMono(2 * q1 + 1, 2 * q2 - 1, b2);
    }
  }

  /** For a fixed clock, a higher baud rate never gives a larger divisor; when
      the sum wraps at the higher rate the divisor drops to 0. */
  lemma DivisorNonIncreasing(periphClk: u32, baud1: u32, baud2: u32)
    requires 0 < baud1 <= baud2
    requires InRange(periphClk, baud1)
    ensures ComputeUartBd(periphClk, baud2) <= ComputeUartBd(periphClk, baud1)
  {
    if !NoWrap(periphClk, baud2) {
      WrapGivesZero(periphClk, baud2);
    } else {
      NoWrapNonIncreasing(periphClk, baud1, baud2);
    }
  }

  /** The no-wrap case of DivisorNonIncreasing. */
  lemma NoWrapNonIncreasing(periphClk: u32, baud1: u32, baud2: u32)
    requires 0 < baud1 <= baud2
    requires InRange(periphClk, baud1) && NoWrap(periphClk, baud2)
    ensures ComputeUartBd(periphClk, baud2) <= ComputeUartBd(periphClk, baud1)
  {
    var clk, b1, b2 := periphClk as int, baud1 as int, baud2 as int;
    var q1 := (clk + b1 / 2) / b1;
    var q2 := (clk + b2 / 2) / b2;
    assert q2 <= q1 by {
      RoundHalfUpIsNearest(clk, b1);
      RoundHalfUpIsNearest(clk, b2);
      NearestNonIncreasing(clk, b1, b2, q1, q2);
    }
    assert InRange(periphClk, baud2);
    DivisorExact(periphClk, baud1);
    DivisorExact(periphClk, baud2);
  }

  /** Whenever `PeriphClk + BaudRate/2` wraps around 32 bits, the wrapped sum
      is below the baud rate and the divisor is 0. */
  lemma WrapGivesZero(periphClk: u32, baudRate: u32)
    requires baudRate != 0 && !NoWrap(periphClk, baudRate)
    ensures ComputeUartBd(periphClk, baudRate) == 0
  {
    var sum := periphClk as int + baudRate as int / 2;
    assert sum % U32 == sum - U32;
    assert sum - U32 < baudRate as int;
  }

  /** One instance of WrapGivesZero: the sum wraps for a clock near 2^32: 0xFFFFFFFF over 3 is exactly
      1431655765 (0x55555555), whose low 16 bits are 0x5555, yet the sum
      0xFFFFFFFF + 1 wraps to 0 and the divisor comes out 0. */
  lemma WrapLosesDivisor()
    ensures !NoWrap(0xFFFF_FFFF, 3)
    ensures NearestTiesUp(0xFFFF_FFFF, 3, 0x5555_5555)
    ensures ComputeUartBd(0xFFFF_FFFF, 3) == 0 && 0x5555_5555 % U16 == 0x5555
  {
  }
}

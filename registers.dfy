/** Register blocks of the STM32 peripherals that the transmit-only UART
    bring-up touches, and the bit-field vocabulary used to state what each
    read-modify-write does.

    Each memory-mapped register block (GPIO_TypeDef, RCC_TypeDef,
    USART_TypeDef) is a class whose fields are the block's 32-bit registers.
    Base addresses, pointer casts and volatile access are not modelled: a
    register is a field, a register write is a field assignment. */
module Registers {

  /** GPIO port register block (GPIO_TypeDef). */
  class Gpio {
    var MODER: bv32    // mode, two bits per pin
    var OTYPER: bv32
    var OSPEEDR: bv32
    var PUPDR: bv32
    var IDR: bv32
    var ODR: bv32
    var BSRR: bv32
    var LCKR: bv32
    var AFRL: bv32     // alternate function selector, four bits per pin, pins 0-7
    var AFRH: bv32     // the same for pins 8-15
  }

  /** Reset and clock control block (RCC_TypeDef); the reserved padding words
      are not fields. */
  class Rcc {
    var CR: bv32
    var PLLCFGR: bv32
    var CFGR: bv32
    var CIR: bv32
    var AHB1RSTR: bv32
    var AHB2RSTR: bv32
    var AHB3RSTR: bv32
    var APB1RSTR: bv32
    var APB2RSTR: bv32
    var AHB1ENR: bv32  // AHB1 peripheral clock enables
    var AHB2ENR: bv32
    var AHB3ENR: bv32
    var APB1ENR: bv32  // APB1 peripheral clock enables
    var APB2ENR: bv32
    var AHB1LPENR: bv32
    var AHB2LPENR: bv32
    var AHB3LPENR: bv32
    var APB1LPENR: bv32
    var APB2LPENR: bv32
    var BDCR: bv32
    var CSR: bv32
    var SSCGR: bv32
    var PLLI2SCFGR: bv32
    var PLLSAICFGR: bv32
    var DCKCFGR: bv32
  }

  /** USART register block (USART_TypeDef). */
  class Usart {
    var SR: bv32       // status
    var DR: bv32       // data
    var BRR: bv32      // baud rate divisor
    var CR1: bv32      // control 1
    var CR2: bv32
    var CR3: bv32
    var GTPR: bv32
  }

  // Bit masks of the registers the bring-up touches, each written as the
  // 32-bit value that has exactly the named bits set.

  /** RCC AHB1ENR bit 0: clock to GPIOA. */
  const GPIOAEN: bv32 := 0x0000_0001
  /** RCC APB1ENR bit 17: clock to USART2. */
  const USART2EN: bv32 := 0x0002_0000
  /** GPIO MODER bits 5:4, the mode field of pin 2. */
  const MODER2_MASK: bv32 := 0x0000_0030
  /** The PA2 mode field holding 0b10, "alternate function". */
  const MODER2_ALTERNATE: bv32 := 0x0000_0020
  /** GPIO AFRL bits 11:8, the alternate-function selector of pin 2. */
  const AFRL2_MASK: bv32 := 0x0000_0F00
  /** The PA2 selector holding 0b0111, AF7, which routes PA2 to USART2_TX. */
  const AFRL2_AF7: bv32 := 0x0000_0700
  /** USART CR1 bit 3: transmitter enable. */
  const CR1_TE: bv32 := 0x0000_0008
  /** USART CR1 bit 13: USART enable. */
  const CR1_UE: bv32 := 0x0000_2000
  /** USART SR bit 7: transmit data register empty. */
  const SR_TXE: bv32 := 0x0000_0080

  /** Every bit of `r` outside `mask` equals the same bit of `s`. */
  predicate SameOutside(r: bv32, s: bv32, mask: bv32)
  {
    r & !mask == s & !mask
  }

  /** Register `r` with its field `mask` set to `v` (a value already in
      place within the field) and nothing else changed: the reference meaning of a
      read-modify-write on one bit field. */
  function WithField(r: bv32, mask: bv32, v: bv32): (r': bv32)
    requires v & !mask == 0
    ensures r' & mask == v
    ensures SameOutside(r', r, mask)
  {
    (r & !mask) | v
  }

  /** Writing the same value into a field twice is writing it once. */
  lemma WithFieldIdempotent(r: bv32, mask: bv32, v: bv32)
    requires v & !mask == 0
    ensures WithField(WithField(r, mask, v), mask, v) == WithField(r, mask, v)
  {
  }
}

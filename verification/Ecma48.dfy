/** Control sequences in the sense of section 5.4 of ECMA-48. */
module Ecma48 {
  import opened Decimal

  const ESC: byte := 0x1b
  const BRACKET: byte := 0x5b   // '[', which opens a control sequence after ESC
  const SEMICOLON: byte := 0x3b

  /** The byte that ends a control sequence. */
  predicate IsFinal(b: byte) { 0x40 <= b <= 0x7e }
}

/** Machine sizes, the program start address and the built-in hexadecimal font
    of a CHIP-8 interpreter, as declared at the top of chip8_core/src/lib.rs. */
module Chip8 {

  /** Rust's `u8`: an unsigned 8-bit value. */
  newtype u8 = x: int | 0 <= x < 0x100

  /** Rust's `u16`: an unsigned 16-bit value. */
  newtype u16 = x: int | 0 <= x < 0x1_0000

  /** The original display is 64 pixels wide and 32 pixels high. */
  const SCREEN_WIDTH: nat := 64
  const SCREEN_HEIGHT: nat := 32
  const SCREEN_SIZE: nat := SCREEN_WIDTH * SCREEN_HEIGHT

  /** 4 KB of byte-addressed RAM. */
  const RAM_SIZE: nat := 4096

  /** Sixteen general purpose 8-bit registers V0..VF. */
  const NUM_REGISTERS: nat := 16

  /** Capacity of the return-address stack. */
  const STACK_SIZE: nat := 16

  /** The hexadecimal keypad has sixteen keys. */
  const NUM_KEYS: nat := 16

  /** Programs are loaded, and execution begins, at 0x200. */
  const START_ADDRESS: u16 := 0x200

  /** Sixteen glyphs of five bytes each. */
  const GLYPH_HEIGHT: nat := 5
  const NUM_SPRITES: nat := 16 * GLYPH_HEIGHT

  /** The font table: one five-row glyph per hexadecimal digit 0..F, in digit
      order. Each byte is one row; its most significant bit is the leftmost pixel. */
  const SPRITES: seq<u8> := [
    0xF0, 0x90, 0x90, 0x90, 0xF0, // 0
    0x20, 0x60, 0x20, 0x20, 0x70, // 1
    0xF0, 0x10, 0xF0, 0x80, 0xF0, // 2
    0xF0, 0x10, 0xF0, 0x10, 0xF0, // 3
    0x90, 0x90, 0xF0, 0x10, 0x10, // 4
    0xF0, 0x80, 0xF0, 0x10, 0xF0, // 5
    0xF0, 0x80, 0xF0, 0x90, 0xF0, // 6
    0xF0, 0x10, 0x20, 0x40, 0x40, // 7
    0xF0, 0x90, 0xF0, 0x90, 0xF0, // 8
    0xF0, 0x90, 0xF0, 0x10, 0xF0, // 9
    0xF0, 0x90, 0xF0, 0x90, 0x90, // A
    0xE0, 0x90, 0xE0, 0x90, 0xE0, // B
    0xF0, 0x80, 0x80, 0x80, 0xF0, // C
    0xE0, 0x90, 0x90, 0x90, 0xE0, // D
    0xF0, 0x80, 0xF0, 0x80, 0xF0, // E
    0xF0, 0x80, 0xF0, 0x80, 0x80  // F
  ]
}

# CHIP-8 machine state in Dafny

A model of the machine-state half of the `chip8_core` CHIP-8 interpreter
(`chip8_core/src/lib.rs`): the machine sizes and the built-in hexadecimal font
table, and the `Emu` structure with its four operations: `new`, `reset`,
`push` and `pop`. `Emu` holds these parts:

- a 4096-byte RAM;
- a 64×32 monochrome framebuffer;
- sixteen 8-bit V registers and the 16-bit index register I;
- the program counter;
- a sixteen-slot return-address stack with a separate stack pointer;
- sixteen key flags;
- the delay and sound timers.

Files:

- `chip8.dfy` (module `Chip8`): the constants of `lib.rs` and the font table
  `SPRITES`. Rust's `u8` and `u16` are newtypes with their exact ranges.
- `call_stack.dfy` (module `CallStack`): the return-address stack as a value.
  It holds the sixteen slots and the pointer, with `Push` and `Pop` as
  functions. `Run` applies a sequence of pushes and pops. `ListRun` is an
  independent reference stack that works on a plain list. The lemmas prove
  that the two agree, that the stack is last-in-first-out, and that it holds
  exactly sixteen entries.
- `emulator.dfy` (module `Emulator`): `Machine`, the whole state as a value.
  `NewMachine` is the state `Emu::new` builds. `Emu` is a class whose Rust
  arrays are Dafny arrays, updated in place. Each method's postcondition
  gives the new `State()` as a function of the old one.

Rust aborts the program when `push` indexes past the sixteenth slot or when
`pop` decrements a zero `u16` stack pointer. Both `Push` functions and methods
return the error `Overflow` in the first case, and both `Pop`s return
`Underflow` in the second. In either case the state is left unchanged, and
the check happens before anything is written.

## Model

| member | source | states |
|---|---|---|
| `CallStack.Push` | chip8_core/src/lib.rs:91-94 | succeeds exactly when the pointer is below 16, otherwise reports `Overflow`. On success it writes `v` at the old pointer's slot, leaves every other slot alone and adds 1 to the pointer. So the live entries become the old ones followed by `v`. |
| `CallStack.Pop` | chip8_core/src/lib.rs:95-98 | succeeds exactly when the pointer is above 0, otherwise reports `Underflow`. On success the pointer drops by 1, the slots are unchanged, and the result is the slot at the new pointer. So the remaining live entries followed by the result are the old live entries. |
| `CallStack.PushThenPop` | chip8_core/src/lib.rs:91-98 | a pop right after a successful push returns the pushed value and restores the pointer and the live entries |
| `CallStack.Run` | chip8_core/src/lib.rs:91-98 | any sequence of pushes and pops that succeeds ends with sixteen slots and a pointer between 0 and 16 |
| `CallStack.RunMatchesList` | chip8_core/src/lib.rs:91-98 | on every sequence of operations, the slot-and-pointer stack fails exactly when a plain list stack of capacity 16 fails, with the same error. Otherwise it pops the same values in the same order and ends with the same live entries. |
| `CallStack.PushesThenPopsReturnReversed` | chip8_core/src/lib.rs:91-98 | LIFO order: pushing any values that fit and then popping as many times succeeds, returns them newest first, and restores the pointer and the live entries |
| `CallStack.PushesFromEmpty` | chip8_core/src/lib.rs:91-94 | from the empty stack, a run of pushes succeeds exactly when there are at most 16 of them. A 17th push is an `Overflow`, never a write. |
| `CallStack.PopEmptyUnderflows` | chip8_core/src/lib.rs:95-96 | popping the empty stack is an `Underflow` error, not a default value |
| `Emulator.NewMachine` | chip8_core/src/lib.rs:62-76 | the new machine has RAM of 4096 bytes, 2048 pixels, 16 registers, 16 keys and a valid stack |
| `Emulator.NewMachineIsCleared` | chip8_core/src/lib.rs:62-74 | a new machine has PC 0x200. I, the stack pointer and both timers are 0. Every V register and stack slot is 0, and every key and pixel is off. |
| `Emulator.NewMachineFont` | chip8_core/src/lib.rs:27-45 | a new machine's RAM 0..80 is the font table, with the glyph of hex digit d at 5d..5d+5. RAM 80..4096 is all zero. |
| `Emulator.Emu.constructor` | chip8_core/src/lib.rs:62-77 | `Emu::new` allocates fresh arrays and produces exactly `NewMachine()` |
| `Emulator.Emu.Reset` | chip8_core/src/lib.rs:78-90 | from any state, `reset` produces exactly `NewMachine()`: screen cleared, keys cleared, font reloaded. It writes into the same arrays without reallocating them. |
| `Emulator.Emu.Push` | chip8_core/src/lib.rs:91-94 | on success only the call stack changes, exactly as `CallStack.Push` says. On a full stack it reports `Overflow` and changes nothing. |
| `Emulator.Emu.Pop` | chip8_core/src/lib.rs:95-98 | on success only the stack pointer changes, exactly as `CallStack.Pop` says, and the popped value is returned. On an empty stack it reports `Underflow` and changes nothing. |
| `Emulator.LoadFont` | chip8_core/src/lib.rs:75 | copying the font puts the table in RAM 0..80 and leaves the rest of RAM untouched |
| `Emulator.ResetTwice` | chip8_core/src/lib.rs:78-90 | `reset` is idempotent: a second reset leaves the state the first one produced |
| `Emulator.PushThenPopOnEmu` | chip8_core/src/lib.rs:91-98 | on an `Emu` whose stack is not full, `push(v)` then `pop()` returns `v`. It restores the stack pointer and the live return addresses and changes nothing outside the stack. |

## Left out

- Instruction fetch, decode and execute, the timer countdown and the key setters. `chip8_core/src/lib.rs` has none of them (no `tick`, no opcode handling, no `decrement_timers`, no `set_key`). The fields they would use are modelled; their behaviour is not.
- Random numbers, program loading, rendering, audio and the host loop are I/O outside this file.
- The `Push` and `Pop` members report a Rust panic as an error result and leave the state unchanged. The program abort itself, the unwinding, and the wrap-around of `stack_pointer -= 1` in a release build (which then panics on the out-of-range index) are not modelled.
- `CallStack.Push`, `CallStack.Pop` and `CallStack.Run` require a valid stack: sixteen slots and a pointer of at most 16. The Rust type fixes the slot count. A pointer above 16 is unreachable, since every `Emu` operation keeps `Valid()`, so the behaviour of `pop` on such a pointer is not modelled.
- `copy_from_slice` and the whole-array literal assignments in `reset` are aggregate `forall` assignments into the existing arrays.

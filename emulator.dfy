/** The `Emu` machine state of chip8_core/src/lib.rs: a class whose fixed-size
    Rust arrays are Dafny arrays, with `new`, `reset`, `push` and `pop`. Its
    contents are described by a value, `Machine`, so that what the methods do can
    be stated as functions of the state before the call. */
module Emulator {
  import opened Chip8
  import CallStack

  /** Everything an `Emu` holds, as a value. */
  datatype Machine = Machine(
    pc: u16,
    ram: seq<u8>,
    screen: seq<bool>,
    vReg: seq<u8>,
    iReg: u16,
    calls: CallStack.Stack,
    keys: seq<bool>,
    delayTimer: u8,
    soundTimer: u8)
  {
    /** The fixed sizes of the Rust arrays, and a stack pointer within capacity. */
    predicate Valid() {
      |ram| == RAM_SIZE && |screen| == SCREEN_SIZE && |vReg| == NUM_REGISTERS &&
      calls.Valid() && |keys| == NUM_KEYS
    }
  }

  /** RAM as `new` and `reset` leave it: zero-filled, then the font table copied
      to offsets 0 .. NUM_SPRITES. */
  function InitialRam(): seq<u8> {
    seq(RAM_SIZE, i requires 0 <= i < RAM_SIZE => if i < NUM_SPRITES then SPRITES[i] else 0)
  }

  /** The machine `Emu::new` builds. */
  function NewMachine(): (m: Machine)
    ensures m.Valid()
  {
    Machine(
      START_ADDRESS,
      InitialRam(),
      seq(SCREEN_SIZE, _ => false),
      seq(NUM_REGISTERS, _ => 0),
      0,
      CallStack.EMPTY,
      seq(NUM_KEYS, _ => false),
      0,
      0)
  }

  /** A new machine starts at 0x200 with every register, timer, stack slot, key
      and pixel zero or off. */
  lemma NewMachineIsCleared()
    ensures NewMachine().pc == 0x200
    ensures NewMachine().iReg == 0 && NewMachine().calls.sp == 0
    ensures NewMachine().delayTimer == 0 && NewMachine().soundTimer == 0
    ensures forall r :: 0 <= r < NUM_REGISTERS ==> NewMachine().vReg[r] == 0
    ensures forall i :: 0 <= i < STACK_SIZE ==> NewMachine().calls.slots[i] == 0
    ensures NewMachine().calls.Live() == []
    ensures forall k :: 0 <= k < NUM_KEYS ==> !NewMachine().keys[k]
    ensures forall p :: 0 <= p < SCREEN_SIZE ==> !NewMachine().screen[p]
  {
  }

  /** A new machine holds the font table at the bottom of RAM, the five-byte glyph
      of hex digit d at 5*d, and zeros everywhere else. */
  lemma NewMachineFont(d: nat)
    requires d < 16
    ensures NewMachine().ram[..NUM_SPRITES] == SPRITES
    ensures NewMachine().ram[GLYPH_HEIGHT * d .. GLYPH_HEIGHT * d + GLYPH_HEIGHT]
         == SPRITES[GLYPH_HEIGHT * d .. GLYPH_HEIGHT * d + GLYPH_HEIGHT]
    ensures forall i :: NUM_SPRITES <= i < RAM_SIZE ==> NewMachine().ram[i] == 0
  {
  }

  /** The CHIP-8 machine state. Every array keeps its Rust length; `ram` and
      `vReg`, and `screen` and `keys`, are distinct arrays. */
  class Emu {
    var programCounter: u16
    var ram: array<u8>
    var screen: array<bool>
    var vReg: array<u8>
    var iReg: u16
    var stackPointer: u16
    var stack: array<u16>
    var keys: array<bool>
    var delayTimer: u8
    var soundTimer: u8

    ghost predicate Valid()
      reads this
    {
      ram.Length == RAM_SIZE && screen.Length == SCREEN_SIZE &&
      vReg.Length == NUM_REGISTERS && stack.Length == STACK_SIZE &&
      keys.Length == NUM_KEYS &&
      ram != vReg && screen != keys &&
      stackPointer as int <= STACK_SIZE
    }

    /** The value this object holds. */
    ghost function State(): (m: Machine)
      reads this, ram, screen, vReg, stack, keys
      requires Valid()
      ensures m.Valid()
    {
      Machine(programCounter, ram[..], screen[..], vReg[..], iReg,
              CallStack.Stack(stack[..], stackPointer as nat), keys[..],
              delayTimer, soundTimer)
    }

    /** `Emu::new`: the program counter at START_ADDRESS, every other field
        zero, and the font table copied into RAM. */
    constructor ()
      ensures Valid() && State() == NewMachine()
      ensures fresh(ram) && fresh(screen) && fresh(vReg) && fresh(stack) && fresh(keys)
    {
      programCounter := START_ADDRESS;
      ram := new u8[RAM_SIZE](_ => 0);
      screen := new bool[SCREEN_SIZE](_ => false);
      vReg := new u8[NUM_REGISTERS](_ => 0);
      iReg := 0;
      stackPointer := 0;
      stack := new u16[STACK_SIZE](_ => 0);
      keys := new bool[NUM_KEYS](_ => false);
      delayTimer := 0;
      soundTimer := 0;
      new;
      LoadFont(ram);
      assert ram[..] == InitialRam();
      assert stack[..] == CallStack.EMPTY.slots;
    }

    /** `reset`: every field back to its value in a new machine, the arrays
        overwritten in place rather than replaced, the font reloaded. */
    method Reset()
      requires Valid()
      modifies this, ram, screen, vReg, stack, keys
      ensures Valid() && State() == NewMachine()
      ensures ram == old(ram) && screen == old(screen) && vReg == old(vReg)
      ensures stack == old(stack) && keys == old(keys)
    {
      programCounter := START_ADDRESS;
      Fill(ram, 0);
      Fill(screen, false);
      Fill(vReg, 0);
      iReg := 0;
      stackPointer := 0;
      Fill(stack, 0);
      Fill(keys, false);
      delayTimer := 0;
      soundTimer := 0;
      LoadFont(ram);
      assert ram[..] == InitialRam();
    }

    /** `push`: on success exactly the call stack changes, as CallStack.Push
        says; on a full stack nothing changes and the overflow is reported. */
    method Push(val: u16) returns (r: CallStack.Result<()>)
      requires Valid()
      modifies this`stackPointer, stack
      ensures Valid()
      ensures r.Ok? <==> old(stackPointer) as int < STACK_SIZE
      ensures r.Err? ==> r.error == CallStack.Overflow && State() == old(State())
      ensures r.Ok? ==> State() == old(State()).(calls := CallStack.Push(old(State()).calls, val).value)
    {
      if stackPointer as int >= stack.Length {
        return CallStack.Err(CallStack.Overflow);
      }
      stack[stackPointer] := val;
      stackPointer := stackPointer + 1;
      r := CallStack.Ok(());
    }

    /** `pop`: on success only the stack pointer changes, as CallStack.Pop says,
        and the popped address is returned; on an empty stack nothing changes
        and the underflow is reported. */
    method Pop() returns (r: CallStack.Result<u16>)
      requires Valid()
      modifies this`stackPointer
      ensures Valid()
      ensures r.Ok? <==> old(stackPointer) > 0
      ensures r.Err? ==> r.error == CallStack.Underflow && State() == old(State())
      ensures r.Ok? ==>
                var p := CallStack.Pop(old(State()).calls).value;
                r.value == p.top && State() == old(State()).(calls := p.rest)
    {
      if stackPointer == 0 {
        return CallStack.Err(CallStack.Underflow);
      }
      stackPointer := stackPointer - 1;
      r := CallStack.Ok(stack[stackPointer]);
    }
  }

  /** A whole-array assignment `a = [v; N]`, done in place. */
  method Fill<T>(a: array<T>, v: T)
    modifies a
    ensures a[..] == seq(a.Length, _ => v)
  {
    forall i | 0 <= i < a.Length { a[i] := v; }
  }

  /** `copy_from_slice` of the font table onto the bottom of RAM. */
  method LoadFont(ram: array<u8>)
    requires ram.Length == RAM_SIZE
    modifies ram
    ensures ram[..NUM_SPRITES] == SPRITES
    ensures forall i :: NUM_SPRITES <= i < RAM_SIZE ==> ram[i] == old(ram[i])
  {
    forall i | 0 <= i < NUM_SPRITES { ram[i] := SPRITES[i]; }
  }

  /** Resetting twice leaves the same machine as resetting once. */
  method ResetTwice(emu: Emu)
    requires emu.Valid()
    modifies emu, emu.ram, emu.screen, emu.vReg, emu.stack, emu.keys
    ensures emu.Valid() && emu.State() == NewMachine()
  {
    emu.Reset();
    ghost var once := emu.State();
    emu.Reset();
    assert emu.State() == once;
  }

  /** On a machine whose stack is not full, `push(v)` then `pop()` returns `v`
      and gives back the stack pointer and the live return addresses; nothing
      outside the stack changes. */
  method PushThenPopOnEmu(emu: Emu, v: u16) returns (r: CallStack.Result<u16>)
    requires emu.Valid() && emu.stackPointer as int < STACK_SIZE
    modifies emu`stackPointer, emu.stack
    ensures emu.Valid() && r == CallStack.Ok(v)
    ensures emu.stackPointer == old(emu.stackPointer)
    ensures emu.State().calls.Live() == old(emu.State().calls.Live())
    ensures emu.State() == old(emu.State()).(calls := emu.State().calls)
  {
    ghost var before := emu.State().calls;
    var pushed := emu.Push(v);
    r := emu.Pop();
    CallStack.PushThenPop(before, v);
  }
}

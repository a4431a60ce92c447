/** The CHIP-8 interpreter object: memory, registers, stack, timers, and the display and keyboard
    it owns, updated in place one instruction at a time. Every state-changing method is proved to
    move the abstract State() exactly as the reference semantics in module Machine says. */
module Vm {
  import opened Bytes
  import opened Machine
  import Display
  import Keyboard

  class VM {
    const memory: array<byte>
    const v: array<byte>
    var i: word
    const stack: array<word>
    var sp: byte
    var pc: word
    var delayTimer: byte
    var soundTimer: byte
    const display: Display.Display
    const keyboard: Keyboard.Keyboard

    ghost predicate Valid()
      reads this, display, keyboard
    {
      memory.Length == MemorySize && v.Length == RegisterCount && stack.Length == StackDepth &&
      sp <= 16 && display.Valid() && keyboard.Valid() &&
      // The five arrays are distinct objects.
      memory != v && memory != display.pixels && v != display.pixels &&
      stack as object != memory && stack as object != v && stack as object != display.pixels &&
      keyboard.keys as object != memory && keyboard.keys as object != v &&
      keyboard.keys as object != stack && keyboard.keys as object != display.pixels
    }

    /** The abstract machine state. */
    ghost function State(): State
      reads this, memory, v, stack, display, display.pixels, keyboard, keyboard.keys
    {
      Machine.State(memory[..], v[..], i, stack[..], sp, pc, delayTimer, soundTimer,
                    display.pixels[..], keyboard.keys[..])
    }

    /** A new VM is Go's zero value: everything zero, including pc. */
    constructor ()
      ensures Valid() && fresh(memory) && fresh(v) && fresh(stack)
      ensures fresh(display) && fresh(display.pixels) && fresh(keyboard) && fresh(keyboard.keys)
      ensures State() == Zero()
    {
      memory := new byte[MemorySize](_ => 0);
      v := new byte[RegisterCount](_ => 0);
      stack := new word[StackDepth](_ => 0);
      i, sp, pc, delayTimer, soundTimer := 0, 0, 0, 0, 0;
      display := new Display.Display();
      keyboard := new Keyboard.Keyboard();
    }

    /** Reinstalls the font table, zeroes memory, registers, stack and timers, puts pc at 0x200,
        and clears the display and the keyboard. */
    method Reset()
      requires Valid()
      modifies this, memory, v, stack, display.pixels, keyboard.keys
      ensures Valid()
      ensures State() == ResetState()
    {
      for a := 0 to memory.Length
        invariant forall b :: 0 <= b < a ==> memory[b] == ResetState().memory[b]
      {
        if a < 80 {
          memory[a] := Display.Fonts[a];
        } else {
          memory[a] := 0;
        }
      }
      assert memory[..] == ResetState().memory;
      for r := 0 to v.Length
        invariant forall b :: 0 <= b < r ==> v[b] == 0
        invariant memory[..] == ResetState().memory
      {
        v[r] := 0;
      }
      assert v[..] == ResetState().v;
      for d := 0 to stack.Length
        invariant forall b :: 0 <= b < d ==> stack[b] == 0
        invariant memory[..] == ResetState().memory
        invariant v[..] == ResetState().v
      {
        stack[d] := 0;
      }
      assert stack[..] == ResetState().stack;
      i := 0;
      sp := 0;
      pc := ProgramStart;
      delayTimer := 0;
      soundTimer := 0;
      display.Reset();
      keyboard.Reset();
      assert memory[..] == ResetState().memory;
      assert v[..] == ResetState().v;
      assert stack[..] == ResetState().stack;
      assert display.pixels[..] == ResetState().pixels;
      assert keyboard.keys[..] == ResetState().keys;
    }

    /** Reads the big-endian opcode at pc; Go panics unless pc + 1 is inside memory. */
    method Fetch() returns (opcode: word)
      requires Valid() && pc as int + 1 < MemorySize
      ensures opcode == Machine.Fetch(State().memory, pc)
    {
      opcode := (memory[pc] as int * 0x100 + memory[pc as int + 1] as int) as word;
    }

    /** Runs one instruction. `rnd` stands for the byte rand.Intn(256) would return to Cxkk. */
    method Execute(opcode: word, rnd: byte)
      requires Valid() && Safe(State(), opcode)
      modifies this, memory, v, stack, display.pixels
      ensures Valid()
      ensures State() == Exec(old(State()), opcode, rnd)
    {
      var x, y, nnn, kk := X(opcode), Y(opcode), Nnn(opcode), Kk(opcode);
      pc := AddWord(pc, 2);
      var g := Group(opcode);
      if g == 0x0 {
        ExecuteSystem(opcode);
      } else if g == 0x1 {
        pc := nnn;
      } else if g == 0x2 {
        stack[sp] := pc;
        pc := nnn;
        sp := sp + 1;
      } else if g == 0x3 {
        if v[x] == kk {
          pc := AddWord(pc, 2);
        }
      } else if g == 0x4 {
        if v[x] != kk {
          pc := AddWord(pc, 2);
        }
      } else if g == 0x5 {
        if v[x] == v[y] {
          pc := AddWord(pc, 2);
        }
      } else if g == 0x6 {
        v[x] := kk;
      } else if g == 0x7 {
        v[x] := AddByte(v[x], kk);
      } else if g == 0x8 {
        ExecuteAlu(opcode);
      } else if g == 0x9 {
        if v[x] != v[y] {
          pc := AddWord(pc, 2);
        }
      } else if g == 0xA {
        i := nnn;
      } else if g == 0xB {
        pc := AddWord(nnn, v[0] as word);
      } else if g == 0xC {
        v[x] := AndByte(rnd, kk);
      } else if g == 0xD {
        ExecuteDraw(opcode);
      } else if g == 0xE {
        ExecuteKey(opcode);
      } else {
        ExecuteMisc(opcode);
      }
    }

    /** Group 0 (00E0 CLS, 00EE RET), on the state after pc += 2. */
    method ExecuteSystem(opcode: word)
      requires Valid() && Group(opcode) == 0x0 && Safe(State(), opcode)
      modifies this, display.pixels
      ensures Valid()
      ensures State() == ExecSystem(old(State()), opcode)
    {
      var sub := N(opcode);
      if sub == 0x0 {
        display.Reset();
      } else if sub == 0xE {
        sp := sp - 1;
        pc := stack[sp];
      }
    }

    /** Group 8, on the state after pc += 2: the register writes in the source's order. */
    method ExecuteAlu(opcode: word)
      requires Valid() && Group(opcode) == 0x8
      modifies v
      ensures State() == old(State()).(v := ExecAlu(old(v[..]), opcode))
    {
      var x, y, sub := X(opcode), Y(opcode), N(opcode);
      if sub == 0x0 {
        v[x] := v[y];
      } else if sub == 0x1 {
        v[x] := OrByte(v[x], v[y]);
      } else if sub == 0x2 {
        v[x] := AndByte(v[x], v[y]);
      } else if sub == 0x3 {
        v[x] := XorByte(v[x], v[y]);
      } else if sub == 0x4 {
        v[Flag] := 0;
        if v[x] > 0xFF - v[y] {
          v[Flag] := 1;
        }
        v[x] := AddByte(v[x], v[y]);
      } else if sub == 0x5 {
        v[Flag] := 0;
        if v[x] > v[y] {
          v[Flag] := 1;
        }
        v[x] := SubByte(v[x], v[y]);
      } else if sub == 0x6 {
        v[Flag] := AndByte(v[x], 0x01);
        v[x] := ShrByte(v[x], 1);
      } else if sub == 0x7 {
        v[Flag] := 0;
        if v[y] > v[x] {
          v[Flag] := 1;
        }
        v[x] := SubByte(v[y], v[x]);
      } else if sub == 0xE {
        v[Flag] := AndByte(v[x], 0x80);
        v[x] := ShlByte(v[x]);
      }
    }

    /** Dxyn, on the state after pc += 2. */
    method ExecuteDraw(opcode: word)
      requires Valid() && Group(opcode) == 0xD && Safe(State(), opcode)
      modifies v, display.pixels
      ensures State() == ExecDraw(old(State()), opcode)
    {
      var x, y, n := X(opcode), Y(opcode), N(opcode);
      var sprite := memory[i .. i as int + n];
      v[Flag] := 0;
      var collision := display.Draw(v[x] as nat, v[y] as nat, sprite);
      if collision {
        v[Flag] := 1;
      }
    }

    /** Group E (Ex9E SKP, ExA1 SKNP), on the state after pc += 2. */
    method ExecuteKey(opcode: word)
      requires Valid() && Group(opcode) == 0xE && Safe(State(), opcode)
      modifies this
      ensures State() == ExecKey(old(State()), opcode)
    {
      var x, sub := X(opcode), Kk(opcode);
      if sub == 0x9E {
        if keyboard.IsPressed(v[x]) {
          pc := AddWord(pc, 2);
        }
      } else if sub == 0xA1 {
        if !keyboard.IsPressed(v[x]) {
          pc := AddWord(pc, 2);
        }
      }
    }

    /** Group F, on the state after pc += 2. */
    method ExecuteMisc(opcode: word)
      requires Valid() && Group(opcode) == 0xF && Safe(State(), opcode)
      modifies this, memory, v
      ensures Valid()
      ensures State() == ExecMisc(old(State()), opcode)
    {
      var x, sub := X(opcode), Kk(opcode);
      if sub == 0x07 {
        v[x] := delayTimer;
      } else if sub == 0x0A {
        WaitKey(x);
      } else if sub == 0x15 {
        delayTimer := v[x];
      } else if sub == 0x18 {
        soundTimer := v[x];
      } else if sub == 0x1E {
        i := AddWord(i, v[x] as word);
      } else if sub == 0x29 {
        i := v[x] as word * 5;
      } else if sub == 0x33 {
        memory[i] := v[x] / 100;
        memory[i as int + 1] := (v[x] / 10) % 10;
        memory[i as int + 2] := (v[x] % 100) % 10;
      } else if sub == 0x55 {
        StoreRegisters(x);
      } else if sub == 0x65 {
        LoadRegisters(x);
      }
    }

    /** Fx0A: steps pc back so the instruction repeats, then scans keys 0..15 and on the first
        pressed one stores its index in Vx and steps pc forward again. */
    method WaitKey(x: nat)
      requires Valid() && x < 16
      modifies this, v
      ensures Valid()
      ensures var k := FirstPressed(old(State()).keys);
              State() == if k < 16 then old(State()).(v := old(v[..])[x := k as byte])
                         else old(State()).(pc := SubWord(old(pc), 2))
    {
      ghost var keys := keyboard.keys[..];
      pc := SubWord(pc, 2);
      var k: byte := 0;
      while k < 16
        invariant k <= 16
        invariant forall j :: 0 <= j < k as int ==> !keys[j]
        invariant State() == old(State()).(pc := SubWord(old(pc), 2))
        invariant keyboard.keys[..] == keys
      {
        if keyboard.IsPressed(k) {
          v[x] := k;
          pc := AddWord(pc, 2);
          FirstPressedIs(keys, k as nat);
          return;
        }
        k := k + 1;
      }
      FirstPressedIs(keys, 16);
    }

    /** Fx55: copies V0..Vx to memory[i..i+x], one register at a time. */
    method StoreRegisters(x: nat)
      requires Valid() && x < 16 && i as int + x < MemorySize
      modifies memory
      ensures State() == old(State()).(memory := Machine.StoreRegisters(old(memory[..]), i, v[..], x + 1))
    {
      for r := 0 to x + 1
        invariant memory[..] == Machine.StoreRegisters(old(memory[..]), i, v[..], r)
      {
        memory[i as int + r] := v[r];
      }
    }

    /** Fx65: copies memory[i..i+x] to V0..Vx, one register at a time. */
    method LoadRegisters(x: nat)
      requires Valid() && x < 16 && i as int + x < MemorySize
      modifies v
      ensures State() == old(State()).(v := Machine.LoadRegisters(old(v[..]), memory[..], i, x + 1))
    {
      for r := 0 to x + 1
        invariant v[..] == Machine.LoadRegisters(old(v[..]), memory[..], i, r)
      {
        v[r] := memory[i as int + r];
      }
    }

    /** One cycle: fetch, then execute. */
    method Cycle(rnd: byte)
      requires Valid() && pc as int + 1 < MemorySize && Safe(State(), Machine.Fetch(State().memory, pc))
      modifies this, memory, v, stack, display.pixels
      ensures Valid()
      ensures State() == Step(old(State()), rnd)
    {
      var opcode := Fetch();
      Execute(opcode, rnd);
    }

    /** One timer tick: each timer counts down by one and stops at zero. */
    method DecrementTimers()
      requires Valid()
      modifies this
      ensures Valid()
      ensures State() == old(State()).(delayTimer := Countdown(old(delayTimer)),
                                       soundTimer := Countdown(old(soundTimer)))
    {
      if delayTimer > 0 {
        delayTimer := delayTimer - 1;
      }
      if soundTimer > 0 {
        soundTimer := soundTimer - 1;
      }
    }

    /** Writes one byte of memory, as the host does when it loads a program; Go panics when the
        index is outside memory. */
    method SetMemory(index: int, data: byte)
      requires Valid() && 0 <= index < MemorySize
      modifies memory
      ensures Valid()
      ensures State() == old(State()).(memory := old(memory[..])[index := data])
    {
      memory[index] := data;
    }
  }
}

/** What one instruction does, stated on the reference semantics of module Machine: where pc
    goes, what the arithmetic instructions leave in Vx and VF (including the cases where VF is
    itself an operand), and exactly which memory cells and registers the block transfers touch. */
module MachineProofs {
  import opened Bytes
  import opened Machine
  import Display
  import DisplayProofs

  // Program counter.

  /** The opcodes that decide where execution continues: RET, the jumps and CALL, the
      conditional skips and the key wait. */
  predicate ControlFlow(op: word)
  {
    var g := Group(op);
    (g == 0x0 && N(op) == 0xE) || g == 0x1 || g == 0x2 || g == 0xB || IsSkip(op) ||
    (g == 0xF && Kk(op) == 0x0A)
  }

  /** The conditional skips: 3xkk, 4xkk, 5xy0, 9xy0, Ex9E and ExA1. */
  predicate IsSkip(op: word)
  {
    var g := Group(op);
    g == 0x3 || g == 0x4 || g == 0x5 || g == 0x9 || (g == 0xE && (Kk(op) == 0x9E || Kk(op) == 0xA1))
  }

  /** Whether a conditional skip skips: Vx equals kk (3), differs from kk (4), equals Vy (5),
      differs from Vy (9), or the key named by Vx is down (9E) or up (A1). */
  predicate SkipTaken(s: State, op: word)
    requires Wellformed(s) && Safe(s, op) && IsSkip(op)
  {
    var g, vx := Group(op), s.v[X(op)];
    if g == 0x3 then vx == Kk(op)
    else if g == 0x4 then vx != Kk(op)
    else if g == 0x5 then vx == s.v[Y(op)]
    else if g == 0x9 then vx != s.v[Y(op)]
    else if Kk(op) == 0x9E then s.keys[vx]
    else !s.keys[vx]
  }

  /** Every opcode that is not a control-flow opcode leaves pc at the next instruction. */
  lemma SequentialAdvancesPc(s: State, op: word, rnd: byte)
    requires Wellformed(s) && Safe(s, op) && !ControlFlow(op)
    ensures Exec(s, op, rnd).pc == AddWord(s.pc, 2)
  {
  }

  /** A conditional skip changes nothing but pc, which moves on by 4 exactly when the
      condition holds and by 2 otherwise (modulo 2^16). */
  lemma SkipMovesOnlyPc(s: State, op: word, rnd: byte)
    requires Wellformed(s) && Safe(s, op) && IsSkip(op)
    ensures Exec(s, op, rnd) == s.(pc := if SkipTaken(s, op) then AddWord(s.pc, 4) else AddWord(s.pc, 2))
  {
    assert AddWord(AddWord(s.pc, 2), 2) == AddWord(s.pc, 4);
  }

  /** CALL pushes the address of the next instruction and jumps; a RET right after it pops that
      address, so the pair amounts to stepping over the CALL (the vacated slot keeps the address). */
  lemma CallThenReturn(s: State, call: word, ret: word, rnd: byte)
    requires Wellformed(s) && Group(call) == 0x2 && s.sp < 16
    requires Group(ret) == 0x0 && N(ret) == 0xE
    ensures var c := Exec(s, call, rnd);
            c.pc == Nnn(call) && c.sp == s.sp + 1 && c.stack[s.sp] == AddWord(s.pc, 2) &&
            Safe(c, ret) &&
            Exec(c, ret, rnd) == s.(pc := AddWord(s.pc, 2), stack := s.stack[s.sp := AddWord(s.pc, 2)])
  {
  }

  /** CALL on its own, from any state with a free slot: the address of the next instruction goes
      into slot sp, sp grows by one and pc becomes nnn. */
  lemma CallPushes(s: State, op: word, rnd: byte)
    requires Wellformed(s) && Group(op) == 0x2 && s.sp < 16
    ensures Safe(s, op)
    ensures Exec(s, op, rnd) == s.(stack := s.stack[s.sp := AddWord(s.pc, 2)], sp := s.sp + 1, pc := Nnn(op))
  {
  }

  /** RET on its own, from any state with a pushed address: sp drops by one and pc becomes the
      address in the slot it vacates, which keeps its value. */
  lemma RetPops(s: State, op: word, rnd: byte)
    requires Wellformed(s) && Group(op) == 0x0 && N(op) == 0xE && s.sp >= 1
    ensures Safe(s, op)
    ensures Exec(s, op, rnd) == s.(sp := s.sp - 1, pc := s.stack[s.sp - 1])
  {
  }

  /** RET is defined only with a pushed address: from an empty stack Go's sp-- wraps to 255 and
      the stack read panics. CALL is defined only while a slot is free. */
  lemma StackBounds(s: State, op: word)
    requires Wellformed(s)
    ensures Group(op) == 0x0 && N(op) == 0xE ==> (Safe(s, op) <==> s.sp >= 1)
    ensures Group(op) == 0x2 ==> (Safe(s, op) <==> s.sp < 16)
  {
  }

  /** The exact conditions under which the memory and key accesses of Dxyn, Fx33, Fx55/Fx65
      and Ex9E/ExA1 stay in range; outside them Go's index panics. */
  lemma AccessBounds(s: State, op: word)
    requires Wellformed(s)
    ensures Group(op) == 0xD ==> (Safe(s, op) <==> s.i as int + N(op) <= MemorySize)
    ensures Group(op) == 0xF && Kk(op) == 0x33 ==> (Safe(s, op) <==> s.i as int + 2 < MemorySize)
    ensures Group(op) == 0xF && (Kk(op) == 0x55 || Kk(op) == 0x65) ==>
              (Safe(s, op) <==> s.i as int + X(op) < MemorySize)
    ensures Group(op) == 0xE && (Kk(op) == 0x9E || Kk(op) == 0xA1) ==> (Safe(s, op) <==> s.v[X(op)] < 16)
    ensures Group(op) == 0xE && Kk(op) != 0x9E && Kk(op) != 0xA1 ==> Safe(s, op)
  {
  }

  // Jumps and loads.

  /** 1nnn continues at nnn and changes nothing else. */
  lemma JumpSetsPc(s: State, op: word, rnd: byte)
    requires Wellformed(s) && Group(op) == 0x1
    ensures Exec(s, op, rnd) == s.(pc := Nnn(op))
  {
  }

  /** Bnnn continues at nnn + V0, which never wraps since nnn is at most 0xFFF. */
  lemma JumpWithOffsetSetsPc(s: State, op: word, rnd: byte)
    requires Wellformed(s) && Group(op) == 0xB
    ensures Exec(s, op, rnd) == s.(pc := Exec(s, op, rnd).pc)
    ensures Exec(s, op, rnd).pc as int == Nnn(op) as int + s.v[0] as int
  {
  }

  /** Annn loads nnn into I and changes nothing else but pc. */
  lemma LoadIndexSetsI(s: State, op: word, rnd: byte)
    requires Wellformed(s) && Group(op) == 0xA
    ensures Exec(s, op, rnd) == s.(pc := AddWord(s.pc, 2), i := Nnn(op))
  {
  }

  /** 6xkk loads kk into Vx and changes nothing else but pc. */
  lemma LoadByteSetsVx(s: State, op: word, rnd: byte)
    requires Wellformed(s) && Group(op) == 0x6
    ensures Exec(s, op, rnd) == s.(pc := AddWord(s.pc, 2), v := s.v[X(op) := Kk(op)])
  {
  }

  /** 7xkk adds kk to Vx modulo 256; unlike 8xy4 it reports no carry, so VF (unless it is Vx)
      keeps its value. */
  lemma AddByteWrapsWithoutCarry(s: State, op: word, rnd: byte)
    requires Wellformed(s) && Group(op) == 0x7
    ensures var r, x := Exec(s, op, rnd), X(op);
            r.v[x] as int == (s.v[x] as int + Kk(op) as int) % 0x100 &&
            r == s.(pc := AddWord(s.pc, 2), v := s.v[x := r.v[x]])
  {
  }

  // Group 8 arithmetic.

  /** 8xy0..8xy3 write only Vx: Vy itself, or Vx with Vy combined by or, and, xor. VF is left
      alone unless it is Vx. */
  lemma LogicWritesOnlyVx(s: State, op: word, rnd: byte)
    requires Wellformed(s) && Group(op) == 0x8 && N(op) <= 0x3
    ensures var r, x, y := Exec(s, op, rnd), X(op), Y(op);
            r == s.(pc := AddWord(s.pc, 2), v := s.v[x := r.v[x]]) &&
            r.v[x] == (if N(op) == 0x0 then s.v[y]
                       else if N(op) == 0x1 then OrByte(s.v[x], s.v[y])
                       else if N(op) == 0x2 then AndByte(s.v[x], s.v[y])
                       else XorByte(s.v[x], s.v[y]))
  {
    assert Exec(s, op, rnd) == s.(pc := AddWord(s.pc, 2), v := ExecAlu(s.v, op));
  }

  /** 8xy4 with x, y other than F: Vx becomes the sum modulo 256 and VF the carry out. */
  lemma AddSetsCarry(s: State, op: word, rnd: byte)
    requires Wellformed(s) && Group(op) == 0x8 && N(op) == 0x4 && X(op) != Flag && Y(op) != Flag
    ensures var r, x, y := Exec(s, op, rnd), X(op), Y(op);
            r.v[x] as int == (s.v[x] as int + s.v[y] as int) % 0x100 &&
            r.v[Flag] == (if s.v[x] as int + s.v[y] as int > 0xFF then 1 else 0) &&
            (forall j :: 0 <= j < RegisterCount && j != x && j != Flag ==> r.v[j] == s.v[j]) &&
            r == s.(pc := AddWord(s.pc, 2), v := r.v)
  {
  }

  /** 8xy5 with x, y other than F: Vx becomes Vx - Vy modulo 256 and VF is 1 exactly when
      Vx > Vy (strictly: equal operands give VF = 0). */
  lemma SubSetsNotBorrow(s: State, op: word, rnd: byte)
    requires Wellformed(s) && Group(op) == 0x8 && N(op) == 0x5 && X(op) != Flag && Y(op) != Flag
    ensures var r, x, y := Exec(s, op, rnd), X(op), Y(op);
            r.v[x] as int == (s.v[x] as int - s.v[y] as int) % 0x100 &&
            r.v[Flag] == (if s.v[x] > s.v[y] then 1 else 0) &&
            (forall j :: 0 <= j < RegisterCount && j != x && j != Flag ==> r.v[j] == s.v[j]) &&
            r == s.(pc := AddWord(s.pc, 2), v := r.v)
  {
  }

  /** 8xy7 with x, y other than F: Vx becomes Vy - Vx modulo 256 and VF is 1 exactly when
      Vy > Vx. */
  lemma SubnSetsNotBorrow(s: State, op: word, rnd: byte)
    requires Wellformed(s) && Group(op) == 0x8 && N(op) == 0x7 && X(op) != Flag && Y(op) != Flag
    ensures var r, x, y := Exec(s, op, rnd), X(op), Y(op);
            r.v[x] as int == (s.v[y] as int - s.v[x] as int) % 0x100 &&
            r.v[Flag] == (if s.v[y] > s.v[x] then 1 else 0) &&
            (forall j :: 0 <= j < RegisterCount && j != x && j != Flag ==> r.v[j] == s.v[j]) &&
            r == s.(pc := AddWord(s.pc, 2), v := r.v)
  {
  }

  /** 8xy6 with x other than F: Vx is halved and VF receives the bit shifted out. */
  lemma ShrSetsLowBit(s: State, op: word, rnd: byte)
    requires Wellformed(s) && Group(op) == 0x8 && N(op) == 0x6 && X(op) != Flag
    ensures var r, x := Exec(s, op, rnd), X(op);
            r.v[x] as int == s.v[x] as int / 2 &&
            r.v[Flag] as int == s.v[x] as int % 2 &&
            (forall j :: 0 <= j < RegisterCount && j != x && j != Flag ==> r.v[j] == s.v[j]) &&
            r == s.(pc := AddWord(s.pc, 2), v := r.v)
  {
    AndLowBit(s.v[X(op)]);
  }

  /** 8xyE with x other than F: Vx is doubled modulo 256, and VF receives the top bit left in
      place, 0x80 rather than 1, when it is set. */
  lemma ShlSetsHighBit(s: State, op: word, rnd: byte)
    requires Wellformed(s) && Group(op) == 0x8 && N(op) == 0xE && X(op) != Flag
    ensures var r, x := Exec(s, op, rnd), X(op);
            r.v[x] as int == 2 * s.v[x] as int % 0x100 &&
            r.v[Flag] == (if s.v[x] >= 0x80 then 0x80 else 0) &&
            (forall j :: 0 <= j < RegisterCount && j != x && j != Flag ==> r.v[j] == s.v[j]) &&
            r == s.(pc := AddWord(s.pc, 2), v := r.v)
  {
    AndHighBit(s.v[X(op)]);
  }

  /** VF is cleared before the operands of 8xy4 are read. With y = F the right operand is that
      0, so Vx keeps its value and no carry is reported; with x = F, VF ends up holding Vy. */
  lemma AddReadsClearedFlag(s: State, op: word, rnd: byte)
    requires Wellformed(s) && Group(op) == 0x8 && N(op) == 0x4
    ensures X(op) != Flag && Y(op) == Flag ==>
              Exec(s, op, rnd).v == s.v[Flag := 0]
    ensures X(op) == Flag ==>
              Exec(s, op, rnd).v == s.v[Flag := if Y(op) == Flag then 0 else s.v[Y(op)]]
    ensures Exec(s, op, rnd) == s.(pc := AddWord(s.pc, 2), v := Exec(s, op, rnd).v)
  {
  }

  /** VF is cleared before the operands of 8xy5 are read. With y = F, Vx counts down by one
      and VF tells whether it was positive; with x = F, VF ends up holding 0 - Vy. */
  lemma SubReadsClearedFlag(s: State, op: word, rnd: byte)
    requires Wellformed(s) && Group(op) == 0x8 && N(op) == 0x5
    ensures X(op) != Flag && Y(op) == Flag ==>
              var vx := s.v[X(op)];
              Exec(s, op, rnd).v == s.v[Flag := if vx > 0 then 1 else 0][X(op) := if vx > 0 then vx - 1 else 0]
    ensures X(op) == Flag ==>
              Exec(s, op, rnd).v == s.v[Flag := if Y(op) == Flag then 0 else SubByte(0, s.v[Y(op)])]
    ensures Exec(s, op, rnd) == s.(pc := AddWord(s.pc, 2), v := Exec(s, op, rnd).v)
  {
  }

  /** VF is cleared before the operands of 8xy7 are read. With y = F, Vx becomes 0 - Vx and
      VF 0; with x = F, VF ends up holding Vy - 1, or 0 when Vy is 0. */
  lemma SubnReadsClearedFlag(s: State, op: word, rnd: byte)
    requires Wellformed(s) && Group(op) == 0x8 && N(op) == 0x7
    ensures X(op) != Flag && Y(op) == Flag ==>
              Exec(s, op, rnd).v == s.v[Flag := 0][X(op) := SubByte(0, s.v[X(op)])]
    ensures X(op) == Flag ==>
              var vy := if Y(op) == Flag then 0 else s.v[Y(op)];
              Exec(s, op, rnd).v == s.v[Flag := if vy > 0 then vy - 1 else 0]
    ensures Exec(s, op, rnd) == s.(pc := AddWord(s.pc, 2), v := Exec(s, op, rnd).v)
  {
  }

  /** 8Fy6 and 8FyE shift the bit they just stored in VF: VF ends up 0 either way. */
  lemma ShiftOfFlagClears(s: State, op: word, rnd: byte)
    requires Wellformed(s) && Group(op) == 0x8 && (N(op) == 0x6 || N(op) == 0xE) && X(op) == Flag
    ensures Exec(s, op, rnd) == s.(pc := AddWord(s.pc, 2), v := s.v[Flag := 0])
  {
    AndLowBit(s.v[Flag]);
    AndHighBit(s.v[Flag]);
  }

  /** The low nibbles with no case in group 8 (8..D and F) change nothing but pc. */
  lemma AluGapsAreNoOps(s: State, op: word, rnd: byte)
    requires Wellformed(s) && Group(op) == 0x8 && (0x8 <= N(op) <= 0xD || N(op) == 0xF)
    ensures Exec(s, op, rnd) == s.(pc := AddWord(s.pc, 2))
  {
  }

  // Opcodes the source does not recognise, and group 0.

  /** The opcodes that fall into a default case: group 0 with low nibble other than 0 and E,
      group E other than 9E and A1, and group F other than the nine it lists. */
  predicate Unrecognised(op: word)
  {
    var g, kk := Group(op), Kk(op);
    (g == 0x0 && N(op) != 0x0 && N(op) != 0xE) ||
    (g == 0xE && kk != 0x9E && kk != 0xA1) ||
    (g == 0xF && kk != 0x07 && kk != 0x0A && kk != 0x15 && kk != 0x18 && kk != 0x1E &&
                 kk != 0x29 && kk != 0x33 && kk != 0x55 && kk != 0x65)
  }

  /** An unrecognised opcode is only logged: nothing but pc changes. */
  lemma UnrecognisedIsNoOp(s: State, op: word, rnd: byte)
    requires Wellformed(s) && Unrecognised(op)
    ensures Safe(s, op) && Exec(s, op, rnd) == s.(pc := AddWord(s.pc, 2))
  {
  }

  /** Group 0 looks at the low nibble alone, so every 0nn0, not only 00E0, clears the screen. */
  lemma AnyLowZeroClears(s: State, op: word, rnd: byte)
    requires Wellformed(s) && Group(op) == 0x0 && N(op) == 0x0
    ensures Exec(s, op, rnd) == s.(pc := AddWord(s.pc, 2), pixels := Display.Blank())
    ensures forall k :: 0 <= k < Display.PixelCount ==> Exec(s, op, rnd).pixels[k] == 0
  {
  }

  // Group F.

  /** Fx07 reads the delay timer into Vx; Fx15 and Fx18 set the delay and sound timers from Vx.
      Nothing else but pc changes. */
  lemma TimerTransfers(s: State, op: word, rnd: byte)
    requires Wellformed(s) && Group(op) == 0xF
    ensures Kk(op) == 0x07 ==> Exec(s, op, rnd) == s.(pc := AddWord(s.pc, 2), v := s.v[X(op) := s.delayTimer])
    ensures Kk(op) == 0x15 ==> Exec(s, op, rnd) == s.(pc := AddWord(s.pc, 2), delayTimer := s.v[X(op)])
    ensures Kk(op) == 0x18 ==> Exec(s, op, rnd) == s.(pc := AddWord(s.pc, 2), soundTimer := s.v[X(op)])
  {
  }

  /** Fx1E adds Vx to I modulo 2^16 and, unlike some CHIP-8 variants, leaves VF alone. */
  lemma AddToIndexWraps(s: State, op: word, rnd: byte)
    requires Wellformed(s) && Group(op) == 0xF && Kk(op) == 0x1E
    ensures var r := Exec(s, op, rnd);
            r.i as int == (s.i as int + s.v[X(op)] as int) % 0x1_0000 &&
            r == s.(pc := AddWord(s.pc, 2), i := r.i)
  {
  }

  /** Fx33 writes the three decimal digits of Vx to memory[I..I+2], most significant first, and
      changes no other memory cell. */
  lemma BcdWritesDigits(s: State, op: word, rnd: byte)
    requires Wellformed(s) && Group(op) == 0xF && Kk(op) == 0x33 && s.i as int + 2 < MemorySize
    ensures var r, i := Exec(s, op, rnd), s.i as int;
            r.memory[i] < 10 && r.memory[i + 1] < 10 && r.memory[i + 2] < 10 &&
            100 * r.memory[i] as int + 10 * r.memory[i + 1] as int + r.memory[i + 2] as int
              == s.v[X(op)] as int &&
            (forall a :: 0 <= a < MemorySize && !(i <= a < i + 3) ==> r.memory[a] == s.memory[a]) &&
            r == s.(pc := AddWord(s.pc, 2), memory := r.memory)
  {
    var r, i := Exec(s, op, rnd), s.i as int;
    assert r.memory[i .. i + 3] == Bcd(s.v[X(op)]);
    assert r.memory[i] == r.memory[i .. i + 3][0];
    assert r.memory[i + 1] == r.memory[i .. i + 3][1];
    assert r.memory[i + 2] == r.memory[i .. i + 3][2];
  }

  /** Fx55 copies exactly V0..Vx to memory[I..I+x]; every other cell and every register keeps
      its value. */
  lemma StoreCopiesPrefix(s: State, op: word, rnd: byte)
    requires Wellformed(s) && Group(op) == 0xF && Kk(op) == 0x55 && s.i as int + X(op) < MemorySize
    ensures var r, i := Exec(s, op, rnd), s.i as int;
            (forall a :: 0 <= a < MemorySize ==>
               r.memory[a] == if i <= a <= i + X(op) then s.v[a - i] else s.memory[a]) &&
            r == s.(pc := AddWord(s.pc, 2), memory := r.memory)
  {
  }

  /** Fx65 fills exactly V0..Vx from memory[I..I+x]; V(x+1)..VF and memory keep their values. */
  lemma LoadCopiesPrefix(s: State, op: word, rnd: byte)
    requires Wellformed(s) && Group(op) == 0xF && Kk(op) == 0x65 && s.i as int + X(op) < MemorySize
    ensures var r, i := Exec(s, op, rnd), s.i as int;
            (forall j :: 0 <= j < RegisterCount ==>
               r.v[j] == if j <= X(op) then s.memory[i + j] else s.v[j]) &&
            r == s.(pc := AddWord(s.pc, 2), v := r.v)
  {
  }

  /** Fx55 followed by Fx65 with the same x and the same I reads back exactly what it wrote:
      the registers end as they started, and only the copied memory cells and pc change. */
  lemma StoreThenLoadRestores(s: State, store: word, load: word, rnd: byte)
    requires Wellformed(s) && Group(store) == 0xF && Kk(store) == 0x55
    requires Group(load) == 0xF && Kk(load) == 0x65 && X(load) == X(store)
    requires s.i as int + X(store) < MemorySize
    ensures var m := Exec(s, store, rnd);
            Safe(m, load) && Exec(m, load, rnd) == s.(pc := AddWord(AddWord(s.pc, 2), 2), memory := m.memory)
  {
    var m := Exec(s, store, rnd);
    StoreCopiesPrefix(s, store, rnd);
    LoadCopiesPrefix(m, load, rnd);
    var r := Exec(m, load, rnd);
    assert r.v == s.v;
  }

  /** Fx0A with no key down leaves the whole state as it was, pc included, so the same
      instruction runs again on the next cycle. */
  lemma WaitWithoutKeyRepeats(s: State, op: word, rnd: byte)
    requires Wellformed(s) && Group(op) == 0xF && Kk(op) == 0x0A
    requires forall k :: 0 <= k < 16 ==> !s.keys[k]
    ensures Exec(s, op, rnd) == s
  {
    FirstPressedIs(s.keys, 16);
    assert SubWord(AddWord(s.pc, 2), 2) == s.pc;
  }

  /** Fx0A with some key down stores the lowest such key in Vx and moves on to the next
      instruction. */
  lemma WaitWithKeyTakesLowest(s: State, op: word, rnd: byte)
    requires Wellformed(s) && Group(op) == 0xF && Kk(op) == 0x0A
    requires exists k :: 0 <= k < 16 && s.keys[k]
    ensures var r := Exec(s, op, rnd); var k := r.v[X(op)] as int;
            k < 16 && s.keys[k] && (forall j :: 0 <= j < k ==> !s.keys[j]) &&
            r == s.(pc := AddWord(s.pc, 2), v := s.v[X(op) := k as byte])
  {
    var k :| 0 <= k < 16 && s.keys[k];
    assert FirstPressed(s.keys) <= k;
  }

  /** Fx29 points I at five times Vx, whatever Vx is, and changes nothing else but pc. When the
      font table is loaded (as Reset does) and Vx is a digit, the five bytes there are that
      digit's rows of the font table. */
  lemma GlyphAddress(s: State, op: word, rnd: byte)
    requires Wellformed(s) && Group(op) == 0xF && Kk(op) == 0x29
    ensures Safe(s, op)
    ensures Exec(s, op, rnd) == s.(pc := AddWord(s.pc, 2), i := (5 * s.v[X(op)] as int) as word)
    ensures var r, d := Exec(s, op, rnd), s.v[X(op)] as int;
            s.memory[..80] == Display.Fonts && d < 16 ==>
            r.memory[r.i .. r.i as int + 5] == Display.Fonts[5 * d .. 5 * d + 5]
  {
    var r, d := Exec(s, op, rnd), s.v[X(op)] as int;
    assert r == s.(pc := AddWord(s.pc, 2), i := (5 * d) as word);
    if s.memory[..80] == Display.Fonts && d < 16 {
      assert s.memory[5 * d .. 5 * d + 5] == s.memory[..80][5 * d .. 5 * d + 5];
    }
  }

  // Cxkk and Dxyn.

  /** Cxkk stores the random byte masked with kk and changes nothing else: a mask of 0 always
      gives 0, and 0xFF passes the byte through. */
  lemma RandomIsMasked(s: State, op: word, rnd: byte)
    requires Wellformed(s) && Group(op) == 0xC
    ensures var r := Exec(s, op, rnd);
            r == s.(pc := AddWord(s.pc, 2), v := s.v[X(op) := AndByte(rnd, Kk(op))]) &&
            (Kk(op) == 0 ==> r.v[X(op)] == 0) && (Kk(op) == 0xFF ==> r.v[X(op)] == rnd)
  {
    var masked := AndByte(rnd, Kk(op));
    assert Exec(s, op, rnd) == s.(pc := AddWord(s.pc, 2), v := s.v[X(op) := masked]);
    assert Exec(s, op, rnd).v[X(op)] == masked;
  }

  /** Dxyn with x, y other than F: the n-byte sprite at I is drawn at (Vx, Vy). Exactly the pixels
      under its set bits are flipped and VF is 1 iff one of them was lit; nothing else changes. */
  lemma DrawFlipsAndFlags(s: State, op: word, rnd: byte)
    requires Wellformed(s) && Group(op) == 0xD && Safe(s, op) && X(op) != Flag && Y(op) != Flag
    ensures var r := Exec(s, op, rnd);
            var vx, vy := s.v[X(op)] as nat, s.v[Y(op)] as nat;
            var sprite := s.memory[s.i .. s.i as int + N(op)];
            (forall k :: 0 <= k < Display.PixelCount ==>
               r.pixels[k] == if DisplayProofs.Hit(vx, vy, sprite, k) then Display.Flip(s.pixels[k]) else s.pixels[k]) &&
            (r.v[Flag] == 1 <==>
               exists k :: 0 <= k < Display.PixelCount && DisplayProofs.Hit(vx, vy, sprite, k) && s.pixels[k] == 1) &&
            r == s.(pc := AddWord(s.pc, 2), v := s.v[Flag := r.v[Flag]], pixels := r.pixels)
  {
    var vx, vy := s.v[X(op)] as nat, s.v[Y(op)] as nat;
    DrawUpdates(s, op, rnd);
    DisplayProofs.DrawEffect(s.pixels, vx, vy, s.memory[s.i .. s.i as int + N(op)]);
  }

  /** Dxyn with x, y other than F replaces the framebuffer by the drawn one and VF by the
      collision flag, and moves pc on. */
  lemma DrawUpdates(s: State, op: word, rnd: byte)
    requires Wellformed(s) && Group(op) == 0xD && Safe(s, op) && X(op) != Flag && Y(op) != Flag
    ensures var f := Display.DrawSprite(s.pixels, s.v[X(op)] as nat, s.v[Y(op)] as nat,
                                        s.memory[s.i .. s.i as int + N(op)]);
            Exec(s, op, rnd)
            == s.(pc := AddWord(s.pc, 2), v := s.v[Flag := if f.collision then 1 else 0], pixels := f.pixels)
  {
    var t := s.(pc := AddWord(s.pc, 2));
    assert t.v[Flag := 0][X(op)] == s.v[X(op)] && t.v[Flag := 0][Y(op)] == s.v[Y(op)];
    assert Exec(s, op, rnd) == ExecDraw(t, op);
  }

  /** VF is cleared before Dxyn reads its coordinates, so a coordinate register that is VF reads
      as 0 whatever VF held: D F y n draws at column 0 and D x F n at row 0. The framebuffer
      becomes the drawn one and VF the collision flag. */
  lemma DrawReadsClearedFlag(s: State, op: word, rnd: byte)
    requires Wellformed(s) && Group(op) == 0xD && Safe(s, op) && (X(op) == Flag || Y(op) == Flag)
    ensures var col := if X(op) == Flag then 0 else s.v[X(op)] as nat;
            var row := if Y(op) == Flag then 0 else s.v[Y(op)] as nat;
            var f := Display.DrawSprite(s.pixels, col, row, s.memory[s.i .. s.i as int + N(op)]);
            Exec(s, op, rnd)
            == s.(pc := AddWord(s.pc, 2), v := s.v[Flag := if f.collision then 1 else 0], pixels := f.pixels)
  {
    var t := s.(pc := AddWord(s.pc, 2));
    var c := t.v[Flag := 0];
    assert c[X(op)] as nat == if X(op) == Flag then 0 else s.v[X(op)] as nat;
    assert c[Y(op)] as nat == if Y(op) == Flag then 0 else s.v[Y(op)] as nat;
    assert Exec(s, op, rnd) == ExecDraw(t, op);
  }

  // One cycle.

  /** A cycle runs the opcode whose high byte is at pc and low byte at pc + 1. */
  lemma StepRunsFetchedOpcode(s: State, rnd: byte)
    requires Wellformed(s) && s.pc as int + 1 < MemorySize && Safe(s, Fetch(s.memory, s.pc))
    ensures var op := Fetch(s.memory, s.pc);
            Group(op) == s.memory[s.pc] as int / 0x10 && X(op) == s.memory[s.pc] as int % 0x10 &&
            Kk(op) == s.memory[s.pc as int + 1] &&
            Step(s, rnd) == Exec(s, op, rnd)
  {
  }
}

/** The interpreter's unit-test scenarios, replayed on the reference semantics. Each starts from
    the zero state of a freshly allocated VM (pc = 0, every register and memory cell 0), sets the
    fields the scenario sets, and states the values the scenario expects. */
module MachineExamples {
  import opened Bytes
  import opened Machine
  import MachineProofs

  /** A fresh VM with the given registers. */
  function WithRegisters(v: seq<byte>): (s: State)
    requires |v| == RegisterCount
    ensures Wellformed(s) && s.v == v
    ensures forall a :: 0 <= a < MemorySize ==> s.memory[a] == 0
    ensures s.pc == 0 && s.sp == 0 && s.i == 0 && s.delayTimer == 0 && s.soundTimer == 0
  {
    Zero().(v := v)
  }

  /** 2ABC from pc 0x23 pushes 0x25 and jumps to 0xABC; 00EE then comes back to 0x25. */
  lemma CallAndReturnExample()
    ensures var c := Exec(Zero().(pc := 0x23), 0x2ABC, 0);
            c.pc == 0xABC && c.sp == 1 && c.stack[0] == 0x25 &&
            Safe(c, 0x00EE) && Exec(c, 0x00EE, 0).pc == 0x25 && Exec(c, 0x00EE, 0).sp == 0
  {
  }

  /** 1A2A jumps to 0xA2A. */
  lemma JumpExample()
    ensures Exec(Zero(), 0x1A2A, 0).pc == 0xA2A
  {
  }

  /** A111 loads 0x111 into I. */
  lemma LoadIndexExample()
    ensures Exec(Zero(), 0xA111, 0).i == 0x111
  {
  }

  /** With V0 = 2, BA2A jumps to 0xA2A + 2. */
  lemma JumpWithOffsetExample()
    ensures Exec(WithRegisters(Zero().v[0 := 2]), 0xBA2A, 0).pc == 0xA2C
  {
  }

  /** With V1 = 0xFE: 31FE skips and 31FA does not. */
  lemma SkipIfEqualByteExample()
    ensures var a := Exec(WithRegisters(Zero().v[1 := 0xFE]), 0x31FE, 0);
            a.pc == 4 && Exec(a, 0x31FA, 0).pc == 6
  {
  }

  /** With V1 = 0xFE: 41FE does not skip and 41FA does. */
  lemma SkipIfNotEqualByteExample()
    ensures var a := Exec(WithRegisters(Zero().v[1 := 0xFE]), 0x41FE, 0);
            a.pc == 2 && Exec(a, 0x41FA, 0).pc == 6
  {
  }

  /** With V0 = 1 and V1 = V2 = 2: 5120 skips and 5020 does not. */
  lemma SkipIfEqualRegisterExample()
    ensures var a := Exec(WithRegisters(Zero().v[0 := 1][1 := 2][2 := 2]), 0x5120, 0);
            a.pc == 4 && Exec(a, 0x5020, 0).pc == 6
  {
  }

  /** With V0 = 1 and V1 = V2 = 2: 9120 does not skip and 9020 does. */
  lemma SkipIfNotEqualRegisterExample()
    ensures var a := Exec(WithRegisters(Zero().v[0 := 1][1 := 2][2 := 2]), 0x9120, 0);
            a.pc == 2 && Exec(a, 0x9020, 0).pc == 6
  {
  }

  /** 6008 loads 8 into V0, 7008 adds 8 to V0 = 1, and 8010 copies V1 = 0 into V0. */
  lemma LoadAndAddExamples()
    ensures Exec(WithRegisters(Zero().v[0 := 1]), 0x6008, 0).v[0] == 8
    ensures Exec(WithRegisters(Zero().v[0 := 1]), 0x7008, 0).v[0] == 9
    ensures Exec(WithRegisters(Zero().v[0 := 1]), 0x8010, 0).v[0] == 0
  {
  }

  /** With V0 = 0xFF and V1 = 0xAA, 8011 leaves V0 = 0xFF. */
  lemma OrExample(s: State)
    requires Wellformed(s) && s.v[0] == 0xFF && s.v[1] == 0xAA
    ensures Exec(s, 0x8011, 0).v[0] == 0xFF
  {
    assert X(0x8011) == 0 && Y(0x8011) == 1 && N(0x8011) == 1;
    MachineProofs.LogicWritesOnlyVx(s, 0x8011, 0);
    assert OrByte(s.v[0], s.v[1]) == 0xFF;
  }

  /** With V0 = 0xFF and V1 = 0xAA, 8012 leaves V0 = 0xAA. */
  lemma AndExample(s: State)
    requires Wellformed(s) && s.v[0] == 0xFF && s.v[1] == 0xAA
    ensures Exec(s, 0x8012, 0).v[0] == 0xAA
  {
    assert X(0x8012) == 0 && Y(0x8012) == 1 && N(0x8012) == 2;
    MachineProofs.LogicWritesOnlyVx(s, 0x8012, 0);
    assert AndByte(s.v[0], s.v[1]) == 0xAA;
  }

  /** With V0 = 0xFF and V1 = 0xAA, 8013 leaves V0 = 0x55. */
  lemma XorExample(s: State)
    requires Wellformed(s) && s.v[0] == 0xFF && s.v[1] == 0xAA
    ensures Exec(s, 0x8013, 0).v[0] == 0x55
  {
    assert X(0x8013) == 0 && Y(0x8013) == 1 && N(0x8013) == 3;
    MachineProofs.LogicWritesOnlyVx(s, 0x8013, 0);
    assert XorByte(s.v[0], s.v[1]) == 0x55;
  }

  /** With V0 = 10, V1 = 100, V2 = 250: 8014 gives 110 without carry, then 8024 gives 0x68
      with carry. */
  lemma AddWithCarryExample()
    ensures var a := Exec(WithRegisters(Zero().v[0 := 10][1 := 100][2 := 250]), 0x8014, 0);
            a.v[0] == 110 && a.v[Flag] == 0 &&
            Exec(a, 0x8024, 0).v[0] == 0x68 && Exec(a, 0x8024, 0).v[Flag] == 1
  {
  }

  /** With I = 2 and V0 = 6, F01E leaves I = 8. */
  lemma AddToIndexExample()
    ensures Exec(WithRegisters(Zero().v[0 := 6]).(i := 2), 0xF01E, 0).i == 8
  {
  }

  /** With I = 0x300 and V2 = 234, F233 writes 2, 3, 4 at 0x300..0x302. */
  lemma BcdExample()
    ensures Exec(WithRegisters(Zero().v[2 := 234]).(i := 0x300), 0xF233, 0).memory[0x300 .. 0x303] == [2, 3, 4]
  {
    assert Bcd(234) == [2, 3, 4];
  }

  /** With V0..V3 = 1, 2, 3, 4 and I = 0x300, F255 writes 1, 2, 3 and leaves 0x303 at 0. */
  lemma StoreRegistersExample()
    ensures var r := Exec(WithRegisters(Zero().v[0 := 1][1 := 2][2 := 3][3 := 4]).(i := 0x300), 0xF255, 0);
            r.memory[0x300] == 1 && r.memory[0x301] == 2 && r.memory[0x302] == 3 && r.memory[0x303] == 0
  {
    var s := WithRegisters(Zero().v[0 := 1][1 := 2][2 := 3][3 := 4]).(i := 0x300);
    MachineProofs.StoreCopiesPrefix(s, 0xF255, 0);
  }

  /** With memory 0..3 = 1, 2, 3, 4 and I = 0, F265 loads V0..V2 = 1, 2, 3 and leaves V3 at 0. */
  lemma LoadRegistersExample()
    ensures var r := Exec(Zero().(memory := Zero().memory[0 := 1][1 := 2][2 := 3][3 := 4]), 0xF265, 0);
            r.v[0] == 1 && r.v[1] == 2 && r.v[2] == 3 && r.v[3] == 0
  {
    var s := Zero().(memory := Zero().memory[0 := 1][1 := 2][2 := 3][3 := 4]);
    MachineProofs.LoadCopiesPrefix(s, 0xF265, 0);
  }
}

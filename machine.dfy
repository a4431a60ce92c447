/** The interpreter's state as a value, and the effect of one instruction on it: the reference
    semantics that the VM class is proved to implement. Go's uint8 is `byte` and uint16 is `word`,
    and every register, address and timer update wraps exactly as in the source. */
module Machine {
  import opened Bytes
  import Display
  import Keyboard

  const MemorySize := 4096
  const RegisterCount := 16
  const StackDepth := 16
  /** Where programs are loaded and where Reset puts the program counter. */
  const ProgramStart: word := 0x200
  /** VF, the register that carry, borrow, shifted-out bit and collision are written to. */
  const Flag := 0xF

  datatype State = State(
    memory: seq<byte>,
    v: seq<byte>,
    i: word,
    stack: seq<word>,
    sp: byte,
    pc: word,
    delayTimer: byte,
    soundTimer: byte,
    pixels: seq<byte>,
    keys: seq<bool>)

  /** The shape every reachable state has: fixed sizes, and a stack pointer that CALL and RET
      keep within the sixteen slots. */
  predicate Wellformed(s: State)
  {
    |s.memory| == MemorySize && |s.v| == RegisterCount && |s.stack| == StackDepth && s.sp <= 16 &&
    |s.pixels| == Display.PixelCount && |s.keys| == Keyboard.KeyCount
  }

  // Opcode fields. The source masks and shifts; on unsigned values the same fields are the
  // quotients and remainders below.

  /** The top nibble, opcode & 0xF000, which selects the instruction group. */
  function Group(op: word): (g: nat)
    ensures g < 16
  {
    op as int / 0x1000
  }

  /** Register selector x, the second nibble (opcode & 0x0F00) >> 8. */
  function X(op: word): (x: nat)
    ensures x < RegisterCount
  {
    (op as int / 0x100) % 0x10
  }

  /** Register selector y, the third nibble (opcode & 0x00F0) >> 4. */
  function Y(op: word): (y: nat)
    ensures y < RegisterCount
  {
    (op as int / 0x10) % 0x10
  }

  /** The 12-bit address nnn, opcode & 0x0FFF. */
  function Nnn(op: word): (nnn: word)
    ensures nnn < 0x1000
  {
    (op as int % 0x1000) as word
  }

  /** The low byte kk, opcode & 0x00FF. */
  function Kk(op: word): (kk: byte)
    ensures kk as int == Y(op) * 0x10 + N(op)
    ensures Nnn(op) as int == X(op) * 0x100 + kk as int
  {
    (op as int % 0x100) as byte
  }

  /** The low nibble n, opcode & 0x000F. */
  function N(op: word): (n: nat)
    ensures n < 16
  {
    op as int % 0x10
  }

  /** The fields cover the opcode: top nibble, x, y and n, from most to least significant. */
  lemma FieldsRecompose(op: word)
    ensures op as int == Group(op) * 0x1000 + X(op) * 0x100 + Y(op) * 0x10 + N(op)
  {
  }

  /** The opcode at pc: memory[pc] is its high byte and memory[pc + 1] its low byte. */
  function Fetch(memory: seq<byte>, pc: word): (op: word)
    requires |memory| == MemorySize && pc as int + 1 < MemorySize
    ensures op as int / 0x100 == memory[pc] as int && op as int % 0x100 == memory[pc as int + 1] as int
  {
    (memory[pc] as int * 0x100 + memory[pc as int + 1] as int) as word
  }

  /** The opcode does not make Go panic on this state: every array index it computes is in range.
      These are the only places where execute can fail. */
  predicate Safe(s: State, op: word): (ok: bool)
    requires Wellformed(s)
    ensures Group(op) != 0x0 && Group(op) != 0x2 && Group(op) != 0xD && Group(op) != 0xE && Group(op) != 0xF ==> ok
    ensures Group(op) == 0xF && Kk(op) != 0x33 && Kk(op) != 0x55 && Kk(op) != 0x65 ==> ok
    ensures Group(op) == 0xD && s.i as int + 0xF <= MemorySize ==> ok
    ensures Group(op) == 0xE && s.v[X(op)] < 16 ==> ok
  {
    var g := Group(op);
    if g == 0x0 then (N(op) == 0xE ==> s.sp >= 1)
    else if g == 0x2 then s.sp < 16
    else if g == 0xD then s.i as int + N(op) <= MemorySize
    else if g == 0xE then (Kk(op) == 0x9E || Kk(op) == 0xA1) ==> s.v[X(op)] < 16
    else if g == 0xF then
      (Kk(op) == 0x33 ==> s.i as int + 2 < MemorySize) &&
      (Kk(op) == 0x55 || Kk(op) == 0x65 ==> s.i as int + X(op) < MemorySize)
    else true
  }

  /** Lowest pressed key at index `from` or above, or 16 when there is none. */
  function FirstPressedFrom(keys: seq<bool>, from: nat): (k: nat)
    requires |keys| == Keyboard.KeyCount && from <= 16
    ensures from <= k <= 16
    ensures k < 16 ==> keys[k]
    ensures forall j :: from <= j < k ==> !keys[j]
    decreases 16 - from
  {
    if from == 16 then 16
    else if keys[from] then from
    else FirstPressedFrom(keys, from + 1)
  }

  /** Lowest pressed key, or 16 when no key is pressed. */
  function FirstPressed(keys: seq<bool>): (k: nat)
    requires |keys| == Keyboard.KeyCount
    ensures k <= 16
    ensures k < 16 ==> keys[k]
    ensures forall j :: 0 <= j < k ==> !keys[j]
  {
    FirstPressedFrom(keys, 0)
  }

  /** FirstPressed is characterised by its contract: a key index (or 16) with every key below it
      released and, unless 16, itself pressed. */
  lemma FirstPressedIs(keys: seq<bool>, k: nat)
    requires |keys| == Keyboard.KeyCount && k <= 16
    requires k < 16 ==> keys[k]
    requires forall j :: 0 <= j < k ==> !keys[j]
    ensures FirstPressed(keys) == k
  {
  }

  /** The three decimal digits of b: hundreds, tens, ones, computed as the source does. */
  function Bcd(b: byte): (d: seq<byte>)
    ensures |d| == 3 && d[0] < 10 && d[1] < 10 && d[2] < 10
    ensures 100 * d[0] as int + 10 * d[1] as int + d[2] as int == b as int
  {
    DigitsAddUp(b as int);
    [b / 100, (b / 10) % 10, (b % 100) % 10]
  }

  /** Hundreds, tens and ones, computed as Bcd does, recompose the number. */
  lemma DigitsAddUp(n: int)
    requires 0 <= n < 0x100
    ensures 100 * (n / 100) + 10 * ((n / 10) % 10) + (n % 100) % 10 == n
  {
    var h, r := n / 100, n % 100;
    assert n == 100 * h + r;
    assert n / 10 == 10 * h + r / 10;
    assert (n / 10) % 10 == r / 10;
  }

  /** Memory after writing the three digits of b to memory[i], memory[i+1] and memory[i+2]. */
  function StoreBcd(memory: seq<byte>, i: word, b: byte): (m: seq<byte>)
    requires |memory| == MemorySize && i as int + 2 < MemorySize
    ensures |m| == MemorySize
    ensures m[i as int .. i as int + 3] == Bcd(b)
    ensures forall a :: 0 <= a < MemorySize && !(i as int <= a < i as int + 3) ==> m[a] == memory[a]
  {
    var d := Bcd(b);
    memory[i := d[0]][i as int + 1 := d[1]][i as int + 2 := d[2]]
  }

  /** Memory after writing the first `count` registers V0.. to memory[i..], in order. */
  function StoreRegisters(memory: seq<byte>, i: word, v: seq<byte>, count: nat): (m: seq<byte>)
    requires |memory| == MemorySize && |v| == RegisterCount && count <= RegisterCount
    requires i as int + count <= MemorySize
    ensures |m| == MemorySize
    ensures forall a :: 0 <= a < MemorySize ==>
              m[a] == if i as int <= a < i as int + count then v[a - i as int] else memory[a]
    decreases count
  {
    if count == 0 then memory
    else StoreRegisters(memory, i, v, count - 1)[i as int + count - 1 := v[count - 1]]
  }

  /** Registers after reading the first `count` of them, V0.., from memory[i..], in order. */
  function LoadRegisters(v: seq<byte>, memory: seq<byte>, i: word, count: nat): (w: seq<byte>)
    requires |memory| == MemorySize && |v| == RegisterCount && count <= RegisterCount
    requires i as int + count <= MemorySize
    ensures |w| == RegisterCount
    ensures forall r :: 0 <= r < RegisterCount ==> w[r] == if r < count then memory[i as int + r] else v[r]
    decreases count
  {
    if count == 0 then v
    else LoadRegisters(v, memory, i, count - 1)[count - 1 := memory[i as int + count - 1]]
  }

  /** A timer after one tick: it counts down to zero and stays there. */
  function Countdown(t: byte): (r: byte)
    ensures t > 0 ==> r as int == t as int - 1
    ensures t == 0 ==> r == 0
  {
    if t > 0 then t - 1 else 0
  }

  // The instruction groups. Each takes the state after pc has already been advanced by 2.

  /** Group 0, dispatched on the low nibble alone: 0 clears the screen, E returns. */
  function ExecSystem(t: State, op: word): (r: State)
    requires Wellformed(t) && Group(op) == 0x0 && Safe(t, op)
    ensures Wellformed(r)
  {
    if N(op) == 0x0 then t.(pixels := Display.Blank())
    else if N(op) == 0xE then t.(sp := t.sp - 1, pc := t.stack[t.sp - 1])
    else t
  }

  /** Group 8: register-to-register arithmetic. VF is written before the operands are read, so an
      operand that is VF itself sees the new flag. Low nibbles 8..D and F change nothing. */
  function ExecAlu(v: seq<byte>, op: word): (w: seq<byte>)
    requires |v| == RegisterCount
    ensures |w| == RegisterCount
  {
    var x, y, sub := X(op), Y(op), N(op);
    if sub == 0x0 then v[x := v[y]]
    else if sub == 0x1 then v[x := OrByte(v[x], v[y])]
    else if sub == 0x2 then v[x := AndByte(v[x], v[y])]
    else if sub == 0x3 then v[x := XorByte(v[x], v[y])]
    else if sub == 0x4 then
      var c := v[Flag := 0];
      var d := if c[x] > 0xFF - c[y] then c[Flag := 1] else c;
      d[x := AddByte(d[x], d[y])]
    else if sub == 0x5 then
      var c := v[Flag := 0];
      var d := if c[x] > c[y] then c[Flag := 1] else c;
      d[x := SubByte(d[x], d[y])]
    else if sub == 0x6 then
      var c := v[Flag := AndByte(v[x], 0x01)];
      c[x := ShrByte(c[x], 1)]
    else if sub == 0x7 then
      var c := v[Flag := 0];
      var d := if c[y] > c[x] then c[Flag := 1] else c;
      d[x := SubByte(d[y], d[x])]
    else if sub == 0xE then
      var c := v[Flag := AndByte(v[x], 0x80)];
      c[x := ShlByte(c[x])]
    else v
  }

  /** Dxyn: VF is cleared, then the n-byte sprite at memory[i..i+n) is drawn at (Vx, Vy) and VF
      becomes 1 on a collision. */
  function ExecDraw(t: State, op: word): (r: State)
    requires Wellformed(t) && Group(op) == 0xD && Safe(t, op)
    ensures Wellformed(r)
  {
    var sprite := t.memory[t.i .. t.i as int + N(op)];
    var c := t.v[Flag := 0];
    var f := Display.DrawSprite(t.pixels, c[X(op)] as nat, c[Y(op)] as nat, sprite);
    t.(v := if f.collision then c[Flag := 1] else c, pixels := f.pixels)
  }

  /** Group E: skip on the key named by Vx being pressed (9E) or not pressed (A1). */
  function ExecKey(t: State, op: word): (r: State)
    requires Wellformed(t) && Group(op) == 0xE && Safe(t, op)
    ensures Wellformed(r)
  {
    if Kk(op) == 0x9E then (if t.keys[t.v[X(op)]] then t.(pc := AddWord(t.pc, 2)) else t)
    else if Kk(op) == 0xA1 then (if !t.keys[t.v[X(op)]] then t.(pc := AddWord(t.pc, 2)) else t)
    else t
  }

  /** Group F: timers, key wait, the index register, BCD and register block transfers. */
  function ExecMisc(t: State, op: word): (r: State)
    requires Wellformed(t) && Group(op) == 0xF && Safe(t, op)
    ensures Wellformed(r)
  {
    var x, sub := X(op), Kk(op);
    if sub == 0x07 then t.(v := t.v[x := t.delayTimer])
    else if sub == 0x0A then
      var k := FirstPressed(t.keys);
      if k < 16 then t.(v := t.v[x := k as byte]) else t.(pc := SubWord(t.pc, 2))
    else if sub == 0x15 then t.(delayTimer := t.v[x])
    else if sub == 0x18 then t.(soundTimer := t.v[x])
    else if sub == 0x1E then t.(i := AddWord(t.i, t.v[x] as word))
    // At most 255 * 5, so the uint16 product never wraps.
    else if sub == 0x29 then t.(i := t.v[x] as word * 5)
    else if sub == 0x33 then t.(memory := StoreBcd(t.memory, t.i, t.v[x]))
    else if sub == 0x55 then t.(memory := StoreRegisters(t.memory, t.i, t.v, x + 1))
    else if sub == 0x65 then t.(v := LoadRegisters(t.v, t.memory, t.i, x + 1))
    else t
  }

  /** One execute: advance pc by 2, then dispatch on the top nibble. `rnd` is the random byte
      that Cxkk masks. */
  function Exec(s: State, op: word, rnd: byte): (r: State)
    requires Wellformed(s) && Safe(s, op)
    ensures Wellformed(r)
  {
    var t := s.(pc := AddWord(s.pc, 2));
    var g, x, kk := Group(op), X(op), Kk(op);
    if g == 0x0 then ExecSystem(t, op)
    else if g == 0x1 then t.(pc := Nnn(op))
    else if g == 0x2 then t.(stack := t.stack[t.sp := t.pc], pc := Nnn(op), sp := t.sp + 1)
    else if g == 0x3 then (if t.v[x] == kk then t.(pc := AddWord(t.pc, 2)) else t)
    else if g == 0x4 then (if t.v[x] != kk then t.(pc := AddWord(t.pc, 2)) else t)
    else if g == 0x5 then (if t.v[x] == t.v[Y(op)] then t.(pc := AddWord(t.pc, 2)) else t)
    else if g == 0x6 then t.(v := t.v[x := kk])
    else if g == 0x7 then t.(v := t.v[x := AddByte(t.v[x], kk)])
    else if g == 0x8 then t.(v := ExecAlu(t.v, op))
    else if g == 0x9 then (if t.v[x] != t.v[Y(op)] then t.(pc := AddWord(t.pc, 2)) else t)
    else if g == 0xA then t.(i := Nnn(op))
    else if g == 0xB then t.(pc := AddWord(Nnn(op), t.v[0] as word))
    else if g == 0xC then t.(v := t.v[x := AndByte(rnd, kk)])
    else if g == 0xD then ExecDraw(t, op)
    else if g == 0xE then ExecKey(t, op)
    else ExecMisc(t, op)
  }

  /** One cycle: fetch the opcode at pc, then execute it. */
  function Step(s: State, rnd: byte): (r: State)
    requires Wellformed(s) && s.pc as int + 1 < MemorySize && Safe(s, Fetch(s.memory, s.pc))
    ensures Wellformed(r)
  {
    Exec(s, Fetch(s.memory, s.pc), rnd)
  }

  /** The state of a freshly allocated VM: every field zero, as Go's zero value. */
  function Zero(): (s: State)
    ensures Wellformed(s)
    ensures forall a :: 0 <= a < MemorySize ==> s.memory[a] == 0
    ensures forall r :: 0 <= r < RegisterCount ==> s.v[r] == 0
    ensures forall d :: 0 <= d < StackDepth ==> s.stack[d] == 0
    ensures s.i == 0 && s.sp == 0 && s.pc == 0 && s.delayTimer == 0 && s.soundTimer == 0
    ensures forall k :: 0 <= k < Display.PixelCount ==> s.pixels[k] == 0
    ensures forall k :: 0 <= k < Keyboard.KeyCount ==> !s.keys[k]
  {
    State(seq(MemorySize, _ => 0), seq(RegisterCount, _ => 0), 0, seq(StackDepth, _ => 0), 0, 0, 0, 0,
          Display.Blank(), Keyboard.Released())
  }

  /** The state after Reset: the font table at 0x000..0x04F, every other byte, register, stack slot
      and timer zero, pc at 0x200, the screen cleared and every key released. */
  function ResetState(): (s: State)
    ensures Wellformed(s)
    ensures s.memory[..80] == Display.Fonts
    ensures forall a :: 80 <= a < MemorySize ==> s.memory[a] == 0
    ensures forall r :: 0 <= r < RegisterCount ==> s.v[r] == 0
    ensures forall d :: 0 <= d < StackDepth ==> s.stack[d] == 0
    ensures s.i == 0 && s.sp == 0 && s.pc == ProgramStart && s.delayTimer == 0 && s.soundTimer == 0
    ensures forall k :: 0 <= k < Display.PixelCount ==> s.pixels[k] == 0
    ensures forall k :: 0 <= k < Keyboard.KeyCount ==> !s.keys[k]
  {
    State(Display.Fonts + seq(MemorySize - 80, _ => 0), seq(RegisterCount, _ => 0), 0,
          seq(StackDepth, _ => 0), 0, ProgramStart, 0, 0, Display.Blank(), Keyboard.Released())
  }
}

# CHIP-8 interpreter core, in Dafny

This project models the core of a CHIP-8 interpreter written in Go. It covers three parts:

- the virtual machine: 4096 bytes of memory, sixteen 8-bit registers V0..VF, the 16-bit index register I, a 16-slot return stack with its pointer, the program counter and two 8-bit timers;
- the 64x32 monochrome framebuffer, with its XOR sprite drawing and collision flag;
- the 16-key keypad.

The Go code changes these in place, so each becomes a Dafny class over arrays:

- `Vm.VM` holds `memory`, `v` and `stack` arrays and owns a `Display.Display` and a `Keyboard.Keyboard`;
- `Display.Display` holds the `pixels` array;
- `Keyboard.Keyboard` holds the `keys` array.

Every method states its effect on the object's abstract view through a specification function of the old view:

- `VM.State()` against module `Machine`: `Exec` for one instruction, `Step` for one cycle, `ResetState` for Reset;
- `Display.Pixels()` against `Display.DrawSprite` and `Blank`;
- `Keyboard.Keys()` against `Keyboard.Pressed` and `Released`.

The loops of the source are kept as loops with invariants:

- the array-clearing loops of the three Reset methods;
- the row/bit loops of Draw, with their collision accumulator;
- the key scan of Fx0A, with its early exit;
- the Fx55/Fx65 copy loops.

Go's `uint8` and `uint16` are the newtypes `Bytes.byte` and `Bytes.word`. Every `+=`, `-=`, `<<` and `>>` of the source wraps explicitly (`AddByte`, `SubWord`, `ShlByte`, ...). The bitwise `|`, `&` and `^` are defined bit by bit on these integers (`Bytes.Bitwise`).

Several quirks of the code are modelled as written:

- Group 0 dispatches on the low nibble alone, so any 0nn0 clears the screen and any 0nnE returns.
- Group 8 has no default case, so 8xy8..8xyD and 8xyF do nothing beyond the pc advance.
- 8xyE stores `Vx & 0x80` in VF. VF is therefore 0 or 0x80, where a description of CHIP-8 would say "the high bit", i.e. 0 or 1. The model follows the code.
- In 8xy4, 8xy5, 8xy6, 8xy7 and 8xyE and in Dxyn, VF is written before the operands are read, so an operand that is VF sees the new flag (`AddReadsClearedFlag`, `SubReadsClearedFlag`, `SubnReadsClearedFlag`, `ShiftOfFlagClears`, `DrawReadsClearedFlag`).

Where Go would panic (an array index out of range), the operation has a precondition. `Machine.Safe` collects the cases for one instruction:

- RET with sp = 0;
- CALL with sp = 16: the array bounds check panics, the stack does not wrap;
- a sprite, BCD or register block reaching past memory;
- a key index of 16 or more.

Module `MachineProofs` states what each instruction does, in terms of the registers and memory. `DisplayProofs` gives Draw a closed form for sprites of at most 32 rows (every Dxyn sprite qualifies), with its consequences. `MachineExamples` and `DisplayExamples` replay the repository's unit-test scenarios on the model.

The expected values in these scenarios follow the code. In the 8xy4 scenario, 110 + 250 leaves 0x68 with VF = 1.

## Model

| member | source | states |
|---|---|---|
| Bytes.AddByte | vm/vm.go:109 | uint8 `+`: the exact sum below 256, the sum minus 256 otherwise |
| Bytes.SubByte | vm/vm.go:139 | uint8 `-`: the exact difference when a >= b, the difference plus 256 otherwise |
| Bytes.ShrByte | vm/vm.go:143 | uint8 `>>`: r is a / 2^n rounded down, r * 2^n <= a < (r + 1) * 2^n |
| Bytes.ShlByte | vm/vm.go:154 | uint8 `<<= 1`: 2a below 0x80, 2a - 256 from 0x80 on (the top bit falls off) |
| Bytes.Pow2 | display/display.go:59 | the shift weights used by `>>` are positive |
| Bytes.Pow2Doubles | display/display.go:59 | Pow2(0) = 1 and each step doubles, so Pow2(n) is 2^n |
| Bytes.Bitwise | vm/vm.go:116-124 | bit by bit over w bits: the result fits in w bits; or is at least each operand; and is at most each operand; xor is 0 iff the operands are equal; 0 leaves or/xor unchanged, all-ones leaves and unchanged, xor with all-ones complements |
| Bytes.OrByte | vm/vm.go:116-118 | uint8 `\|`: at least each operand, and 0 is its identity |
| Bytes.AndByte | vm/vm.go:119-121 | uint8 `&`: at most each operand, a & a = a, and 0xFF is its identity on either side |
| Bytes.XorByte | vm/vm.go:122-124 | uint8 `^`: 0 iff the operands are equal, 0 is its identity, and 0xFF ^ b = 0xFF - b |
| Bytes.AndLowBit | vm/vm.go:142 | `a & 0x01` is a mod 2, the bit 8xy6 shifts out |
| Bytes.AndTopBit | vm/vm.go:153 | masking a w-bit number with the weight of its top bit keeps exactly that bit |
| Bytes.AndHighBit | vm/vm.go:153 | `a & 0x80` is 0x80 when the top bit is set and 0 otherwise, never 1 |
| Bytes.AndExtremes | vm/vm.go:169 | masking with 0 gives 0 and masking with 0xFF keeps the byte |
| Bytes.AddWord | vm/vm.go:66 | uint16 `+`: the exact sum below 65536, the sum minus 65536 otherwise |
| Bytes.SubWord | vm/vm.go:201 | uint16 `-`: the exact difference when a >= b, the difference plus 65536 otherwise |
| Keyboard.Released | keyboard/keyboard.go:12-16 | sixteen slots, all false |
| Keyboard.Pressed | keyboard/keyboard.go:18-20 | slot `index` becomes `press` and every other slot keeps its value |
| Keyboard.PressIdempotent | keyboard/keyboard.go:18-20 | pressing the same key the same way twice equals doing it once |
| Keyboard.PressCommutes | keyboard/keyboard.go:18-20 | updates of two different keys commute |
| Keyboard.Keyboard.constructor | keyboard/keyboard.go:7-10 | a new keypad has every key released |
| Keyboard.Keyboard.Reset | keyboard/keyboard.go:12-16 | after the clearing loop every key is released |
| Keyboard.Keyboard.PressKey | keyboard/keyboard.go:18-20 | the key array becomes `Pressed(old, index, press)`; needs index < 16 |
| Keyboard.Keyboard.IsPressed | keyboard/keyboard.go:22-24 | a read of slot `index` that changes nothing; needs index < 16 |
| Display.Blank | display/display.go:34-38 | 2048 pixels, all 0 |
| Display.Bit | display/display.go:59 | a sprite bit is 0 or 1, counted from the most significant bit |
| Display.Index | display/display.go:40-46 | an on-screen (x, y) is a cell of the buffer whose column is x and whose row is y |
| Display.Target | display/display.go:62-64 | the wrapped target ((x+i) mod 64, (y+j) mod 32) is always inside the buffer |
| Display.Flip | display/display.go:70-74 | the new value of a touched pixel is 0 or 1, and `1 - p` for a 0/1 pixel |
| Display.PlotBit | display/display.go:58-75 | one bit of the inner loop keeps a 2048-pixel buffer |
| Display.DrawRowPrefix | display/display.go:57-76 | the inner loop over bits 0..i-1 keeps a 2048-pixel buffer |
| Display.DrawPrefix | display/display.go:55-77 | the outer loop over rows 0..j-1 keeps a 2048-pixel buffer |
| Display.DrawSprite | display/display.go:52-79 | the whole draw keeps a 2048-pixel buffer |
| Display.Display.constructor | display/display.go:29-32 | a new display is blank |
| Display.Display.Reset | display/display.go:34-38 | after the clearing loop the buffer is blank |
| Display.Display.SetPixel | display/display.go:40-42 | only the cell x + 64y changes, to the given value |
| Display.Display.GetPixel | display/display.go:48-50 | reads cell `index` of the buffer |
| Display.Display.GetPixelAt | display/display.go:44-46 | reads the same cell as GetPixel(x + 64y) |
| Display.Display.Draw | display/display.go:52-79 | the nested loops leave exactly the buffer and collision flag of `DrawSprite` |
| DisplayProofs.TargetOffsets | display/display.go:62-64 | bit i of row j lands on pixel k iff k's wrapped offsets from (x, y) are (i, j) |
| DisplayProofs.TargetHasOffsets | display/display.go:62-64 | the target of bit (j, i) has wrapped offsets (i, j) |
| DisplayProofs.OffsetsLocate | display/display.go:62-64 | every pixel is the target of the bit at its own offsets |
| DisplayProofs.PlotBitClosed | display/display.go:58-75 | one more bit extends the closed form of the draw by that bit |
| DisplayProofs.RowPrefixClosed | display/display.go:57-76 | the inner loop agrees with the closed form after every bit |
| DisplayProofs.PrefixClosed | display/display.go:55-77 | the outer loop agrees with the closed form after every row |
| DisplayProofs.DrawEffect | display/display.go:52-79 | for at most 32 rows, exactly the pixels under set bits are flipped and the rest unchanged; collision iff one of them was 1 before |
| DisplayProofs.HitIsTarget | display/display.go:55-64 | the flipped pixels are exactly the wrapped targets of set bits |
| DisplayProofs.DrawCollision | display/display.go:60-68 | collision iff some set bit's target pixel was lit before the draw |
| DisplayProofs.DrawOnBlankNeverCollides | display/display.go:52-79 | drawing on a cleared screen reports no collision |
| DisplayProofs.DrawEmptySprite | display/display.go:60 | a sprite with no set bit, of any height, changes nothing and reports no collision |
| DisplayProofs.EmptyPrefix | display/display.go:55-77 | rows without set bits leave the frame as it was |
| DisplayProofs.EmptyRow | display/display.go:57-76 | a row without set bits leaves the frame as it was |
| DisplayProofs.DrawKeepsBinary | display/display.go:59-74 | a buffer of 0/1 pixels stays a buffer of 0/1 pixels |
| DisplayProofs.DrawTwiceRestores | display/display.go:69-74 | drawing the same sprite twice restores a 0/1 buffer; the second collision holds iff the first draw lit a pixel that was dark |
| DisplayProofs.DrawTwiceOnBlank | display/display.go:69-74 | on a blank screen the second of two identical draws collides iff the sprite has a set bit |
| DisplayExamples.HitAtOrigin | display/display.go:62-63 | a sprite drawn at (0, 0) covers pixel k iff column < 8, row < rows, and that bit is set |
| DisplayExamples.PixelAtOrigin | display/display.go:52-79 | on a blank screen, pixel (i, j) after a draw at the origin is bit i of row j |
| DisplayExamples.RowAtOrigin | display/display.go:52-79 | on a blank screen, screen row j starts with the bits of sprite row j |
| DisplayExamples.Row33Bits | display/display_test.go:17-28 | row 0x33 reads 0011 0011, most significant bit leftmost |
| DisplayExamples.RowCABits | display/display_test.go:17-36 | row 0xCA reads 1100 1010 |
| DisplayExamples.CollisionRowBits | display/display_test.go:44-58 | 0x30 and 0x03 share no set bit; bit 7 is set in 0x03 and 0x01 only |
| DisplayExamples.DrawRowsExample | display/display_test.go:14-41 | [0x33, 0xCA] at (0, 0) on a blank screen lights 0011 0011 / 1100 1010 without collision |
| DisplayExamples.DarkUnderSecond | display/display_test.go:44-55 | the pixels under 0x03 are still dark after 0x30 is drawn |
| DisplayExamples.SecondDrawExample | display/display_test.go:44-55 | the second draw reports no collision and lights pixel 7 |
| DisplayExamples.CollisionExample | display/display_test.go:42-62 | 0x30, 0x03, 0x01 at the origin report no collision, no collision, collision |
| DisplayExamples.SetAndClearScenario | display/display_test.go:64-71 | on a fresh display, SetPixel(1, 1, 1) reads back 1, and after Reset it reads 0 |
| DisplayExamples.DrawScenario | display/display_test.go:14-41 | Draw on a fresh Display object lights the two expected rows, without collision |
| DisplayExamples.CollisionScenario | display/display_test.go:42-62 | three Draws on one Display object return false, false, true |
| Machine.Group | vm/vm.go:68 | the top nibble is one of 16 groups |
| Machine.X | vm/vm.go:60 | x selects one of the 16 registers |
| Machine.Y | vm/vm.go:61 | y selects one of the 16 registers |
| Machine.Nnn | vm/vm.go:62 | nnn is a 12-bit address |
| Machine.N | vm/vm.go:64 | n is below 16 |
| Machine.Kk | vm/vm.go:63 | kk is the low byte: y * 16 + n, and nnn = x * 256 + kk |
| Machine.FieldsRecompose | vm/vm.go:60-64 | group, x, y and n put back together give the opcode |
| Machine.Safe | vm/vm.go:59-243 | Go can only panic in groups 0, 2, D, E and F: never in groups 1, 3-C, never in Fx other than 33/55/65, never in Dxyn when I + 15 fits in memory, never in Ex9E/ExA1 when Vx < 16 (the exact conditions: StackBounds and AccessBounds) |
| Machine.Fetch | vm/vm.go:54-57 | the opcode's high byte is memory[pc] and its low byte memory[pc + 1] |
| Machine.FirstPressedFrom | vm/vm.go:202-208 | the lowest pressed key at or above `from`, or 16 with none pressed there |
| Machine.FirstPressed | vm/vm.go:202-208 | the lowest pressed key, or 16 when none is pressed |
| Machine.FirstPressedIs | vm/vm.go:202-208 | any index that is pressed with none below it (or 16 with none at all) is FirstPressed |
| Machine.Bcd | vm/vm.go:223-225 | three decimal digits, each below 10, that recompose the byte |
| Machine.DigitsAddUp | vm/vm.go:223-225 | the source's digit formulas recompose any number below 256 |
| Machine.StoreBcd | vm/vm.go:221-225 | memory[i..i+3) holds the BCD digits and every other cell is unchanged |
| Machine.StoreRegisters | vm/vm.go:226-230 | memory[i..i+count) holds V0.. in order and every other cell is unchanged |
| Machine.LoadRegisters | vm/vm.go:231-235 | V0..V(count-1) hold memory[i..] in order and the other registers are unchanged |
| Machine.Countdown | vm/vm.go:250-257 | a positive timer drops by one and a zero timer stays zero, never wrapping |
| Machine.ExecSystem | vm/vm.go:69-80 | group 0 keeps the state well formed (its effect: AnyLowZeroClears, RetPops, CallThenReturn, UnrecognisedIsNoOp) |
| Machine.ExecAlu | vm/vm.go:110-155 | group 8 keeps sixteen registers (its effect: LogicWritesOnlyVx, AddSetsCarry, SubSetsNotBorrow, SubnSetsNotBorrow, ShrSetsLowBit, ShlSetsHighBit, the ReadsClearedFlag lemmas, ShiftOfFlagClears, AluGapsAreNoOps) |
| Machine.ExecDraw | vm/vm.go:170-177 | Dxyn keeps the state well formed (its effect: DrawFlipsAndFlags, DrawUpdates, DrawReadsClearedFlag) |
| Machine.ExecKey | vm/vm.go:179-193 | group E keeps the state well formed (its effect: SkipMovesOnlyPc) |
| Machine.ExecMisc | vm/vm.go:194-238 | group F keeps the state well formed (its effect: TimerTransfers, WaitWithoutKeyRepeats, WaitWithKeyTakesLowest, AddToIndexWraps, GlyphAddress, BcdWritesDigits, StoreCopiesPrefix, LoadCopiesPrefix, UnrecognisedIsNoOp) |
| Machine.Exec | vm/vm.go:59-243 | any instruction on a state where Go does not panic yields a well-formed state |
| Machine.Step | vm/vm.go:245-248 | a cycle yields a well-formed state |
| Machine.Zero | vm/vm.go:24-27 | a freshly allocated VM has memory, registers, stack, I, sp, pc and timers all zero, a blank screen and no key down |
| Machine.ResetState | vm/vm.go:29-52 | fonts at 0x000..0x04F, the rest of memory, registers, stack, I, sp and timers zero, pc = 0x200, blank screen, no key down |
| MachineProofs.SequentialAdvancesPc | vm/vm.go:66 | every opcode other than RET, jumps, CALL, skips and Fx0A leaves pc at old + 2 |
| MachineProofs.SkipMovesOnlyPc | vm/vm.go:89-103 | a conditional skip (3, 4, 5, 9, E9E, EA1) changes only pc: +4 when its condition holds, +2 otherwise |
| MachineProofs.CallThenReturn | vm/vm.go:74-88 | CALL pushes old pc + 2, jumps to nnn and increments sp; a following RET restores pc to old + 2 and sp to its old value |
| MachineProofs.CallPushes | vm/vm.go:84-88 | CALL from any state with sp < 16 cannot panic, stores old pc + 2 in slot sp, increments sp, sets pc to nnn and changes nothing else |
| MachineProofs.RetPops | vm/vm.go:74-77 | RET from any state with sp >= 1 cannot panic, decrements sp, sets pc to the address in the slot it vacates and changes nothing else |
| MachineProofs.StackBounds | vm/vm.go:74-88 | RET is defined iff sp >= 1 and CALL iff sp < 16 |
| MachineProofs.AccessBounds | vm/vm.go:170-238 | exactly when Go does not panic: Dxyn iff I + n <= 4096, Fx33 iff I + 2 < 4096, Fx55/Fx65 iff I + x < 4096, Ex9E/ExA1 iff Vx < 16; other group-E opcodes always |
| MachineProofs.JumpSetsPc | vm/vm.go:81-83 | 1nnn sets pc to nnn and changes nothing else |
| MachineProofs.JumpWithOffsetSetsPc | vm/vm.go:164-166 | Bnnn sets pc to nnn + V0, which never wraps, and changes nothing else |
| MachineProofs.LoadIndexSetsI | vm/vm.go:161-163 | Annn sets I to nnn and changes nothing else but pc |
| MachineProofs.LoadByteSetsVx | vm/vm.go:104-106 | 6xkk sets Vx to kk and changes nothing else but pc |
| MachineProofs.AddByteWrapsWithoutCarry | vm/vm.go:107-109 | 7xkk sets Vx to (Vx + kk) mod 256 and changes nothing else but pc; VF gets no carry |
| MachineProofs.LogicWritesOnlyVx | vm/vm.go:113-124 | 8xy0..8xy3 set Vx to Vy, Vx \| Vy, Vx & Vy or Vx ^ Vy and change nothing else but pc |
| MachineProofs.AddSetsCarry | vm/vm.go:125-131 | 8xy4 (x, y != F): Vx = (Vx + Vy) mod 256, VF = 1 iff Vx + Vy > 255, other registers unchanged |
| MachineProofs.SubSetsNotBorrow | vm/vm.go:133-139 | 8xy5: Vx = (Vx - Vy) mod 256, VF = 1 iff Vx > Vy strictly, other registers unchanged |
| MachineProofs.SubnSetsNotBorrow | vm/vm.go:144-150 | 8xy7: Vx = (Vy - Vx) mod 256, VF = 1 iff Vy > Vx, other registers unchanged |
| MachineProofs.ShrSetsLowBit | vm/vm.go:140-143 | 8xy6 (x != F): Vx = Vx / 2 and VF = old Vx mod 2 |
| MachineProofs.ShlSetsHighBit | vm/vm.go:151-154 | 8xyE (x != F): Vx = 2Vx mod 256 and VF = 0x80 or 0 |
| MachineProofs.AddReadsClearedFlag | vm/vm.go:125-131 | 8xF4 leaves Vx as it was and VF = 0; 8Fy4 leaves VF = Vy; memory, I, stack, sp, timers, screen and keys are unchanged and pc advances by 2 |
| MachineProofs.SubReadsClearedFlag | vm/vm.go:133-139 | 8xF5 (y = F) decrements Vx down to 0 with VF = 1 iff Vx was positive; 8Fy5 leaves VF = 0 - Vy mod 256; nothing outside the registers changes but pc |
| MachineProofs.SubnReadsClearedFlag | vm/vm.go:144-150 | 8xF7 (y = F) sets Vx = 0 - Vx mod 256 and VF = 0; 8Fy7 leaves VF = Vy - 1, or 0 when Vy is 0; nothing outside the registers changes but pc |
| MachineProofs.ShiftOfFlagClears | vm/vm.go:140-154 | 8Fy6 and 8FyE leave VF = 0 and change nothing else but pc |
| MachineProofs.AluGapsAreNoOps | vm/vm.go:110-155 | 8xy8..8xyD and 8xyF change nothing but pc |
| MachineProofs.UnrecognisedIsNoOp | vm/vm.go:68-242 | opcodes that reach a default case cannot panic and change nothing but pc |
| MachineProofs.AnyLowZeroClears | vm/vm.go:69-73 | every 0nn0, not only 00E0, blanks the screen and changes nothing else but pc |
| MachineProofs.TimerTransfers | vm/vm.go:196-214 | Fx07 sets Vx to the delay timer; Fx15 and Fx18 set the delay and sound timers to Vx; nothing else but pc changes |
| MachineProofs.AddToIndexWraps | vm/vm.go:215-217 | Fx1E sets I to (I + Vx) mod 65536, leaves VF alone and changes nothing else but pc |
| MachineProofs.BcdWritesDigits | vm/vm.go:221-225 | Fx33 writes three digits below 10 recomposing Vx at I..I+2 and changes no other cell or register |
| MachineProofs.StoreCopiesPrefix | vm/vm.go:226-230 | Fx55 writes exactly V0..Vx to memory[I..I+x], nothing else changes but pc |
| MachineProofs.LoadCopiesPrefix | vm/vm.go:231-235 | Fx65 loads exactly V0..Vx from memory[I..I+x]; V(x+1)..VF and memory unchanged |
| MachineProofs.StoreThenLoadRestores | vm/vm.go:226-235 | Fx55 then Fx65 with the same x and I gives back every register unchanged |
| MachineProofs.WaitWithoutKeyRepeats | vm/vm.go:199-208 | Fx0A with no key down leaves the whole state, pc included, unchanged |
| MachineProofs.WaitWithKeyTakesLowest | vm/vm.go:199-208 | Fx0A with a key down stores the lowest pressed key in Vx and advances pc by 2 |
| MachineProofs.GlyphAddress | vm/vm.go:218-220 | Fx29 sets I to 5 * Vx for every Vx, cannot panic and changes nothing else but pc; when the font table is loaded and Vx < 16, the five bytes at I are the glyph for digit Vx |
| MachineProofs.RandomIsMasked | vm/vm.go:167-169 | Cxkk stores rnd & kk in Vx and changes nothing else; mask 0 gives 0, mask 0xFF gives rnd |
| MachineProofs.DrawFlipsAndFlags | vm/vm.go:170-177 | Dxyn (x, y != F) flips exactly the pixels under the sprite's set bits, VF = 1 iff one was lit, nothing else but pc changes |
| MachineProofs.DrawUpdates | vm/vm.go:170-177 | Dxyn (x, y != F) takes the drawn buffer and sets VF to the collision flag |
| MachineProofs.DrawReadsClearedFlag | vm/vm.go:170-177 | when x or y is F, that coordinate reads as 0 because VF is cleared first; the screen becomes the drawn one and VF the collision flag |
| MachineProofs.StepRunsFetchedOpcode | vm/vm.go:245-248 | a cycle executes the opcode whose group and x come from memory[pc] and kk from memory[pc + 1] |
| MachineExamples.WithRegisters | vm/vm_test.go:49-50 | a fresh VM with the registers a test sets, and zero memory, pc, sp, I and timers |
| MachineExamples.CallAndReturnExample | vm/vm_test.go:8-45 | from pc 0x23, 2ABC pushes 0x25, sp = 1, pc = 0xABC; 00EE returns to 0x25 with sp = 0 |
| MachineExamples.JumpExample | vm/vm_test.go:24-30 | 1A2A sets pc to 0xA2A |
| MachineExamples.LoadIndexExample | vm/vm_test.go:203-210 | A111 sets I to 0x111 |
| MachineExamples.JumpWithOffsetExample | vm/vm_test.go:213-220 | BA2A with V0 = 2 sets pc to 0xA2C |
| MachineExamples.SkipIfEqualByteExample | vm/vm_test.go:48-60 | 31FE skips to 4 and then 31FA does not, reaching 6 |
| MachineExamples.SkipIfNotEqualByteExample | vm/vm_test.go:63-75 | 41FE does not skip (pc 2) and 41FA does (pc 6) |
| MachineExamples.SkipIfEqualRegisterExample | vm/vm_test.go:78-92 | 5120 skips (pc 4) and 5020 does not (pc 6) |
| MachineExamples.SkipIfNotEqualRegisterExample | vm/vm_test.go:186-200 | 9120 does not skip (pc 2) and 9020 does (pc 6) |
| MachineExamples.LoadAndAddExamples | vm/vm_test.go:95-126 | 6008 gives 8, 7008 on 1 gives 9, 8010 copies 0 |
| MachineExamples.OrExample | vm/vm_test.go:129-139 | with V0 = 0xFF and V1 = 0xAA, 8011 leaves V0 = 0xFF |
| MachineExamples.AndExample | vm/vm_test.go:141-151 | with V0 = 0xFF and V1 = 0xAA, 8012 leaves V0 = 0xAA |
| MachineExamples.XorExample | vm/vm_test.go:153-162 | with V0 = 0xFF and V1 = 0xAA, 8013 leaves V0 = 0x55 |
| MachineExamples.AddWithCarryExample | vm/vm_test.go:165-183 | 10 + 100 = 110 with VF 0, then 110 + 250 = 0x68 with VF 1 |
| MachineExamples.AddToIndexExample | vm/vm_test.go:223-231 | F01E with I = 2 and V0 = 6 gives I = 8 |
| MachineExamples.BcdExample | vm/vm_test.go:234-248 | F233 with V2 = 234 writes 2, 3, 4 at 0x300 |
| MachineExamples.StoreRegistersExample | vm/vm_test.go:251-270 | F255 writes 1, 2, 3 and leaves 0x303 at 0 |
| MachineExamples.LoadRegistersExample | vm/vm_test.go:273-293 | F265 loads 1, 2, 3 into V0..V2 and leaves V3 at 0 |
| Vm.VM.constructor | vm/vm.go:24-27 | a new VM is the zero state |
| Vm.VM.Reset | vm/vm.go:29-52 | after the loops over memory, registers and stack, the state is `ResetState()` |
| Vm.VM.Fetch | vm/vm.go:54-57 | returns `Machine.Fetch` of memory at pc; needs pc + 1 < 4096 |
| Vm.VM.Execute | vm/vm.go:59-243 | the new state is `Exec(old state, opcode, rnd)` on any state where Go does not panic |
| Vm.VM.ExecuteSystem | vm/vm.go:69-80 | group 0 in place equals `ExecSystem` |
| Vm.VM.ExecuteAlu | vm/vm.go:110-155 | the register writes, in the source's order, equal `ExecAlu` |
| Vm.VM.ExecuteDraw | vm/vm.go:170-177 | clearing VF, drawing and setting VF on collision equals `ExecDraw` |
| Vm.VM.ExecuteKey | vm/vm.go:179-193 | group E in place equals `ExecKey` |
| Vm.VM.ExecuteMisc | vm/vm.go:194-238 | group F in place equals `ExecMisc` |
| Vm.VM.WaitKey | vm/vm.go:199-208 | the key scan with early exit stores the lowest pressed key and advances pc, or leaves pc stepped back by 2 |
| Vm.VM.StoreRegisters | vm/vm.go:226-230 | the copy loop leaves memory equal to `Machine.StoreRegisters(.., x + 1)` |
| Vm.VM.LoadRegisters | vm/vm.go:231-235 | the copy loop leaves the registers equal to `Machine.LoadRegisters(.., x + 1)` |
| Vm.VM.Cycle | vm/vm.go:245-248 | fetch then execute equals `Step` |
| Vm.VM.DecrementTimers | vm/vm.go:250-257 | each timer becomes its `Countdown`, and nothing else changes |
| Vm.VM.SetMemory | vm/vm.go:267-269 | exactly one memory cell changes; needs 0 <= index < 4096 |

## Left out

- chip8.go, the browser host, is not part of this model. Out of scope are its canvas rendering, DOM key events and key-code table, its animation-frame loop (which calls Cycle and DecrementTimers) and its ROM download.
- `rand.Intn(256)` in Cxkk is a parameter `rnd` of `Exec`, `Vm.VM.Execute` and `Vm.VM.Cycle`. The model states `Vx = rnd & kk` for whatever byte is supplied.
- The `fmt.Printf` logging of unknown opcodes is I/O. The model treats those opcodes as doing nothing beyond the pc advance.
- `GetDisplay` and `GetKeyboard` (vm/vm.go:259-265) only expose the owned objects. The VM's `display` and `keyboard` fields serve in their place.
- Go panics are not modelled as a result. Each place that would panic is a precondition (`Machine.Safe`, and the `requires` of Fetch, PressKey, IsPressed, SetPixel and SetMemory). No fault policy is added.
- Vm.VM.Reset: Go assigns a freshly zeroed Display and Keyboard value into the VM's fields before clearing them. The model clears the VM's own display and keyboard objects in place, which leaves the same contents.
- Display.Display.Draw takes `x` and `y` as natural numbers. Go's `int` parameters are always converted from `uint8` registers, so they are never negative.
- Display.Display.Draw takes the sprite as a sequence value rather than a pointer to a Go slice of memory. Draw never writes the sprite, so aliasing cannot change the result.
- DisplayProofs.DrawEffect, DisplayProofs.DrawKeepsBinary and DisplayProofs.DrawTwiceRestores are stated for sprites of at most 32 rows. With more rows, two sprite bits can land on the same pixel. Dxyn never draws more than 15 rows.
- Display.Bit: its contract states only that the bit is 0 or 1. Its bit order is shown by `Row33Bits`, `RowCABits` and `DrawRowsExample`.
- Display.Flip computes `1 if old != 1 else 0`, as the source does. For pixel values other than 0 and 1, which no operation produces, the result is not `1 - p`.
- Bytes.OrByte, Bytes.AndByte and Bytes.XorByte: their contracts state the order, identity and complement facts the interpreter relies on, not every bit of the result. The full bit-by-bit value is the definition of `Bytes.Bitwise`.
- Machine.ExecSystem, Machine.ExecAlu, Machine.ExecDraw, Machine.ExecKey, Machine.ExecMisc and Machine.Exec: their own contracts state only well-formedness. Their effect is stated opcode by opcode in `MachineProofs`.
- Machine.Group, Machine.X, Machine.Y, Machine.Nnn and Machine.N: they compute the opcode fields with division and remainder, not masks and shifts. On unsigned values these are the same fields. Their own contracts state the field ranges; `Machine.Kk` and `Machine.FieldsRecompose` state how the fields make up the opcode.
- The top-level `default` of `execute` (vm/vm.go:239-240) is unreachable, since all sixteen groups are handled. It has no counterpart in the model.

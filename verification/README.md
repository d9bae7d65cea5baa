# CHIP-8 interpreter engine, modelled in Dafny

This project models the execution engine of a CHIP-8 interpreter: the machine
state (4096 bytes of memory, sixteen 8-bit registers V0-VF, the 16-bit index
register I and program counter, a 16-entry return stack with its depth, the
delay and sound timers, a 64x32 display and a 16-key keypad), its construction
with the hex-digit font at 0x050, program loading at 0x200, and the
fetch-advance-dispatch-tick cycle over the 34 instruction routines.

Layout, one module per file:

- `base.dfy` (`Base`): 8-bit, 16-bit and 4-bit integer types, `Option`, the
  explicit 8-bit and 16-bit wrap-arounds of the source's unsigned assignments.
- `bits.dfy` (`Bits`): AND, OR and XOR defined one bit at a time, with the
  per-bit reading `Bit` as their reference.
- `state.dfy` (`State`): the `Machine` datatype, its size invariant `Valid`,
  the font, `Init` (construction) and `Load`.
- `decoder.dfy` (`Decoder`): operand fields, the `Handler` enumeration of the 34
  routines, the main table and the four sub-tables with their slot counts, and
  `Dispatch`.
- `sprite.dfy` (`Sprite`): the pixel-by-pixel draw loop of DXYN and the
  simultaneous-XOR reference picture, with the proof that they agree.
- `handlers.dfy` (`Handlers`): one pure function per routine and `Execute`.
- `interpreter.dfy` (`Interpreter`): `Fetch`, `Step` and `Cycle`.
- `*_props.dfy`: lemmas grouped by concern (dispatch, cycle, stack, ALU,
  skips, memory, draw, whole programs).

Modelling choices:

- Display cells are `bool` (lit is 0xFFFFFFFF in the source, dark is 0, and a
  draw only ever XORs with 0xFFFFFFFF); keys are `bool` (pressed is non-zero).
- The random byte of CXKK is a parameter `rand` of `Cycle`.
- Sub-table selectors beyond a table's slot count (low nibble F for the 0x0,
  0x8 and 0xE families; low byte above 0x65 for the 0xF family) are treated as
  empty slots, i.e. the instruction does nothing.
- The source never checks memory indices derived from the program counter or
  from I, nor the keypad index taken from VX. The model does not mask them; it
  covers exactly the inputs where they are in range. `Handlers.Defined` states
  the condition for each routine (DXYN with N > 0 needs I + N <= 4096; FX33
  needs I + 3 <= 4096; FX55 and FX65 need I + X < 4096; EX9E and EXA1 need
  VX < 16), and `Interpreter.Ready` adds pc + 1 < 4096 for the fetch.
- The routines are written as the source's sequence of register writes. So the
  flag is written before the result in 8XY4-8XYE, and 8XY5 and 8XY7 read their
  operands after VF was overwritten; with X = F or Y = F that is what the model
  computes. Likewise DXYN re-reads VX and VY at every pixel after resetting VF,
  so with X = F or Y = F the coordinate is the current collision flag. The
  clean arithmetic and drawing properties are stated for X, Y other than F.
- The table registrations are kept as they are: table0 slot 0 holds 00E0, so
  every 0XY0 clears the screen and every 0XYE returns; tableE slot E holds EX9E
  and slot 1 holds EXA1; 9XYn dispatches to the 9XY0 routine, which does
  nothing unless n = 0.
- The program 6A02 3A02 1204, loaded at 0x200, is at 0x206 after two cycles,
  with VA = 2: the skip matches and passes over the jump
  (`ProgramProperties.DemoProgramSkipsJump`). With a non-matching skip (6A02
  3A03 1204) the machine reaches the jump at 0x204 after two cycles, and from
  then on a cycle leaves it unchanged (`ProgramProperties.DemoProgramLoops`).

## Model

| member | source | states |
|---|---|---|
| State.Init | src/chip8.cpp:22-53 | A new machine has pc 0x200; I, sp and both timers 0; the 80 font bytes at 0x50..0xA0; every other memory cell, register, stack slot, display cell and key 0/off |
| State.Load | src/chip8.cpp:11-19 | An image longer than 4096 - 0x200 bytes is refused; otherwise it is copied to 0x200, memory outside the image is kept, pc becomes 0x200 and nothing else changes |
| ProgramProperties.LoadThenFetch | src/chip8.cpp:16-18 | After loading into a fresh machine, the first fetched word is the image's first two bytes, high byte first |
| ProgramProperties.InitIsQuiet | src/chip8.cpp:22-24 | A fresh machine has an empty stack and stopped timers, so the timer tick leaves it unchanged |
| Interpreter.Fetch | src/chip8.cpp:56 | The fetched word splits back into memory[pc] (high byte) and memory[pc+1] (low byte) |
| Interpreter.CountDown | src/chip8.cpp:66-67 | A timer at 0 stays 0; a running timer drops by exactly 1 |
| CycleProperties.StraightLineAdvances | src/chip8.cpp:57 | For every routine that does not itself write pc, and for unregistered words, a cycle leaves pc at pc + 2 |
| CycleProperties.TimersCountDown | src/chip8.cpp:66-67 | Unless the instruction sets a timer, each timer drops by 1 when non-zero and stays 0 when zero |
| CycleProperties.SetDelayThenTick | src/chip8.cpp:356-360 | FX15 sets the delay timer to VX before the tick, so after the cycle it holds VX - 1 (or 0) |
| CycleProperties.SetSoundThenTick | src/chip8.cpp:362-366 | FX18 sets the sound timer to VX before the tick, so after the cycle it holds VX - 1 (or 0) |
| Handlers.ReadDelay | src/chip8.cpp:333-337 | FX07 puts the delay timer in VX and changes no other register or state |
| Handlers.SetDelay | src/chip8.cpp:356-360 | FX15 sets the delay timer to VX and changes nothing else |
| Handlers.SetSound | src/chip8.cpp:362-366 | FX18 sets the sound timer to VX and changes nothing else |
| CycleProperties.ReadDelayBeforeTick | src/chip8.cpp:333-337 | FX07 stores the delay timer's value from before the tick |
| Interpreter.Tick | src/chip8.cpp:66-67 | The end-of-cycle tick never raises a timer, lowers a running one by exactly 1 and changes nothing but the two timers |
| Interpreter.Step | src/chip8.cpp:56-64 | Fetch, advance and run: the keypad is never written, memory changes only under FX33 and FX55, and each timer only under its own setter |
| Interpreter.Cycle | src/chip8.cpp:55-68 | A whole cycle keeps the machine well-formed, never writes the keypad and changes memory only under FX33 and FX55; its pc and timer behaviour is stated by the cycle lemmas below |
| Handlers.Execute | src/chip8.cpp:60-61 | Running any routine never writes the keypad; only FX33 and FX55 write memory, only 00E0 and DXYN the display, only FX15 and FX18 the timers, only 00EE and 2NNN the stack |
| Decoder.MainTable | src/chip8.cpp:71-86 | All 16 slots are filled; exactly 0x0, 0x8, 0xE and 0xF go to a sub-table, and every other slot holds the routine registered for that high nibble |
| Decoder.Lookup0 | src/chip8.cpp:88-89 | A filled slot of table0 holds the routine whose registered word is that low nibble (00E0 at 0, 00EE at E) |
| Decoder.Lookup8 | src/chip8.cpp:91-99 | A filled slot of table8 holds the routine registered for 0x8000 plus that low nibble |
| Decoder.LookupE | src/chip8.cpp:101-102 | A filled slot of tableE holds the routine registered for 0xE000 plus that low nibble |
| Decoder.LookupF | src/chip8.cpp:104-112 | A filled slot of tableF holds the routine registered for 0xF000 plus that low byte |
| Decoder.Dispatch | src/chip8.cpp:59-64 | A selected routine is always the one registered for the word's selector bits |
| DispatchProperties.DispatchByKey | src/chip8.cpp:70-133 | A routine is selected if and only if the selector bits (high nibble, plus low nibble for 0x0/0x8/0xE or low byte for 0xF) equal its registered word |
| DispatchProperties.TemplateDispatches | src/chip8.cpp:70-113 | Each routine's registered word dispatches to that routine |
| DispatchProperties.MainTableFull | src/chip8.cpp:71-86 | All 16 main-table slots are filled, so the unknown-opcode report is unreachable |
| DispatchProperties.OutOfTableSelectors | headers/chip8.h:35-38 | Low nibble F in families 0x0, 0x8, 0xE and a low byte above 0x65 in family 0xF select nothing |
| DispatchProperties.EmptySlots | src/chip8.cpp:88-112 | 8XY8, 00E1 and FX00 have no registered routine |
| DispatchProperties.UnregisteredIsNoOp | src/chip8.cpp:115-133 | A cycle on a word with no routine only advances pc by 2 and ticks the timers |
| Handlers.ClearScreen | src/chip8.cpp:135-137 | 00E0 turns every display cell off and changes nothing else |
| Handlers.Return | src/chip8.cpp:139-146 | 00EE with sp = 0 changes nothing; otherwise sp drops by 1, pc becomes the address in the vacated slot and nothing else changes |
| Handlers.Call | src/chip8.cpp:152-161 | 2NNN with sp = 16 changes nothing; otherwise it pushes the (already advanced) pc at slot sp, increments sp, jumps to NNN and keeps every other slot and field |
| Handlers.Jump | src/chip8.cpp:148-150 | 1NNN sets pc to the low 12 bits of the instruction word and changes nothing else |
| StackProperties.ReturnPops | src/chip8.cpp:139-146 | 00EE with a non-empty stack decrements sp and jumps to the address in the vacated slot |
| StackProperties.ReturnUnderflow | src/chip8.cpp:140-143 | 00EE with sp = 0 changes neither sp, the stack, nor the control flow (pc just advances) |
| StackProperties.CallPushesReturnAddress | src/chip8.cpp:152-161 | 2NNN with room pushes the already-advanced pc, increments sp, jumps to NNN and keeps every other stack slot |
| StackProperties.CallOverflow | src/chip8.cpp:153-156 | 2NNN with sp = 16 changes neither sp nor the stack and does not jump |
| StackProperties.CallThenReturn | src/chip8.cpp:139-161 | RET right after a successful CALL restores pc and sp; only the unused slot above keeps the pushed address |
| StackProperties.CallThenReturnCycles | src/chip8.cpp:139-161 | A CALL cycle into a subroutine starting with 00EE, then that RET cycle, resume at the word after the CALL with the old depth |
| StackProperties.Calls | src/chip8.cpp:152-161 | n calls raise the depth by n, capped at 16, and never disturb slots below the starting depth |
| StackProperties.Returns | src/chip8.cpp:139-146 | n returns lower the depth by n, stopping at 0, keep the stack contents and land on the slot they pop last |
| StackProperties.SixteenCallsFit | src/chip8.cpp:153-156 | From an empty stack 16 calls all succeed and a 17th leaves the machine unchanged |
| Handlers.SkipIfEqualByte | src/chip8.cpp:163-168 | 3XKK either changes nothing or only advances pc by 2, and it advances exactly when VX = KK |
| Handlers.SkipIfNotEqualByte | src/chip8.cpp:170-175 | 4XKK either changes nothing or only advances pc by 2, and it advances exactly when VX != KK |
| Handlers.SkipIfEqualRegister | src/chip8.cpp:177-182 | 5XY0 either changes nothing or only advances pc by 2, and it advances exactly when VX = VY (the low nibble is not examined) |
| Handlers.SkipIfNotEqualRegister | src/chip8.cpp:265-272 | 9XYn either changes nothing or only advances pc by 2, and it advances exactly when n = 0 and VX != VY |
| Handlers.SkipIfKey | src/chip8.cpp:317-323 | EX9E either changes nothing or only advances pc by 2, and it advances exactly when key VX is pressed |
| Handlers.SkipIfNotKey | src/chip8.cpp:325-331 | EXA1 either changes nothing or only advances pc by 2, and it advances exactly when key VX is not pressed |
| SkipProperties.SkipIfEqualByteCycle | src/chip8.cpp:163-168 | 3XKK moves pc by 4 exactly when VX = KK, by 2 otherwise, and changes nothing else |
| SkipProperties.SkipIfNotEqualByteCycle | src/chip8.cpp:170-175 | 4XKK moves pc by 4 exactly when VX != KK |
| SkipProperties.SkipIfEqualRegisterCycle | src/chip8.cpp:177-182 | 5XY0 moves pc by 4 exactly when VX = VY |
| SkipProperties.SkipIfNotEqualRegisterCycle | src/chip8.cpp:265-272 | 9XY0 moves pc by 4 exactly when n = 0 and VX != VY; 9XYn with n != 0 is a no-op |
| SkipProperties.SkipIfKeyCycle | src/chip8.cpp:317-323 | EX9E moves pc by 4 exactly when key VX is pressed |
| SkipProperties.SkipIfNotKeyCycle | src/chip8.cpp:325-331 | EXA1 moves pc by 4 exactly when key VX is not pressed |
| SkipProperties.ByteSkipsComplementary | src/chip8.cpp:163-175 | On the same operands exactly one of 3XKK and 4XKK skips |
| SkipProperties.RegisterSkipsComplementary | src/chip8.cpp:177-182 | On the same operands with low nibble 0 exactly one of 5XY0 and 9XY0 skips |
| SkipProperties.KeySkipsComplementary | src/chip8.cpp:317-331 | On the same key exactly one of EX9E and EXA1 skips |
| Handlers.FirstPressed | src/chip8.cpp:343-349 | The scan returns the lowest pressed key at or above its start, or reports that none is pressed |
| Handlers.WaitKey | src/chip8.cpp:339-354 | FX0A stores the lowest pressed key in VX; with none pressed it steps pc back by 2 and changes nothing else |
| SkipProperties.WaitKeyBlocks | src/chip8.cpp:351-353 | A cycle on FX0A with no key pressed leaves pc where it was; only the timers move |
| SkipProperties.WaitKeyTakesLowest | src/chip8.cpp:343-348 | A cycle on FX0A with a key pressed stores the lowest pressed key in VX and moves on |
| Handlers.LoadByte | src/chip8.cpp:184-189 | 6XKK puts KK in VX, keeps every other register (VF included) and changes nothing outside the registers |
| ProgramProperties.LoadByteCycle | src/chip8.cpp:184-189 | A cycle on 6XKK sets VX := KK, advances pc by 2 and ticks the timers, nothing else |
| Handlers.AddByte | src/chip8.cpp:191-196 | 7XKK makes VX congruent to VX + KK modulo 256, changes no other register and nothing outside the registers |
| AluProperties.AddByteKeepsFlag | src/chip8.cpp:191-196 | 7XKK wraps modulo 256 and leaves VF alone |
| AluProperties.CopyThenSkipEqual | src/chip8.cpp:198-203 | After 8XY0, a 5XY0 on the same registers skips |
| Handlers.Copy | src/chip8.cpp:198-203 | 8XY0 puts VY in VX and changes no other register or state |
| Handlers.Or | src/chip8.cpp:205-210 | 8XY1 sets bit k of VX (k < 8) exactly when bit k of VX or of VY was set; no other register or state changes |
| Handlers.And | src/chip8.cpp:212-217 | 8XY2 sets bit k of VX exactly when bit k of both VX and VY was set; no other register or state changes |
| Handlers.Xor | src/chip8.cpp:219-224 | 8XY3 sets bit k of VX exactly when bits k of VX and VY differed; no other register or state changes |
| AluProperties.LogicSums | src/chip8.cpp:205-224 | Read as numbers, the results of 8XY1 and 8XY2 on the same operands add up to VX + VY, and so do 8XY3 plus twice 8XY2 |
| AluProperties.XorTwiceRestores | src/chip8.cpp:219-224 | 8XY3 applied twice with X != Y leaves the machine as it was |
| Handlers.AddWithCarry | src/chip8.cpp:226-233 | 8XY4 with X != F: VX + 256*VF equals the unmasked VX + VY, VF in {0,1}; with X = F the low byte of the sum overwrites the carry |
| AluProperties.AddWithCarryCycle | src/chip8.cpp:226-233 | A cycle on 8XY4 gives VX = (VX + VY) mod 256 and VF = 1 iff the sum exceeds 255 |
| Handlers.SubtractWithBorrow | src/chip8.cpp:235-241 | 8XY5 with X, Y != F: VF = 1 iff VX > VY (strict) and VX becomes the difference, wrapped by 256 when VY is larger |
| AluProperties.SubtractEqualOperands | src/chip8.cpp:239-240 | 8XY5 with VX = VY gives VF = 0 and VX = 0 |
| AluProperties.AddThenSubtract | src/chip8.cpp:226-241 | 8XY4 followed by 8XY5 on the same distinct registers gives VX back |
| Handlers.ShiftRight | src/chip8.cpp:243-248 | 8XY6 with X != F: VF is the old bit 0 and 2*VX + VF equals the old VX; with X = F the shifted flag overwrites it, leaving VF = 0 |
| Handlers.SubtractReverse | src/chip8.cpp:250-256 | 8XY7 with X, Y != F: VF = 1 iff VY > VX and VX becomes VY - VX, wrapped by 256 when VX is larger |
| AluProperties.SubtractionsNegateEachOther | src/chip8.cpp:235-256 | 8XY5 and 8XY7 on the same operands give results summing to 0 modulo 256 |
| Handlers.ShiftLeft | src/chip8.cpp:258-263 | 8XYE with X != F: VF is the old bit 7 and VX + 256*VF equals twice the old VX; with X = F the shifted flag overwrites it, leaving VF = 2 * (bit 7 of the old VF) |
| AluProperties.ShiftsIgnoreY | src/chip8.cpp:243-263 | 8XY6 and 8XYE give the same result whatever the Y field |
| AluProperties.ShiftRightThenLeft | src/chip8.cpp:243-263 | 8XY6 then 8XYE on the same register clears bit 0 of VX and nothing else of it |
| Handlers.LoadIndex | src/chip8.cpp:274-276 | ANNN sets I to the low 12 bits of the instruction word and changes nothing else |
| Handlers.JumpOffset | src/chip8.cpp:278-280 | BNNN sets pc to NNN + V0 with no wrap-around and changes nothing else |
| MemoryProperties.LoadIndexCycle | src/chip8.cpp:274-276 | A cycle on ANNN sets I = NNN |
| MemoryProperties.JumpOffsetExact | src/chip8.cpp:278-280 | BNNN jumps to exactly NNN + V0 (the 16-bit wrap never applies) |
| ProgramProperties.JumpCycle | src/chip8.cpp:148-150 | A cycle on 1NNN sets pc = NNN and changes nothing else but the timers |
| Handlers.Random | src/chip8.cpp:282-290 | CXKK sets bit k of VX (k < 8) exactly when bit k of both the random byte and KK is set, so no bit outside KK; every other register (VF included) and all other state are kept |
| AluProperties.RandomMask | src/chip8.cpp:289 | The CXKK result never exceeds KK or the random byte; KK = FF stores the random byte itself and KK = 0 stores 0 |
| Bits.And8 | src/chip8.cpp:212-217 | Byte AND: a byte whose bit k is set exactly when both operands' bits k are |
| Bits.Or8 | src/chip8.cpp:205-210 | Byte OR: a byte whose bit k is set exactly when either operand's bit k is |
| Bits.Xor8 | src/chip8.cpp:219-224 | Byte XOR: a byte whose bit k is set exactly when the operands' bits k differ |
| Bits.BitwiseSums | src/chip8.cpp:205-224 | On values below 2^w, AND plus OR equals the sum, and so does XOR plus twice AND |
| Bits.AndMasks | src/chip8.cpp:289 | A masked byte is at most the byte and the mask; masking with FF keeps the byte |
| Bits.AndWithinMask | src/chip8.cpp:289 | A byte ANDed with a mask has no bit set outside the mask |
| Bits.Bitwise | src/chip8.cpp:205-224 | The bitwise result of width w is below 2^w |
| Bits.BitwiseBits | src/chip8.cpp:205-224 | Every bit of the bitwise result is the operation applied to the operands' bits at that position |
| Bits.XorTwice | src/chip8.cpp:223 | XOR with the same byte twice gives the byte back |
| Sprite.Draw | src/chip8.cpp:297-314 | The draw loop keeps the display's size; what it draws and the collision it reports are stated by Sprite.DrawMatchesReference |
| Handlers.DrawSprite | src/chip8.cpp:292-315 | DXYN with X, Y != F toggles exactly the cells the sprite covers and sets VF = 1 iff one of them was lit; it changes only the display and VF |
| Sprite.Cell | src/chip8.cpp:305-307 | The display index of a point lies in the display and its column and row are the coordinates modulo 64 and 32 |
| Sprite.DrawRow | src/chip8.cpp:302-313 | Drawing one sprite row never clears a raised collision flag |
| Sprite.DrawRows | src/chip8.cpp:299-314 | Drawing the remaining rows never clears a raised collision flag |
| Sprite.CellFromOffsets | src/chip8.cpp:305-307 | Every display cell is where the pixel at its wrapped row and column offsets lands |
| Sprite.DrawMatchesReference | src/chip8.cpp:292-315 | The pixel-by-pixel loop equals toggling every covered cell at once, and reports a collision iff a covered cell was lit |
| Sprite.CoversSomeCell | src/chip8.cpp:302-312 | A sprite covers some display cell iff it has a set pixel |
| Sprite.DrawTwice | src/chip8.cpp:292-315 | Drawing the same sprite twice restores the display; the second draw collides iff a covered cell was dark before the first |
| DrawProperties.DrawTwiceRestores | src/chip8.cpp:292-315 | DXYN twice with the same operands and I restores the display, with the second VF as above |
| DrawProperties.DrawTwiceOnBlank | src/chip8.cpp:297-312 | On a blank display the first DXYN reports VF = 0 and a second identical DXYN reports VF = 1 iff the sprite has a set pixel |
| DrawProperties.EmptySpriteClearsFlag | src/chip8.cpp:297-299 | DXYN with N = 0 leaves the display alone but still clears VF |
| DrawProperties.DrawWrapsAtCorner | src/chip8.cpp:292-315 | DXYN with C0 C0 at I, VX = 63 and VY = 31 on a blank display lights exactly the four corner cells (it wraps instead of clipping) and sets VF = 0 |
| Handlers.AddIndex | src/chip8.cpp:368-372 | FX1E makes I congruent to I + VX modulo 65536 and changes nothing else |
| MemoryProperties.AddIndexWraps | src/chip8.cpp:371 | FX1E with I = 0xFFFF and VX = 1 gives I = 0 |
| Handlers.FontIndex | src/chip8.cpp:374-378 | FX29 sets I to 0x50 + 5 * VX (never wrapping) and changes nothing else |
| MemoryProperties.FontIndexAddress | src/chip8.cpp:374-378 | FX29 sets I = 0x50 + 5*VX; for VX = 0xA that is 0x82 |
| MemoryProperties.FontIndexFindsGlyph | src/chip8.cpp:31-50 | With the font intact, FX29 on a digit points I at that digit's five glyph bytes |
| Handlers.StoreBcd | src/chip8.cpp:380-387 | FX33 writes three digits below 10 at I, I+1, I+2 with 100a + 10b + c = VX and leaves other memory and all registers alone |
| MemoryProperties.StoreBcdExample | src/chip8.cpp:384-386 | FX33 on 157 writes 1, 5, 7 |
| Handlers.StoreRegisters | src/chip8.cpp:389-395 | FX55 writes V0..VX to I..I+X, leaves other memory and does not change I or any register |
| Handlers.LoadRegisters | src/chip8.cpp:397-403 | FX65 reads V0..VX from I..I+X, keeps the higher registers and does not change I or memory |
| MemoryProperties.StoreThenLoad | src/chip8.cpp:389-403 | FX55 then FX65 with the same X and I gives every register back |
| MemoryProperties.LoadThenStore | src/chip8.cpp:389-403 | FX65 then FX55 with the same X and I leaves memory as it was |
| ProgramProperties.Boot | src/chip8.cpp:11-19 | Loading into a fresh machine places the image at 0x200, starts there with zero registers and stopped timers |
| ProgramProperties.DemoProgramSkipsJump | src/chip8.cpp:163-168 | 6A02 3A02 1204: two cycles leave VA = 2 and pc = 0x206, past the jump |
| ProgramProperties.DemoProgramLoops | src/chip8.cpp:148-150 | 6A02 3A03 1204: two cycles reach the jump at 0x204, after which a cycle leaves the machine unchanged |

## Left out

- File handling in loading (opening the file, measuring and reading it): the model takes the image as a byte sequence; a file that cannot be opened is outside the model.
- The random engine of CXKK: the random byte is a parameter, so the model says nothing about its distribution.
- Diagnostic output on stack underflow, stack overflow and unknown opcodes: modelled as "no state change", without the message.
- Memory reads at pc, pc+1 and I+k beyond address 0xFFF, and keypad reads with VX above 15: the source does not guard them; the model requires them to be in range (`Handlers.Defined`, `Interpreter.Ready`) rather than inventing a masking policy.
- The `opcode` member variable: it only carries the fetched word from the fetch to the routine, so the model passes the word as an argument.
- The function-pointer tables: replaced by the `Entry`/`Handler` datatypes and a `match`, with the same slot counts and registrations.
- The host loop, window, rendering, frame timing and key mapping: presentation and input plumbing outside the engine.
- Sprite.DrawMatchesReference: stated for X and Y other than F only; with X = F or Y = F the pixel-by-pixel model still follows the source, but no simpler description is proved.
- Handlers.SubtractWithBorrow: the arithmetic description is stated for X and Y other than F; with Y = F the source subtracts the freshly written flag, which the function computes but no contract describes.
- Handlers.SubtractReverse: likewise stated for X and Y other than F.

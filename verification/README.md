# CHIP-8 interpreter core in Dafny

This project models the CHIP-8 virtual machine of `lib/cpu.h` and proves
properties of it. The machine has:

- 4 KiB of memory;
- sixteen byte registers `V0`..`VF`;
- an index register and a program counter;
- a 64 x 32 one-byte-per-pixel display;
- delay and sound timers;
- a sixteen-entry return stack;
- a sixteen-key keyboard.

`init_cpu` resets the machine and installs the hexadecimal font at address 0.
`cpu_cycle` does three things:

1. Fetches the big-endian word at `pc`.
2. Executes it.
3. Counts the timers down.

The model has two layers.

- **Semantics** (`machine.dfy`, `sprite.dfy`, `semantics.dfy`) describes the
  machine as a value.
  - `Machine` is a datatype with one field per global.
  - One cycle is `Step(m, r) = Tick(Execute(Begin(m), r))`.
  - `Defined(m)` states when the C code makes no out-of-range access:
    - the fetch is inside memory;
    - the stack slot used by `2nnn`/`00EE` is inside the stack;
    - the key `Vx` of `Ex9E`/`ExA1` is one of the 16 keys;
    - `Fx33`, `Fx55` and `Fx65` stay inside memory;
    - every sprite row and every display index of `Dxyn` is in range (a
      sprite of no rows reads no memory, so `Dxy0` is defined wherever
      `index` points).

  The source has no guards for any of these, so they are preconditions. The
  model invents no wrap or clamp.
- **Imperative object** (`cpu.dfy`): the class `Cpu.Chip8` holds the globals
  as fields and arrays.
  - `Reset` is `init_cpu`. It is a sequence of array clears followed by the
    font copy.
  - `Cycle` is `cpu_cycle`, proved to leave the object in state
    `Step(old(State()), r)`. It keeps the source's loops: the nested sprite
    loops of `Dxyn`, the key scan of `Fx0A` and the register copies of
    `Fx55`/`Fx65`.
  - `rand() % 256` is the parameter `r`.
  - Each call of `play_beep` increments the ghost counter `beeps`.

`drawing.dfy` and `properties.dfy` state and prove what the instructions do
in terms of the semantics.

Some functions of the semantics only compute and carry no contract of their
own; the lemmas about `Step` state what they do:

- `Tick` and `Beeps`: `Properties.TimersCountDown` and
  `Properties.TimerSetThisCycle`.
- `Defined`: `Properties.DrawDefined` (the `Dxyn` condition), `KeySkips` (the
  key index), `Call` and `ReturnExecutes` (the stack slot),
  `TransferExecutes` (the sixteen-byte block).
- `Kk` and `Nnn`: `Machine.DecodeFields`.
- `SpriteBit`, `Cell` and `PixelOk`: `Sprite.PixelStep`, `Drawing.CoveredStep`
  and `Drawing.DrawFromFixed`.
- `BitOr`, `BitAnd` and `BitXor` are the C operators on 8-bit vectors.

The model follows the code, including where the code departs from the usual
CHIP-8 reference (Cowgod's Chip-8 Technical Reference, section 3.1).

- **`2nnn`/`00EE`.**
  - `2nnn` first increments `sp`, then stores the address of the `2nnn` itself.
  - `00EE` reads `stack[sp]`, then decrements `sp`, then adds 2 to `pc`.
  - Both `sp` updates are `unsigned short` arithmetic and wrap at 0 and 0xFFFF.
  - `stack[0]` is therefore not written by a call from `sp == 0`; only a
    call from `sp == 0xFFFF` (reached by a `00EE` at `sp == 0`) writes it.
- **`Bnnn`** lands at `nnn + V0 + 2`.
- **Arithmetic flags.**
  - `8xy4` sets no carry.
  - `8xy6` puts the low nibble of `Vx` (`& 0x0F`) in VF.
  - In `8xy5`/`8xy6`/`8xy7`/`8xyE` the flag is written before the result.
    With `x` or `y` equal to F, the result is computed from the new VF.
- **`Fx55`/`Fx65`** copy all sixteen registers whatever `x` is, and leave
  `index` alone.
- **Decoding.**
  - Group 0 decodes only the low byte, so `0nE0` is `CLS` and `0nEE` is `RET`
    for any `n`.
  - `5xyN` and `9xyN` ignore `N`.
- **Unrecognised sub-opcodes.** An unrecognised low byte or low nibble in
  groups 0, 8, E and F leaves `pc` where it was, so the same word is fetched
  again.
  - The E group has no default case at all.
  - The outer default case (lib/cpu.h:415-417) is unreachable, because all
    sixteen groups have cases.
- **`Dxyn`** re-reads `V[x]` and `V[y]` for every pixel. With `x` or `y`
  equal to F, a collision moves the rest of the sprite.
- **`Fx0A` with no key down** does not advance `pc`. The wait is this
  instruction being fetched again.
- **`Fx29`** sets `index` to `5 * Vx`.

## Model

| member | source | states |
|---|---|---|
| Machine.Word | lib/cpu.h:149 | the opcode is memory[pc] as high byte and memory[pc+1] as low byte |
| Machine.Group | lib/cpu.h:152 | the high nibble selects one of sixteen groups, and the word lies in that group's 0x1000 block |
| Machine.X | lib/cpu.h:150 | `x` names one of the sixteen registers |
| Machine.Y | lib/cpu.h:151 | `y` names one of the sixteen registers |
| Machine.N | lib/cpu.h:305 | the sprite height and the group-8 selector are below 16 |
| Machine.Nnn | lib/cpu.h:173 | a jump/call/index address is below 0x1000 |
| Machine.DecodeFields | lib/cpu.h:150-154 | the nibbles reassemble the opcode; `kk` (`opcode & 0x00FF`) and `nnn` are made of the low nibbles |
| Machine.AssembleDecodes | lib/cpu.h:150-152 | decoding recovers the nibbles a word was built from |
| Machine.Trunc8 | lib/cpu.h:215 | storing into an `unsigned char` keeps the value modulo 256 |
| Machine.Add32 | lib/cpu.h:374 | `unsigned int` addition is exact below 2^32 and is the sum minus 2^32 above it |
| Machine.Inc16 | lib/cpu.h:178 | `sp++` on an `unsigned short` adds one, with 0xFFFF wrapping to 0 |
| Machine.Dec16 | lib/cpu.h:162 | `sp--` subtracts one, with 0 wrapping to 0xFFFF |
| Machine.Toggle | lib/cpu.h:316 | `^= 1` turns 0 into 1 and 1 into 0 and flips only the low bit |
| Machine.Bcd | lib/cpu.h:386-388 | hundreds ≤ 2, tens ≤ 9 and ones ≤ 9, with 100·h + 10·t + o equal to the byte |
| Sprite.PixelStep | lib/cpu.h:311-317 | one pixel of the sprite loop changes at most VF among the registers |
| Sprite.DrawFrom | lib/cpu.h:308-319 | the sprite loop from pixel `k` on keeps V0..VE and the array sizes |
| Sprite.Draw | lib/cpu.h:308-319 | the whole sprite loop keeps V0..VE, and a sprite of no rows changes nothing |
| Semantics.Fetch | lib/cpu.h:149 | the fetched word's high byte is memory[pc] and its low byte memory[pc+1] |
| Semantics.FirstPressed | lib/cpu.h:351-358 | the scan finds the lowest pressed key, or none exactly when all keys are up |
| Semantics.ExecSystem | lib/cpu.h:153-170 | group 0 changes only the display, `pc` and `sp` |
| Semantics.ExecAlu | lib/cpu.h:220-275 | group 8 changes only `Vx`, VF and `pc`, and `pc` either advances by 2 or, for an unknown selector, stays |
| Semantics.ExecDraw | lib/cpu.h:303-321 | `Dxyn` raises `draw_flag`, advances by 2, keeps V0..VE and changes nothing but VF and the display |
| Semantics.ExecKey | lib/cpu.h:323-340 | group E changes only `pc`, by at most 4 |
| Semantics.ExecMisc | lib/cpu.h:342-413 | group F keeps the display, stack and flags, writes memory only in the sixteen bytes from `index`, and advances by 2 or stays |
| Semantics.Execute | lib/cpu.h:152-418 | no instruction writes the keyboard, `opcode` or `sound_flag`; only `Dxyn` raises `draw_flag`; only `Fx15`/`Fx18` load the timers, with `Vx` |
| Semantics.Step | lib/cpu.h:145-431 | a cycle keeps every array at its size and never changes the keyboard |
| Drawing.CoveredStep | lib/cpu.h:308-317 | the cells under pixels `k` onwards are those under `k+1` onwards plus pixel `k`'s cell if its bit is set, and no later pixel reaches that cell |
| Drawing.InRangeStep | lib/cpu.h:312-316 | the covered cells are all on the display exactly when the later ones are and pixel `k`'s is |
| Drawing.CollidesStep | lib/cpu.h:312-316 | a collision among pixels `k` onwards is pixel `k`'s cell being on or a later collision, and toggling `k`'s cell does not affect later ones |
| Drawing.ClearPixel | lib/cpu.h:311 | a clear sprite bit changes neither the covered cells nor the outcome |
| Drawing.SetPixel | lib/cpu.h:311-317 | a set bit on the display toggles its cell and raises VF if it was on, keeping the closed form of the rest of the loop |
| Drawing.DrawFromFixed | lib/cpu.h:303-321 | with `x`, `y` ≠ F, the loop is defined iff every covered cell is on the display; it then toggles exactly the covered cells and sets VF iff one of them was on |
| Drawing.DrawFromBinary | lib/cpu.h:316 | the sprite loop keeps every display cell 0 or 1, whatever `x` and `y` |
| Cpu.Chip8.State | lib/cpu.h:49-62 | the object's arrays have the sizes of the C globals |
| Cpu.Chip8.constructor | lib/cpu.h:49-62 | the globals start zeroed, as static storage does |
| Cpu.Chip8.Reset | lib/cpu.h:80-121 | after `init_cpu`: memory[0..80) is the font, the rest of memory is 0, and V, stack, keyboard and display are 0; `index`, `sp`, timers and flags are 0 and `pc` is 0x200 |
| Cpu.Chip8.Cycle | lib/cpu.h:145-431 | one `cpu_cycle` leaves the object in state `Step(old state, r)` and calls `play_beep` once exactly when `Beeps` holds |
| Cpu.Chip8.Dispatch | lib/cpu.h:152-418 | the instruction switch computes `Execute` of the latched state and does not beep |
| Cpu.Chip8.TickTimers | lib/cpu.h:420-429 | the timer update computes `Tick` and beeps exactly when the sound timer was 1 |
| Cpu.Chip8.ExecSystem | lib/cpu.h:153-170 | group 0 in place equals `Semantics.ExecSystem` |
| Cpu.Chip8.ExecAlu | lib/cpu.h:220-275 | group 8 in place, flag first, equals `Semantics.ExecAlu` |
| Cpu.Chip8.ExecAluPlain | lib/cpu.h:222-246 | `8xy0`..`8xy4` and an unknown sub-opcode (lines 271-273) in place equal `Semantics.ExecAlu` |
| Cpu.Chip8.ExecAluFlagged | lib/cpu.h:247-270 | the four flag-writing sub-opcodes in place equal `Semantics.ExecAlu` |
| Cpu.Chip8.ExecSubtract | lib/cpu.h:247-264 | `8xy5`/`8xy7`, borrow flag written before the difference, equal `Semantics.ExecAlu` |
| Cpu.Chip8.ExecShift | lib/cpu.h:253-270 | `8xy6`/`8xyE`, flag written before the shift, equal `Semantics.ExecAlu` |
| Cpu.Chip8.ExecDraw | lib/cpu.h:303-321 | `Dxyn` in place equals `Semantics.ExecDraw` |
| Cpu.Chip8.DrawSprite | lib/cpu.h:308-319 | the nested sprite loops leave registers and display as `Draw` computes |
| Cpu.Chip8.DrawRow | lib/cpu.h:309-318 | one outer iteration advances the sprite loop by the eight pixels of a row |
| Cpu.Chip8.DrawPixel | lib/cpu.h:311-317 | one inner iteration performs `PixelStep` and stays on the display |
| Cpu.Chip8.ExecKey | lib/cpu.h:323-340 | group E in place equals `Semantics.ExecKey` |
| Cpu.Chip8.FirstPressedKey | lib/cpu.h:351-358 | the scan loop finds the lowest pressed key, or reports that none is down |
| Cpu.Chip8.ExecMisc | lib/cpu.h:342-413 | group F in place equals `Semantics.ExecMisc` |
| Cpu.Chip8.StoreRegisters | lib/cpu.h:394-396 | memory becomes its old prefix, then V0..VF, then its old suffix |
| Cpu.Chip8.LoadRegisters | lib/cpu.h:402-404 | V0..VF become memory[index..index+16] |
| Properties.Skips | lib/cpu.h:184-206 | `3xkk`/`4xkk`/`5xy0` (and `9xy0`, lines 277-283) add 4 to `pc` exactly when their condition holds, otherwise 2; no data changes |
| Properties.KeySkips | lib/cpu.h:323-340 | `Ex9E` skips iff key Vx is down, `ExA1` iff it is up; the key index is in range; no data changes |
| Properties.Jumps | lib/cpu.h:172-175 | `1nnn` sets `pc` to `nnn`, and `Bnnn` (lines 291-295) to `nnn + V0 + 2`; no data changes |
| Properties.UnrecognisedStalls | lib/cpu.h:166-168 | an unrecognised sub-opcode in groups 0, 8, E or F (also lines 271-273, 323-340, 409-411) only ticks the timers, and `pc` stays put |
| Properties.Call | lib/cpu.h:177-182 | `2nnn` sets `sp` to `sp+1` (wrapping), stores the current `pc` there and jumps to `nnn`; registers, memory, display and index are unchanged |
| Properties.Return | lib/cpu.h:160-165 | `00EE` sets `pc` to stack[sp] + 2, then decrements `sp`; the stack, registers, memory, display and index are unchanged |
| Properties.ReturnExecutes | lib/cpu.h:160-165 | the same, on the machine after the fetch |
| Properties.CallThenReturn | lib/cpu.h:160-182 | a call followed by a return at the target resumes at the call's address + 2, with `sp` restored and the pushed slot holding the call's address |
| Properties.ReturnDefined | lib/cpu.h:160-165 | a `00EE` at `pc` with `sp` inside the stack is defined and decodes as `RET` |
| Properties.ReturnDefinedOp | lib/cpu.h:160-165 | the same, on the machine after the fetch |
| Properties.ClearScreen | lib/cpu.h:155-159 | `0nE0` turns every display cell off and advances by 2 |
| Properties.Loads | lib/cpu.h:208-212 | `6xkk` sets Vx to `kk`, `Annn` (285-289) sets `index` to `nnn`, and `Cxkk` (297-301) sets Vx to `r & kk`; each advances by 2 |
| Properties.Logic | lib/cpu.h:222-241 | `8xy0`..`8xy3` set Vx to Vy or to Vx OR/AND/XOR Vy and advance by 2; no other register, memory, display, index or stack changes |
| Properties.AddImmediate | lib/cpu.h:214-218 | `7xkk` adds modulo 256 and leaves every other register, VF included, unchanged |
| Properties.AddRegisters | lib/cpu.h:242-246 | `8xy4` adds modulo 256, sets no carry, keeps every other register and advances by 2 |
| Properties.Subtract | lib/cpu.h:247-252 | `8xy5`: VF is 1 iff Vx > Vy strictly, and Vx becomes Vx − Vy modulo 256, with the flag written first; advances by 2 |
| Properties.SubtractReversed | lib/cpu.h:259-264 | `8xy7`: VF is 1 iff Vy > Vx, and Vx becomes Vy − Vx modulo 256, with the flag written first; advances by 2 |
| Properties.Difference | lib/cpu.h:249 | the borrow case split equals the `unsigned char` store of `a - b`, and the result is the true difference exactly when `b <= a` |
| Properties.ShiftRight | lib/cpu.h:253-258 | `8xy6`: VF gets the low nibble of Vx, Vx is halved, and `pc` advances by 2 |
| Properties.ShiftLeft | lib/cpu.h:265-270 | `8xyE`: VF gets bit 7 of Vx, Vx is doubled modulo 256, and `pc` advances by 2 |
| Properties.DrawAlways | lib/cpu.h:303-321 | `Dxyn` sets `draw_flag`, advances by 2, changes no memory and none of V0..VE, and keeps the display binary |
| Properties.DrawDefined | lib/cpu.h:303-321 | with `x`, `y` ≠ F, a `Dxyn` is defined iff its `n` rows lie in memory (always, when `n` is 0) and every covered cell lies on the display |
| Properties.DrawFixed | lib/cpu.h:303-321 | with `x`, `y` ≠ F, a defined `Dxyn` toggles exactly the covered cells and sets VF to 1 iff a covered cell was on, 0 otherwise; no other register changes |
| Properties.DrawExecutes | lib/cpu.h:303-321 | the definedness condition and the closed form above, on the machine after the fetch |
| Properties.DrawAgain | lib/cpu.h:303-321 | after a `Dxyn` followed by a copy of itself, the copy is fetched next, is defined and reads the same rows and coordinates |
| Properties.DrawTwiceRestores | lib/cpu.h:316 | drawing the same sprite twice in a row restores the display |
| Properties.ToggleTwice | lib/cpu.h:316 | toggling the same covered cells twice gives back the original display |
| Properties.DrawOnBlank | lib/cpu.h:312-315 | a sprite drawn on cells that are all off gives VF 0; drawing it again gives VF 1 iff it covers some cell |
| Properties.BlankCollisions | lib/cpu.h:312-315 | no collision on cells that are all off; after toggling them, a collision iff some cell is covered |
| Properties.DisplayStaysBinary | lib/cpu.h:145-431 | every cycle keeps every display cell 0 or 1 |
| Properties.WaitForKey | lib/cpu.h:350-359 | `Fx0A` with no key down changes neither `pc` nor any data; otherwise it loads the lowest pressed key into Vx and advances |
| Properties.StoreDigits | lib/cpu.h:385-391 | `Fx33` stores the decimal digits of Vx at index..index+2, changes no other byte of memory and advances by 2 |
| Properties.StoreThenLoad | lib/cpu.h:393-407 | `Fx55` followed by `Fy65` restores all sixteen registers, whatever `x` and `y`, and leaves `index` unchanged |
| Properties.TransferExecutes | lib/cpu.h:393-407 | `Fx55` writes V0..VF to memory[index..index+16] and nothing else; `Fx65` reads them back into V0..VF; both advance by 2 |
| Properties.IndexAndTimer | lib/cpu.h:344-383 | `Fx07` loads the delay timer as it was before the tick; `Fx1E` adds Vx to `index` mod 2^32; `Fx29` sets `index` to 5·Vx |
| Properties.TimersCountDown | lib/cpu.h:420-429 | in every cycle other than `Fx15`/`Fx18` (those are `TimerSetThisCycle`), both timers count down to 0 and stop there; `sound_flag` is raised iff the sound timer was running; `play_beep` runs iff it was 1 |
| Properties.TimerSetThisCycle | lib/cpu.h:361-371 | in an `Fx15`/`Fx18` cycle the loaded timer is counted down at once and the other counts down as usual; `sound_flag` is raised iff the sound timer runs after the load; `play_beep` runs iff that value is 1 |

## Left out

- `load_rom` (lib/cpu.h:123-143) is file I/O. Program memory is an arbitrary
  part of the state, constrained only by preconditions.
- The `printf` logging in `init_cpu` and `cpu_cycle` has no effect on the
  state and is left out.
- `tick()` has no effect on the state and is left out.
- `rand()` is a foreign call. Its byte is the parameter `r` of `Cycle` and
  `Step`.
- `play_beep` only sets a flag read by an audio thread, so the model counts
  its calls in the ghost field `beeps` instead.
- lib/display.h is not part of this model: window, rendering, audio thread
  and keyboard polling. The keyboard array is written only by that poller,
  between cycles, so `Cycle` never modifies `keys`.
- main.c (argument check, the pacing loop, SDL calls) is not part of this
  model.
- The global `fontset` (lib/cpu.h:60) is never used, because `init_cpu`
  copies a local array of the same name. The model has no field for it.
- Out-of-range accesses are undefined behaviour in the source. They are
  preconditions, not modelled outcomes.
- Cpu.Chip8.Cycle: the address sums `index_reg + yline`, `index_reg + 1`,
  `index_reg + 2` and `i + index_reg` are `unsigned int` additions.
  - The preconditions require the unwrapped sum to stay inside memory.
  - The model excludes states with `index` near 2^32, where the C sum would
    wrap back into memory.
- Properties.DrawFixed gives the closed form (exactly the covered cells
  toggled, VF iff collision) only when neither `x` nor `y` is F.
  - With `x` or `y` equal to F, the coordinates move once VF becomes 1.
  - For that case only `Properties.DrawAlways` holds.
  - `Sprite.DrawFrom` still models the loop exactly, pixel by pixel.
- Properties.DrawDefined states definedness in closed form under the same
  restriction to `x`, `y` ≠ F.
- Properties.DrawTwiceRestores and Properties.DrawOnBlank have the same
  restriction to `x`, `y` ≠ F.
- Properties.StoreThenLoad requires that the sixteen stored bytes do not
  overwrite the `Fy65` that follows.

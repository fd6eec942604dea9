/** What one call of `cpu_cycle` (lib/cpu.h:145-431) does to the machine, as
    functions: clear the flags and fetch (`Begin`), apply the instruction
    (`Execute`), tick the timers (`Tick`).  `Defined` is the condition under
    which the C code performs no out-of-range access. */
module Semantics {
  import opened Machine
  import opened Sprite

  /** The big-endian word at `pc`. */
  function Fetch(m: Machine): (op: u16)
    requires WellFormed(m) && m.pc + 1 < MEMORY_SIZE
    ensures op / 0x100 == m.memory[m.pc] && op % 0x100 == m.memory[m.pc + 1]
  {
    Word(m.memory[m.pc], m.memory[m.pc + 1])
  }

  /** Start of a cycle: both flags cleared, the word at `pc` latched in `opcode`. */
  function Begin(m: Machine): (b: Machine)
    requires WellFormed(m) && m.pc + 1 < MEMORY_SIZE
    ensures WellFormed(b) && b.opcode == Fetch(m) && b.drawFlag == 0 && b.soundFlag == 0
    ensures b.(opcode := m.opcode, drawFlag := m.drawFlag, soundFlag := m.soundFlag) == m
  {
    m.(drawFlag := 0, soundFlag := 0, opcode := Fetch(m))
  }

  /** The registers and display the sprite loop starts from: VF cleared. */
  function DrawStart(b: Machine): (s: Screen)
    requires WellFormed(b)
    ensures DrawArgs(s, X(b.opcode), Y(b.opcode)) && s.v[VF] == 0 && s.gfx == b.gfx
    ensures forall j :: 0 <= j < VF ==> s.v[j] == b.v[j]
  {
    Screen(b.v[VF := 0], b.gfx)
  }

  /** The instruction latched in `b.opcode` performs no out-of-range access. */
  predicate DefinedOp(b: Machine)
    requires WellFormed(b)
  {
    var op := b.opcode;
    var g, x, y, kk := Group(op), X(op), Y(op), Kk(op);
    && (g == 0x0 && kk == 0xEE ==> b.sp < STACK_DEPTH)
    && (g == 0x2 ==> Inc16(b.sp) < STACK_DEPTH)
    && (g == 0xD ==> RowsInMemory(b.memory, b.index, N(op))
                     && Draw(DrawStart(b), x, y, Rows(b.memory, b.index, N(op))).Some?)
    && (g == 0xE && (kk == 0x9E || kk == 0xA1) ==> b.v[x] < KEYS)
    && (g == 0xF && kk == 0x33 ==> b.index + 3 <= MEMORY_SIZE)
    && (g == 0xF && (kk == 0x55 || kk == 0x65) ==> b.index + REGISTERS <= MEMORY_SIZE)
  }

  /** A cycle from `m` performs no out-of-range access: the fetch stays in
      memory and so does the instruction it fetches. */
  predicate Defined(m: Machine)
  {
    WellFormed(m) && m.pc + 1 < MEMORY_SIZE && DefinedOp(Begin(m))
  }

  /** The lowest-numbered pressed key at or after `from` (the scan of `Fx0A`). */
  function FirstPressed(keys: seq<byte>, from: nat): (r: Option<nat>)
    requires from <= |keys|
    ensures r.Some? ==> from <= r.value < |keys| && keys[r.value] != 0
    ensures r.Some? ==> forall j :: from <= j < r.value ==> keys[j] == 0
    ensures r.None? <==> forall j :: from <= j < |keys| ==> keys[j] == 0
    decreases |keys| - from
  {
    if from == |keys| then None
    else if keys[from] != 0 then Some(from)
    else FirstPressed(keys, from + 1)
  }

  /** Group 0: `CLS` and `RET` by low byte; any other low byte does nothing.
      Only the display, `pc` and `sp` can change. */
  function ExecSystem(b: Machine): (e: Machine)
    requires WellFormed(b) && b.pc + 1 < MEMORY_SIZE && Group(b.opcode) == 0x0 && DefinedOp(b)
    ensures WellFormed(e)
    ensures e == b.(gfx := e.gfx, pc := e.pc, sp := e.sp)
  {
    match Kk(b.opcode)
    case 0xE0 => b.(gfx := seq(DISPLAY_SIZE, _ => 0), pc := b.pc + 2)
    case 0xEE => b.(pc := Add32(b.stack[b.sp], 2), sp := Dec16(b.sp))
    case _ => b
  }

  /** Group 8: register-to-register arithmetic by low nibble.  The flag is
      written before the result, so with `x == 0xF` the result is computed
      from the new VF.  Only `Vx`, VF and `pc` can change, and `pc` either
      advances by two or, for an unknown selector, stays put. */
  function ExecAlu(b: Machine): (e: Machine)
    requires WellFormed(b) && b.pc + 1 < MEMORY_SIZE && Group(b.opcode) == 0x8
    ensures WellFormed(e)
    ensures e == b.(v := e.v, pc := e.pc) && (e.pc == b.pc || e.pc == b.pc + 2)
    ensures forall j :: 0 <= j < VF && j != X(b.opcode) ==> e.v[j] == b.v[j]
  {
    var x, y := X(b.opcode), Y(b.opcode);
    var v, next := b.v, b.pc + 2;
    match N(b.opcode)
    case 0x0 => b.(v := v[x := v[y]], pc := next)
    case 0x1 => b.(v := v[x := BitOr(v[x], v[y])], pc := next)
    case 0x2 => b.(v := v[x := BitAnd(v[x], v[y])], pc := next)
    case 0x3 => b.(v := v[x := BitXor(v[x], v[y])], pc := next)
    case 0x4 => b.(v := v[x := Trunc8(v[x] as int + v[y])], pc := next)
    case 0x5 =>
      var w := v[VF := if v[x] > v[y] then 1 else 0];
      b.(v := w[x := Trunc8(w[x] as int - w[y])], pc := next)
    case 0x6 =>
      // VF = V[x] & 0x0F, the low nibble
      var w := v[VF := v[x] % 16];
      b.(v := w[x := w[x] / 2], pc := next)
    case 0x7 =>
      var w := v[VF := if v[y] > v[x] then 1 else 0];
      b.(v := w[x := Trunc8(w[y] as int - w[x])], pc := next)
    case 0xE =>
      // VF = (V[x] >> 7) & 1
      var w := v[VF := v[x] / 128];
      b.(v := w[x := Trunc8(w[x] as int * 2)], pc := next)
    case _ => b
  }

  /** Group D: draw an `n`-row sprite from `memory[index..]`.  It raises
      `draw_flag`, advances by two, and changes no register but VF and
      nothing else but the display. */
  function ExecDraw(b: Machine): (e: Machine)
    requires WellFormed(b) && b.pc + 1 < MEMORY_SIZE && Group(b.opcode) == 0xD && DefinedOp(b)
    ensures WellFormed(e)
    ensures e == b.(drawFlag := 1, v := e.v, gfx := e.gfx, pc := b.pc + 2)
    ensures forall j :: 0 <= j < VF ==> e.v[j] == b.v[j]
  {
    var s := Draw(DrawStart(b), X(b.opcode), Y(b.opcode), Rows(b.memory, b.index, N(b.opcode))).value;
    b.(drawFlag := 1, v := s.v, gfx := s.gfx, pc := b.pc + 2)
  }

  /** Group E: key skips by low byte; any other low byte does nothing.  Only
      `pc` can change, by at most four. */
  function ExecKey(b: Machine): (e: Machine)
    requires WellFormed(b) && b.pc + 1 < MEMORY_SIZE && Group(b.opcode) == 0xE && DefinedOp(b)
    ensures WellFormed(e)
    ensures e == b.(pc := e.pc) && b.pc <= e.pc <= b.pc + 4
  {
    var vx := b.v[X(b.opcode)];
    match Kk(b.opcode)
    case 0x9E => b.(pc := if b.keys[vx] != 0 then b.pc + 4 else b.pc + 2)
    case 0xA1 => b.(pc := if b.keys[vx] == 0 then b.pc + 4 else b.pc + 2)
    case _ => b
  }

  /** Group F: timers, keys, the index register and memory transfers by low
      byte; any other low byte does nothing.  The display, the stack and
      both flags are untouched, memory changes only in the sixteen bytes from
      `index`, and `pc` advances by two or stays put. */
  function ExecMisc(b: Machine): (e: Machine)
    requires WellFormed(b) && b.pc + 1 < MEMORY_SIZE && Group(b.opcode) == 0xF && DefinedOp(b)
    ensures WellFormed(e)
    ensures e.gfx == b.gfx && e.stack == b.stack && e.sp == b.sp
    ensures e.drawFlag == b.drawFlag && e.soundFlag == b.soundFlag
    ensures forall a :: 0 <= a < MEMORY_SIZE && !(b.index <= a < b.index + REGISTERS) ==>
      e.memory[a] == b.memory[a]
    ensures e.pc == b.pc || e.pc == b.pc + 2
  {
    var x := X(b.opcode);
    var vx, next := b.v[x], b.pc + 2;
    match Kk(b.opcode)
    case 0x07 => b.(v := b.v[x := b.delay], pc := next)
    case 0x0A =>
      (match FirstPressed(b.keys, 0)
       case Some(k) => b.(v := b.v[x := k], pc := next)
       case None => b)
    case 0x15 => b.(delay := vx, pc := next)
    case 0x18 => b.(sound := vx, pc := next)
    case 0x1E => b.(index := Add32(b.index, vx), pc := next)
    case 0x29 => b.(index := vx as int * 5, pc := next)
    case 0x33 =>
      var digits := Bcd(vx);
      var i := b.index;
      b.(memory := b.memory[i := digits.0][i + 1 := digits.1][i + 2 := digits.2], pc := next)
    case 0x55 =>
      var i := b.index;
      b.(memory := b.memory[..i] + b.v + b.memory[i + REGISTERS..], pc := next)
    case 0x65 =>
      var i := b.index;
      b.(v := b.memory[i..i + REGISTERS], pc := next)
    case _ => b
  }

  /** The instruction in `b.opcode`, dispatched on its high nibble; `r` is the
      byte `rand()` yields for `Cxkk`.  No instruction writes the keyboard or
      `sound_flag`; only `Dxyn` raises `draw_flag`; only `Fx15` and `Fx18`
      load the timers, with `Vx`. */
  function Execute(b: Machine, r: byte): (e: Machine)
    requires WellFormed(b) && b.pc + 1 < MEMORY_SIZE && DefinedOp(b)
    ensures WellFormed(e) && e.keys == b.keys && e.opcode == b.opcode
    ensures e.soundFlag == b.soundFlag && e.drawFlag == (if Group(b.opcode) == 0xD then 1 else b.drawFlag)
    ensures var op := b.opcode;
      && e.delay == (if Group(op) == 0xF && Kk(op) == 0x15 then b.v[X(op)] else b.delay)
      && e.sound == (if Group(op) == 0xF && Kk(op) == 0x18 then b.v[X(op)] else b.sound)
  {
    var op := b.opcode;
    var x, y, kk, nnn := X(op), Y(op), Kk(op), Nnn(op);
    var next := b.pc + 2;
    match Group(op)
    case 0x0 => ExecSystem(b)
    case 0x1 => b.(pc := nnn)
    case 0x2 =>
      var sp := Inc16(b.sp);
      b.(sp := sp, stack := b.stack[sp := b.pc], pc := nnn)
    case 0x3 => b.(pc := if b.v[x] == kk then b.pc + 4 else next)
    case 0x4 => b.(pc := if b.v[x] != kk then b.pc + 4 else next)
    case 0x5 => b.(pc := if b.v[x] == b.v[y] then b.pc + 4 else next)
    case 0x6 => b.(v := b.v[x := kk], pc := next)
    case 0x7 => b.(v := b.v[x := Trunc8(b.v[x] as int + kk)], pc := next)
    case 0x8 => ExecAlu(b)
    case 0x9 => b.(pc := if b.v[x] != b.v[y] then b.pc + 4 else next)
    case 0xA => b.(index := nnn, pc := next)
    case 0xB => b.(pc := nnn + b.v[0] + 2)
    case 0xC => b.(v := b.v[x := BitAnd(r, kk)], pc := next)
    case 0xD => ExecDraw(b)
    case 0xE => ExecKey(b)
    case _ => ExecMisc(b)
  }

  /** End of a cycle: the delay timer counts down; a running sound timer
      raises `sound_flag` and counts down. */
  function Tick(e: Machine): (t: Machine)
  {
    e.(delay := if e.delay > 0 then e.delay - 1 else e.delay,
       sound := if e.sound > 0 then e.sound - 1 else e.sound,
       soundFlag := if e.sound > 0 then 1 else e.soundFlag)
  }

  /** One `cpu_cycle`; `r` is the `rand()` byte. */
  function Step(m: Machine, r: byte): (m': Machine)
    requires Defined(m)
    ensures WellFormed(m') && m'.keys == m.keys
  {
    Tick(Execute(Begin(m), r))
  }

  /** `play_beep` runs during the cycle: the sound timer is 1 when the tick starts. */
  predicate Beeps(m: Machine, r: byte)
    requires Defined(m)
  {
    Execute(Begin(m), r).sound == 1
  }
}

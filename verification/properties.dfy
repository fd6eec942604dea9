/** Properties of one `cpu_cycle` (lib/cpu.h:145-431), stated on `Step`. */
module Properties {
  import opened Machine
  import opened Sprite
  import opened Semantics
  import opened Drawing

  /** The registers, memory, display, index and stack of `m'` are those of `m`. */
  predicate SameData(m: Machine, m': Machine)
  {
    m'.v == m.v && m'.memory == m.memory && m'.gfx == m.gfx && m'.index == m.index
    && m'.stack == m.stack && m'.sp == m.sp
  }

  // ---------------------------------------------------------------------------
  // Control flow

  /** `3xkk`, `4xkk`, `5xy0` and `9xy0` skip the next instruction (advance by
      four) exactly when their condition holds, and otherwise advance by two;
      no data changes. */
  lemma Skips(m: Machine, r: byte)
    requires Defined(m) && Group(Fetch(m)) in {0x3, 0x4, 0x5, 0x9}
    ensures var op, m' := Fetch(m), Step(m, r);
      var g, vx, vy, kk := Group(op), m.v[X(op)], m.v[Y(op)], Kk(op);
      var taken := (g == 0x3 && vx == kk) || (g == 0x4 && vx != kk)
                   || (g == 0x5 && vx == vy) || (g == 0x9 && vx != vy);
      m'.pc == (if taken then m.pc + 4 else m.pc + 2) && SameData(m, m')
  {
  }

  /** `Ex9E` skips exactly when key `Vx` is down and `ExA1` exactly when it
      is up; no data changes. */
  lemma KeySkips(m: Machine, r: byte)
    requires Defined(m) && Group(Fetch(m)) == 0xE && Kk(Fetch(m)) in {0x9E, 0xA1}
    ensures var op, m' := Fetch(m), Step(m, r);
      && m.v[X(op)] < KEYS
      && var down := m.keys[m.v[X(op)]] != 0;
         var taken := if Kk(op) == 0x9E then down else !down;
         m'.pc == (if taken then m.pc + 4 else m.pc + 2) && SameData(m, m')
  {
  }

  /** `1nnn` jumps to `nnn`; `Bnnn` lands two past `nnn + V0`. */
  lemma Jumps(m: Machine, r: byte)
    requires Defined(m) && (Group(Fetch(m)) == 0x1 || Group(Fetch(m)) == 0xB)
    ensures var op, m' := Fetch(m), Step(m, r);
      m'.pc == (if Group(op) == 0x1 then Nnn(op) else Nnn(op) + m.v[0] + 2) && SameData(m, m')
  {
  }

  /** The low byte, or low nibble, that selects an instruction within groups
      0, 8, E and F names none of them. */
  predicate Unrecognised(op: u16)
  {
    var g, kk, n := Group(op), Kk(op), N(op);
    || (g == 0x0 && kk != 0xE0 && kk != 0xEE)
    || (g == 0x8 && 0x7 < n < 0xE)
    || (g == 0x8 && n == 0xF)
    || (g == 0xE && kk != 0x9E && kk != 0xA1)
    || (g == 0xF && kk !in {0x07, 0x0A, 0x15, 0x18, 0x1E, 0x29, 0x33, 0x55, 0x65})
  }

  /** An unrecognised instruction does nothing: the cycle only latches the
      opcode, clears the flags and ticks the timers, and `pc` stays put, so
      the same word is fetched again next cycle. */
  lemma UnrecognisedStalls(m: Machine, r: byte)
    requires Defined(m) && Unrecognised(Fetch(m))
    ensures Step(m, r) == Tick(Begin(m)) && Step(m, r).pc == m.pc
  {
    var b := Begin(m);
    var op := b.opcode;
    match Group(op)
    case 0x0 => assert Execute(b, r) == ExecSystem(b) == b;
    case 0x8 => assert Execute(b, r) == ExecAlu(b) == b;
    case 0xE => assert Execute(b, r) == ExecKey(b) == b;
    case 0xF => assert Execute(b, r) == ExecMisc(b) == b;
  }

  /** `2nnn` pushes the address of the call itself (not the next
      instruction) one slot up and jumps to `nnn`. */
  lemma Call(m: Machine, r: byte)
    requires Defined(m) && Group(Fetch(m)) == 0x2
    ensures var m' := Step(m, r);
      && m'.pc == Nnn(Fetch(m)) && m'.sp == Inc16(m.sp) && m'.sp < STACK_DEPTH
      && m'.stack == m.stack[Inc16(m.sp) := m.pc]
      && m'.v == m.v && m'.memory == m.memory && m'.gfx == m.gfx && m'.index == m.index
  {
  }

  /** `00EE` pops an address and resumes two past it. */
  lemma Return(m: Machine, r: byte)
    requires Defined(m) && Group(Fetch(m)) == 0x0 && Kk(Fetch(m)) == 0xEE
    ensures var m' := Step(m, r);
      && m'.pc == Add32(m.stack[m.sp], 2) && m'.sp == Dec16(m.sp)
      && m'.stack == m.stack && m'.v == m.v && m'.memory == m.memory && m'.gfx == m.gfx
      && m'.index == m.index
  {
    ReturnExecutes(Begin(m), r);
  }

  /** `Return` on the latched machine. */
  lemma ReturnExecutes(b: Machine, r: byte)
    requires WellFormed(b) && b.pc + 1 < MEMORY_SIZE && DefinedOp(b)
    requires Group(b.opcode) == 0x0 && Kk(b.opcode) == 0xEE
    ensures b.sp < STACK_DEPTH
    ensures Execute(b, r) == b.(pc := Add32(b.stack[b.sp], 2), sp := Dec16(b.sp))
  {
  }

  /** `2nnn` followed by a `00EE` at `nnn` returns to the instruction after
      the call: the call pushes its own address and the return adds two.  The
      stack pointer is restored; the pushed slot keeps the address. */
  lemma CallThenReturn(m: Machine, r1: byte, r2: byte)
    requires Defined(m) && Group(Fetch(m)) == 0x2
    requires var a := Nnn(Fetch(m));
      a + 1 < MEMORY_SIZE && m.memory[a] == 0x00 && m.memory[a + 1] == 0xEE
    ensures Defined(Step(m, r1))
    ensures var m2 := Step(Step(m, r1), r2);
      && m2.pc == m.pc + 2 && m2.sp == m.sp && m2.stack == m.stack[Inc16(m.sp) := m.pc]
      && m2.v == m.v && m2.memory == m.memory && m2.gfx == m.gfx && m2.index == m.index
  {
    Call(m, r1);
    var m1 := Step(m, r1);
    ReturnDefined(m1);
    Return(m1, r2);
    CallReturnFields(m, m1, Step(m1, r2));
  }

  /** The field arithmetic of `CallThenReturn`: a push at `Inc16(sp)` and a
      pop from there undo each other, even when `sp` wraps from 0xFFFF. */
  lemma CallReturnFields(m: Machine, m1: Machine, m2: Machine)
    requires WellFormed(m) && m.pc + 1 < MEMORY_SIZE && |m1.stack| == STACK_DEPTH
    requires m1.sp == Inc16(m.sp) && m1.sp < STACK_DEPTH && m1.stack == m.stack[Inc16(m.sp) := m.pc]
    requires m2.pc == Add32(m1.stack[m1.sp], 2) && m2.sp == Dec16(m1.sp)
    ensures m2.pc == m.pc + 2 && m2.sp == m.sp
  {
  }

  /** A `00EE` at `pc` with a stack pointer inside the stack is defined. */
  lemma ReturnDefined(m: Machine)
    requires WellFormed(m) && m.pc + 1 < MEMORY_SIZE && m.sp < STACK_DEPTH
    requires m.memory[m.pc] == 0x00 && m.memory[m.pc + 1] == 0xEE
    ensures Defined(m) && Group(Fetch(m)) == 0x0 && Kk(Fetch(m)) == 0xEE
  {
    var b := Begin(m);
    assert b.opcode == Fetch(m) == 0x00EE;
    ReturnDefinedOp(b);
  }

  /** `ReturnDefined` on the latched machine. */
  lemma ReturnDefinedOp(b: Machine)
    requires WellFormed(b) && b.opcode == 0x00EE && b.sp < STACK_DEPTH
    ensures DefinedOp(b) && Group(b.opcode) == 0x0 && Kk(b.opcode) == 0xEE
  {
    assert Group(b.opcode) == 0x0 && Kk(b.opcode) == 0xEE;
  }

  // ---------------------------------------------------------------------------
  // Arithmetic

  /** `00E0` (any `0nE0`) turns every display cell off and advances. */
  lemma ClearScreen(m: Machine, r: byte)
    requires Defined(m) && Group(Fetch(m)) == 0x0 && Kk(Fetch(m)) == 0xE0
    ensures var m' := Step(m, r);
      && (forall i :: 0 <= i < DISPLAY_SIZE ==> m'.gfx[i] == 0)
      && m'.pc == m.pc + 2 && m'.v == m.v && m'.memory == m.memory && m'.sp == m.sp
  {
  }

  /** `6xkk` loads `kk` into `Vx`, `Annn` loads `nnn` into `index`, and `Cxkk`
      loads the random byte masked by `kk` into `Vx`; each advances by two and
      changes nothing else. */
  lemma Loads(m: Machine, r: byte)
    requires Defined(m) && Group(Fetch(m)) in {0x6, 0xA, 0xC}
    ensures var op, m' := Fetch(m), Step(m, r);
      var g, x, kk := Group(op), X(op), Kk(op);
      && m'.pc == m.pc + 2 && m'.memory == m.memory && m'.gfx == m.gfx && m'.stack == m.stack
      && (g == 0x6 ==> m'.v == m.v[x := kk] && m'.index == m.index)
      && (g == 0xA ==> m'.v == m.v && m'.index == Nnn(op))
      && (g == 0xC ==> m'.v == m.v[x := BitAnd(r, kk)] && m'.index == m.index)
  {
  }

  /** `8xy0` copies `Vy` into `Vx`; `8xy1`, `8xy2` and `8xy3` combine them by
      OR, AND and XOR; none touches VF except as the destination. */
  lemma Logic(m: Machine, r: byte)
    requires Defined(m) && Group(Fetch(m)) == 0x8 && N(Fetch(m)) <= 0x3
    ensures var op, m' := Fetch(m), Step(m, r);
      var n, vx, vy := N(op), m.v[X(op)], m.v[Y(op)];
      && m'.v == m.v[X(op) := if n == 0x0 then vy else if n == 0x1 then BitOr(vx, vy)
                               else if n == 0x2 then BitAnd(vx, vy) else BitXor(vx, vy)]
      && m'.pc == m.pc + 2 && m'.index == m.index && m'.memory == m.memory
      && m'.gfx == m.gfx && m'.stack == m.stack && m'.sp == m.sp
  {
  }

  /** `Fx07` reads the delay timer as it was before this cycle's tick;
      `Fx1E` adds `Vx` to `index` as an `unsigned int`; `Fx29` points `index`
      at `5 * Vx`, where `init_cpu` put the five-byte glyph of digit `Vx`. */
  lemma IndexAndTimer(m: Machine, r: byte)
    requires Defined(m) && Group(Fetch(m)) == 0xF && Kk(Fetch(m)) in {0x07, 0x1E, 0x29}
    ensures var op, m' := Fetch(m), Step(m, r);
      var kk, x, vx := Kk(op), X(op), m.v[X(op)];
      && m'.pc == m.pc + 2 && m'.memory == m.memory
      && (kk == 0x07 ==> m'.v == m.v[x := m.delay] && m'.index == m.index)
      && (kk == 0x1E ==> m'.v == m.v && m'.index == Add32(m.index, vx))
      && (kk == 0x29 ==> m'.v == m.v && m'.index == 5 * (vx as int))
  {
  }

  /** `7xkk` adds modulo 256 and sets no carry. */
  lemma AddImmediate(m: Machine, r: byte)
    requires Defined(m) && Group(Fetch(m)) == 0x7
    ensures var op, m' := Fetch(m), Step(m, r);
      var x, sum := X(op), m.v[X(op)] as int + Kk(op);
      && m'.v[x] == (if sum < 0x100 then sum else sum - 0x100)
      && (forall j :: 0 <= j < REGISTERS && j != x ==> m'.v[j] == m.v[j])
      && m'.pc == m.pc + 2
  {
  }

  /** `8xy4` adds modulo 256 and sets no carry: VF changes only as the
      destination. */
  lemma AddRegisters(m: Machine, r: byte)
    requires Defined(m) && Group(Fetch(m)) == 0x8 && N(Fetch(m)) == 0x4
    ensures var op, m' := Fetch(m), Step(m, r);
      var x, sum := X(op), m.v[X(op)] as int + m.v[Y(op)];
      && m'.v[x] == (if sum < 0x100 then sum else sum - 0x100)
      && (forall j :: 0 <= j < REGISTERS && j != x ==> m'.v[j] == m.v[j])
      && m'.pc == m.pc + 2
  {
  }

  /** `8xy5` subtracts modulo 256; VF is 1 exactly when `Vx > Vy`, strictly,
      so equal operands give VF 0 although nothing is borrowed.  The flag is
      written first: with `y` = F the subtrahend is the new flag, and with
      `x` = F the difference overwrites it. */
  lemma Subtract(m: Machine, r: byte)
    requires Defined(m) && Group(Fetch(m)) == 0x8 && N(Fetch(m)) == 0x5
    ensures var op, m' := Fetch(m), Step(m, r);
      var x, y := X(op), Y(op);
      var flag := if m.v[x] > m.v[y] then 1 else 0;
      var vy := if y == VF then flag else m.v[y];
      && (x != VF ==> m'.v[VF] == flag && m'.v[x] == Difference(m.v[x], vy))
      && (x == VF ==> m'.v[VF] == Difference(flag, vy))
      && (forall j :: 0 <= j < VF && j != x ==> m'.v[j] == m.v[j])
      && m'.pc == m.pc + 2
  {
  }

  /** `8xy7` subtracts the other way round; VF is 1 exactly when `Vy > Vx`,
      written before the difference. */
  lemma SubtractReversed(m: Machine, r: byte)
    requires Defined(m) && Group(Fetch(m)) == 0x8 && N(Fetch(m)) == 0x7
    ensures var op, m' := Fetch(m), Step(m, r);
      var x, y := X(op), Y(op);
      var flag := if m.v[y] > m.v[x] then 1 else 0;
      var vy := if y == VF then flag else m.v[y];
      && (x != VF ==> m'.v[VF] == flag && m'.v[x] == Difference(vy, m.v[x]))
      && (x == VF ==> m'.v[VF] == Difference(vy, flag))
      && (forall j :: 0 <= j < VF && j != x ==> m'.v[j] == m.v[j])
      && m'.pc == m.pc + 2
  {
  }

  /** `a - b` as an `unsigned char`: borrowing 256 when `b` is larger.  The
      case split is the C store of the difference, and the result is the true
      difference exactly when nothing is borrowed. */
  function Difference(a: byte, b: byte): (d: byte)
    ensures d == Trunc8(a as int - b)
    ensures d == a - b <==> b <= a
  {
    if a >= b then a - b else a - b + 0x100
  }

  /** `8xy6` halves `Vx`; VF receives the low nibble of `Vx` (`& 0x0F`), not
      just the bit shifted out. */
  lemma ShiftRight(m: Machine, r: byte)
    requires Defined(m) && Group(Fetch(m)) == 0x8 && N(Fetch(m)) == 0x6
    ensures var op, m' := Fetch(m), Step(m, r);
      var x := X(op);
      && (x != VF ==> m'.v[VF] == m.v[x] % 16 && 2 * m'.v[x] + m.v[x] % 2 == m.v[x])
      && (x == VF ==> m'.v[VF] == (m.v[VF] % 16) / 2)
      && (forall j :: 0 <= j < VF && j != x ==> m'.v[j] == m.v[j])
      && m'.pc == m.pc + 2
  {
  }

  /** `8xyE` doubles `Vx` modulo 256; VF receives bit 7, the bit shifted out. */
  lemma ShiftLeft(m: Machine, r: byte)
    requires Defined(m) && Group(Fetch(m)) == 0x8 && N(Fetch(m)) == 0xE
    ensures var op, m' := Fetch(m), Step(m, r);
      var x := X(op);
      var bit7 := if m.v[x] >= 0x80 then 1 else 0;
      && (x != VF ==> m'.v[VF] == bit7 && m'.v[x] as int + 0x100 * bit7 == 2 * (m.v[x] as int))
      && (x == VF ==> m'.v[VF] == 2 * bit7)
      && (forall j :: 0 <= j < VF && j != x ==> m'.v[j] == m.v[j])
      && m'.pc == m.pc + 2
  {
  }

  // ---------------------------------------------------------------------------
  // Drawing

  /** `Dxyn` raises `draw_flag`, advances by two, reads memory without
      changing it and, whatever `x` and `y`, leaves V0..VE alone and keeps a
      display of zeros and ones. */
  lemma DrawAlways(m: Machine, r: byte)
    requires Defined(m) && Group(Fetch(m)) == 0xD
    ensures var m' := Step(m, r);
      && m'.drawFlag == 1 && m'.pc == m.pc + 2 && m'.memory == m.memory && m'.index == m.index
      && (forall j :: 0 <= j < VF ==> m'.v[j] == m.v[j])
      && (DisplayBinary(m.gfx) ==> DisplayBinary(m'.gfx))
  {
    var b := Begin(m);
    var op := b.opcode;
    if DisplayBinary(m.gfx) {
      DrawFromBinary(DrawStart(b), X(op), Y(op), Rows(b.memory, b.index, N(op)), 0);
    }
  }

  /** With `x` and `y` other than F, a `Dxyn` is defined exactly when its rows
      lie in memory (trivially when there are none) and every covered cell
      lies on the display. */
  lemma DrawDefined(m: Machine)
    requires WellFormed(m) && m.pc + 1 < MEMORY_SIZE
    requires Group(Fetch(m)) == 0xD && X(Fetch(m)) != VF && Y(Fetch(m)) != VF
    ensures var op := Fetch(m);
      Defined(m) <==>
        && RowsInMemory(m.memory, m.index, N(op))
        && InRange(m.v[X(op)], m.v[Y(op)], Rows(m.memory, m.index, N(op)), 0)
  {
    var b := Begin(m);
    assert b.opcode == Fetch(m) && b.v == m.v && b.memory == m.memory && b.index == m.index;
    DrawExecutes(b, 0);
  }

  /** With `x` and `y` other than F, a defined `Dxyn` toggles exactly the
      covered cells and sets VF to 1 exactly when one of them was on, and to
      0 otherwise. */
  lemma DrawFixed(m: Machine, r: byte)
    requires Defined(m) && Group(Fetch(m)) == 0xD && X(Fetch(m)) != VF && Y(Fetch(m)) != VF
    ensures var op, m' := Fetch(m), Step(m, r);
      var vx, vy, sprite := m.v[X(op)], m.v[Y(op)], Rows(m.memory, m.index, N(op));
      && (forall i :: 0 <= i < DISPLAY_SIZE ==>
            m'.gfx[i] == if Covered(vx, vy, sprite, 0, i) then Toggle(m.gfx[i]) else m.gfx[i])
      && m'.v == m.v[VF := if Collides(vx, vy, sprite, 0, m.gfx) then 1 else 0]
  {
    var b := Begin(m);
    var op := Fetch(m);
    assert b.opcode == op && b.v == m.v && b.memory == m.memory && b.index == m.index && b.gfx == m.gfx;
    DrawExecutes(b, r);
    var e := Execute(b, r);
    assert Step(m, r).gfx == e.gfx && Step(m, r).v == e.v;
  }

  /** `DrawFixed` on the latched machine. */
  lemma DrawExecutes(b: Machine, r: byte)
    requires WellFormed(b) && b.pc + 1 < MEMORY_SIZE
    requires Group(b.opcode) == 0xD && X(b.opcode) != VF && Y(b.opcode) != VF
    ensures var op := b.opcode;
      DefinedOp(b) <==>
        && RowsInMemory(b.memory, b.index, N(op))
        && InRange(b.v[X(op)], b.v[Y(op)], Rows(b.memory, b.index, N(op)), 0)
    ensures DefinedOp(b) ==>
      var op, e := b.opcode, Execute(b, r);
      var vx, vy, sprite := b.v[X(op)], b.v[Y(op)], Rows(b.memory, b.index, N(op));
      && (forall i :: 0 <= i < DISPLAY_SIZE ==>
            e.gfx[i] == if Covered(vx, vy, sprite, 0, i) then Toggle(b.gfx[i]) else b.gfx[i])
      && e.v == b.v[VF := if Collides(vx, vy, sprite, 0, b.gfx) then 1 else 0]
  {
    var op := b.opcode;
    if RowsInMemory(b.memory, b.index, N(op)) {
      var s := DrawStart(b);
      DrawFromFixed(s, X(op), Y(op), Rows(b.memory, b.index, N(op)), 0);
      assert s.v[X(op)] == b.v[X(op)] && s.v[Y(op)] == b.v[Y(op)];
      if DefinedOp(b) {
        assert Execute(b, r) == ExecDraw(b);
        assert s.v[VF := 0] == s.v && b.v[VF := 0][VF := 1] == b.v[VF := 1];
      }
    }
  }

  /** Drawing the same sprite twice in a row (a `Dxyn`, x and y other than F,
      followed by a copy of itself) restores the display. */
  lemma DrawTwiceRestores(m: Machine, r1: byte, r2: byte)
    requires Defined(m) && Group(Fetch(m)) == 0xD && X(Fetch(m)) != VF && Y(Fetch(m)) != VF
    requires m.pc + 3 < MEMORY_SIZE
    requires m.memory[m.pc + 2] == m.memory[m.pc] && m.memory[m.pc + 3] == m.memory[m.pc + 1]
    ensures Defined(Step(m, r1))
    ensures Step(Step(m, r1), r2).gfx == m.gfx
  {
    var op := Fetch(m);
    var vx, vy := m.v[X(op)], m.v[Y(op)];
    var sprite := Rows(m.memory, m.index, N(op));
    var m1 := Step(m, r1);
    DrawFixed(m, r1);
    DrawAgain(m, r1);
    DrawFixed(m1, r2);
    ToggleTwice(m.gfx, m1.gfx, Step(m1, r2).gfx, vx, vy, sprite);
  }

  /** After a `Dxyn` (`x`, `y` other than F) followed by a copy of itself,
      the copy is fetched next, defined, and draws the same cells. */
  lemma DrawAgain(m: Machine, r: byte)
    requires Defined(m) && Group(Fetch(m)) == 0xD && X(Fetch(m)) != VF && Y(Fetch(m)) != VF
    requires m.pc + 3 < MEMORY_SIZE
    requires m.memory[m.pc + 2] == m.memory[m.pc] && m.memory[m.pc + 3] == m.memory[m.pc + 1]
    ensures var op, m1 := Fetch(m), Step(m, r);
      && m1.pc + 1 < MEMORY_SIZE && Fetch(m1) == op && Defined(m1)
      && m1.memory == m.memory && m1.index == m.index
      && m1.v[X(op)] == m.v[X(op)] && m1.v[Y(op)] == m.v[Y(op)]
  {
    var op := Fetch(m);
    var m1 := Step(m, r);
    DrawDefined(m);
    DrawFixed(m, r);
    DrawAlways(m, r);
    assert Fetch(m1) == op;
    DrawDefined(m1);
  }

  /** Toggling the same covered cells twice restores the display. */
  lemma ToggleTwice(g0: seq<byte>, g1: seq<byte>, g2: seq<byte>, vx: byte, vy: byte, sprite: seq<byte>)
    requires |g0| == |g1| == |g2| == DISPLAY_SIZE
    requires forall i :: 0 <= i < DISPLAY_SIZE ==>
      g1[i] == if Covered(vx, vy, sprite, 0, i) then Toggle(g0[i]) else g0[i]
    requires forall i :: 0 <= i < DISPLAY_SIZE ==>
      g2[i] == if Covered(vx, vy, sprite, 0, i) then Toggle(g1[i]) else g1[i]
    ensures g2 == g0
  {
    forall i | 0 <= i < DISPLAY_SIZE
      ensures g2[i] == g0[i]
    {
      if Covered(vx, vy, sprite, 0, i) {
        assert Toggle(Toggle(g0[i])) == g0[i];
      }
    }
  }

  /** Drawing onto cells that are all off reports no collision; drawing the
      same sprite again then reports one exactly when the sprite covers some
      cell. */
  lemma DrawOnBlank(m: Machine, r1: byte, r2: byte)
    requires Defined(m) && Group(Fetch(m)) == 0xD && X(Fetch(m)) != VF && Y(Fetch(m)) != VF
    requires m.pc + 3 < MEMORY_SIZE
    requires m.memory[m.pc + 2] == m.memory[m.pc] && m.memory[m.pc + 3] == m.memory[m.pc + 1]
    requires var op := Fetch(m);
      var vx, vy, sprite := m.v[X(op)], m.v[Y(op)], Rows(m.memory, m.index, N(op));
      forall i :: 0 <= i < DISPLAY_SIZE && Covered(vx, vy, sprite, 0, i) ==> m.gfx[i] == 0
    ensures Step(m, r1).v[VF] == 0
    ensures Defined(Step(m, r1))
    ensures var op := Fetch(m);
      var vx, vy, sprite := m.v[X(op)], m.v[Y(op)], Rows(m.memory, m.index, N(op));
      Step(Step(m, r1), r2).v[VF] == 1 <==> exists i :: 0 <= i < DISPLAY_SIZE && Covered(vx, vy, sprite, 0, i)
  {
    var op := Fetch(m);
    var vx, vy := m.v[X(op)], m.v[Y(op)];
    var sprite := Rows(m.memory, m.index, N(op));
    var m1 := Step(m, r1);
    DrawFixed(m, r1);
    DrawAgain(m, r1);
    DrawFixed(m1, r2);
    BlankCollisions(m.gfx, m1.gfx, vx, vy, sprite);
    assert Rows(m1.memory, m1.index, N(op)) == sprite;
    assert Step(m1, r2).v[VF] == if Collides(vx, vy, sprite, 0, m1.gfx) then 1 else 0;
  }

  /** Toggling covered cells that are all off reports no collision, and the
      cells are then on, so a second pass collides exactly when some cell is
      covered. */
  lemma BlankCollisions(g0: seq<byte>, g1: seq<byte>, vx: byte, vy: byte, sprite: seq<byte>)
    requires |g0| == |g1| == DISPLAY_SIZE
    requires forall i :: 0 <= i < DISPLAY_SIZE && Covered(vx, vy, sprite, 0, i) ==> g0[i] == 0
    requires forall i :: 0 <= i < DISPLAY_SIZE ==>
      g1[i] == if Covered(vx, vy, sprite, 0, i) then Toggle(g0[i]) else g0[i]
    ensures !Collides(vx, vy, sprite, 0, g0)
    ensures Collides(vx, vy, sprite, 0, g1) <==>
      exists i :: 0 <= i < DISPLAY_SIZE && Covered(vx, vy, sprite, 0, i)
  {
    if exists i :: 0 <= i < DISPLAY_SIZE && Covered(vx, vy, sprite, 0, i) {
      var i :| 0 <= i < DISPLAY_SIZE && Covered(vx, vy, sprite, 0, i);
      assert g1[i] == 1;
    }
  }

  /** Every instruction keeps a display of zeros and ones. */
  lemma DisplayStaysBinary(m: Machine, r: byte)
    requires Defined(m) && DisplayBinary(m.gfx)
    ensures DisplayBinary(Step(m, r).gfx)
  {
    var b := Begin(m);
    match Group(b.opcode)
    case 0xD => DrawAlways(m, r);
    case _ =>
  }

  // ---------------------------------------------------------------------------
  // Keys, memory transfers

  /** `Fx0A` with no key down leaves everything but the timers as it was, so
      the instruction runs again; with keys down it loads the lowest pressed
      key into `Vx` and advances. */
  lemma WaitForKey(m: Machine, r: byte)
    requires Defined(m) && Group(Fetch(m)) == 0xF && Kk(Fetch(m)) == 0x0A
    ensures var x, m' := X(Fetch(m)), Step(m, r);
      && ((forall k :: 0 <= k < KEYS ==> m.keys[k] == 0) ==> m'.pc == m.pc && SameData(m, m'))
      && ((exists k :: 0 <= k < KEYS && m.keys[k] != 0) ==>
            && m'.pc == m.pc + 2 && m'.v == m.v[x := m'.v[x]]
            && m'.v[x] < KEYS && m.keys[m'.v[x]] != 0
            && forall k :: 0 <= k < m'.v[x] ==> m.keys[k] == 0)
  {
  }

  /** `Fx33` stores the three decimal digits of `Vx` at `index`, hundreds
      first, and no other byte of memory. */
  lemma StoreDigits(m: Machine, r: byte)
    requires Defined(m) && Group(Fetch(m)) == 0xF && Kk(Fetch(m)) == 0x33
    ensures var i, m' := m.index, Step(m, r);
      && m'.memory[i] <= 2 && m'.memory[i + 1] <= 9 && m'.memory[i + 2] <= 9
      && 100 * m'.memory[i] + 10 * m'.memory[i + 1] + m'.memory[i + 2] == m.v[X(Fetch(m))]
      && (forall a :: 0 <= a < MEMORY_SIZE && !(i <= a < i + 3) ==> m'.memory[a] == m.memory[a])
      && m'.v == m.v && m'.index == i && m'.pc == m.pc + 2
  {
  }

  /** `Fx55` followed by `Fy65`, with the stored block clear of the second
      instruction, brings back every register: both copy all sixteen,
      whatever `x` and `y`, and neither moves `index`. */
  lemma StoreThenLoad(m: Machine, r1: byte, r2: byte)
    requires Defined(m) && Group(Fetch(m)) == 0xF && Kk(Fetch(m)) == 0x55
    requires m.pc + 3 < MEMORY_SIZE && m.memory[m.pc + 2] / 16 == 0xF && m.memory[m.pc + 3] == 0x65
    requires m.index + REGISTERS <= m.pc + 2 || m.pc + 4 <= m.index
    ensures Defined(Step(m, r1))
    ensures var m2 := Step(Step(m, r1), r2);
      m2.v == m.v && m2.index == m.index && m2.memory[m.index..m.index + REGISTERS] == m.v
  {
    var m1 := Step(m, r1);
    var i := m.index;
    TransferExecutes(Begin(m), r1);
    assert m1.memory == m.memory[..i] + m.v + m.memory[i + REGISTERS..];
    assert m1.v == m.v && m1.index == i && m1.pc == m.pc + 2;
    assert m1.memory[m.pc + 2] == m.memory[m.pc + 2] && m1.memory[m.pc + 3] == m.memory[m.pc + 3];
    assert m1.memory[i..i + REGISTERS] == m.v;
    var op := Fetch(m1);
    assert Group(op) == 0xF && Kk(op) == 0x65;
    TransferExecutes(Begin(m1), r2);
  }

  /** `Fx55` and `Fx65` on the latched machine. */
  lemma TransferExecutes(b: Machine, r: byte)
    requires WellFormed(b) && b.pc + 1 < MEMORY_SIZE && DefinedOp(b)
    requires Group(b.opcode) == 0xF && Kk(b.opcode) in {0x55, 0x65}
    ensures b.index + REGISTERS <= MEMORY_SIZE
    ensures var i := b.index;
      Kk(b.opcode) == 0x55 ==>
        Execute(b, r) == b.(memory := b.memory[..i] + b.v + b.memory[i + REGISTERS..], pc := b.pc + 2)
    ensures Kk(b.opcode) == 0x65 ==>
      Execute(b, r) == b.(v := b.memory[b.index..b.index + REGISTERS], pc := b.pc + 2)
  {
  }

  // ---------------------------------------------------------------------------
  // Timers

  /** Outside `Fx15` and `Fx18`, each cycle counts the delay and sound timers
      down by one, stopping at zero; `sound_flag` is raised exactly when the
      sound timer was running, and `play_beep` runs exactly when it was 1. */
  lemma TimersCountDown(m: Machine, r: byte)
    requires Defined(m)
    requires !(Group(Fetch(m)) == 0xF && (Kk(Fetch(m)) == 0x15 || Kk(Fetch(m)) == 0x18))
    ensures var m' := Step(m, r);
      && m'.delay == (if m.delay > 0 then m.delay - 1 else 0)
      && m'.sound == (if m.sound > 0 then m.sound - 1 else 0)
      && (m'.soundFlag == 1 <==> m.sound > 0)
      && (Beeps(m, r) <==> m.sound == 1)
  {
  }

  /** A timer loaded by `Fx15` or `Fx18` is already counted down in the same
      cycle, while the other timer counts down as usual; `sound_flag` is
      raised exactly when the sound timer runs after the load, and loading 1
      into the sound timer beeps at once. */
  lemma TimerSetThisCycle(m: Machine, r: byte)
    requires Defined(m) && Group(Fetch(m)) == 0xF && (Kk(Fetch(m)) == 0x15 || Kk(Fetch(m)) == 0x18)
    ensures var op, m' := Fetch(m), Step(m, r);
      var vx := m.v[X(op)];
      && (Kk(op) == 0x15 ==>
            && m'.delay == (if vx > 0 then vx - 1 else 0)
            && m'.sound == (if m.sound > 0 then m.sound - 1 else 0)
            && (m'.soundFlag == 1 <==> m.sound > 0)
            && (Beeps(m, r) <==> m.sound == 1))
      && (Kk(op) == 0x18 ==>
            && m'.sound == (if vx > 0 then vx - 1 else 0)
            && m'.delay == (if m.delay > 0 then m.delay - 1 else 0)
            && (m'.soundFlag == 1 <==> vx > 0)
            && (Beeps(m, r) <==> vx == 1))
  {
  }
}

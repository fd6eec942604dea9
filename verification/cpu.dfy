/** The interpreter of lib/cpu.h as an object: the globals become fields,
    `init_cpu` becomes `Reset` and `cpu_cycle` becomes `Cycle`, each proved
    against the functions of module Semantics. */
module Cpu {
  import opened Machine
  import opened Sprite
  import opened Semantics

  class Chip8 {
    var opcode: u16
    const memory: array<byte>
    const v: array<byte>
    var index: u32
    var pc: u32
    const gfx: array<byte>
    var delay: byte
    var sound: byte
    const stack: array<u32>
    var sp: u16
    /** Written only by the keyboard poller between cycles. */
    const keys: array<byte>
    var drawFlag: byte
    var soundFlag: byte
    /** How many times `play_beep` has been called. */
    ghost var beeps: nat

    ghost predicate Valid()
      reads this
    {
      memory.Length == MEMORY_SIZE && v.Length == REGISTERS && gfx.Length == DISPLAY_SIZE
      && stack.Length == STACK_DEPTH && keys.Length == KEYS
      && memory != v && memory != gfx && memory != keys
      && v != gfx && v != keys && gfx != keys
    }

    /** The machine state the object holds. */
    function State(): (m: Machine)
      reads this, memory, v, gfx, stack, keys
      ensures Valid() ==> WellFormed(m)
    {
      Machine(opcode, memory[..], v[..], index, pc, gfx[..], delay, sound,
              stack[..], sp, keys[..], drawFlag, soundFlag)
    }

    /** The globals as the C runtime leaves them before `init_cpu`: all zero. */
    constructor ()
      ensures Valid() && fresh(memory) && fresh(v) && fresh(gfx) && fresh(stack) && fresh(keys)
      ensures State() == Machine(0, seq(MEMORY_SIZE, _ => 0), seq(REGISTERS, _ => 0), 0, 0,
                                 seq(DISPLAY_SIZE, _ => 0), 0, 0, seq(STACK_DEPTH, _ => 0), 0,
                                 seq(KEYS, _ => 0), 0, 0)
      ensures beeps == 0
    {
      opcode := 0;
      memory := new byte[MEMORY_SIZE](_ => 0);
      v := new byte[REGISTERS](_ => 0);
      index, pc := 0, 0;
      gfx := new byte[DISPLAY_SIZE](_ => 0);
      delay, sound := 0, 0;
      stack := new u32[STACK_DEPTH](_ => 0);
      sp := 0;
      keys := new byte[KEYS](_ => 0);
      drawFlag, soundFlag := 0, 0;
      beeps := 0;
    }

    /** `init_cpu`: zero everything, start at 0x200 and install the font. */
    method Reset()
      requires Valid()
      modifies this, memory, v, gfx, stack, keys
      ensures Valid()
      ensures memory[..FONT_SIZE] == FONT
      ensures forall a :: FONT_SIZE <= a < MEMORY_SIZE ==> memory[a] == 0
      ensures forall j :: 0 <= j < REGISTERS ==> v[j] == 0
      ensures index == 0 && pc == START_ADDRESS && sp == 0
      ensures forall j :: 0 <= j < STACK_DEPTH ==> stack[j] == 0
      ensures forall j :: 0 <= j < KEYS ==> keys[j] == 0
      ensures forall a :: 0 <= a < DISPLAY_SIZE ==> gfx[a] == 0
      ensures delay == 0 && sound == 0 && soundFlag == 0 && drawFlag == 0
      ensures opcode == old(opcode) && beeps == old(beeps)
    {
      forall a | 0 <= a < MEMORY_SIZE {
        memory[a] := 0;
      }
      forall j | 0 <= j < REGISTERS {
        v[j] := 0;
      }
      index := 0;
      pc := START_ADDRESS;
      sp := 0;
      forall j | 0 <= j < STACK_DEPTH {
        stack[j] := 0;
      }
      forall j | 0 <= j < KEYS {
        keys[j] := 0;
      }
      forall a | 0 <= a < DISPLAY_SIZE {
        gfx[a] := 0;
      }
      delay, sound := 0, 0;
      soundFlag, drawFlag := 0, 0;
      forall a | 0 <= a < FONT_SIZE {
        memory[a] := FONT[a];
      }
    }

    /** `cpu_cycle`: fetch, execute and tick, with `r` the byte `rand()` yields. */
    method Cycle(r: byte)
      requires Valid() && Defined(State())
      modifies this, memory, v, gfx, stack
      ensures Valid()
      ensures State() == Step(old(State()), r)
      ensures beeps == old(beeps) + (if Beeps(old(State()), r) then 1 else 0)
    {
      drawFlag, soundFlag := 0, 0;
      opcode := memory[pc] as int * 0x100 + memory[pc + 1];
      assert State() == Begin(old(State()));
      Dispatch(r);
      TickTimers();
    }

    /** The instruction switch of `cpu_cycle`. */
    method Dispatch(r: byte)
      requires Valid() && pc + 1 < MEMORY_SIZE && DefinedOp(State())
      modifies this, memory, v, gfx, stack
      ensures Valid() && State() == Execute(old(State()), r) && beeps == old(beeps)
    {
      var x, y, kk, nnn := X(opcode), Y(opcode), Kk(opcode), Nnn(opcode);
      match Group(opcode) {
      case 0x0 => ExecSystem();
      case 0x1 => pc := nnn;
      case 0x2 =>
        sp := Inc16(sp);
        stack[sp] := pc;
        pc := nnn;
      case 0x3 =>
        if v[x] == kk { pc := pc + 2; }
        pc := pc + 2;
      case 0x4 =>
        if v[x] != kk { pc := pc + 2; }
        pc := pc + 2;
      case 0x5 =>
        if v[x] == v[y] { pc := pc + 2; }
        pc := pc + 2;
      case 0x6 =>
        v[x] := kk;
        pc := pc + 2;
      case 0x7 =>
        v[x] := Trunc8(v[x] as int + kk);
        pc := pc + 2;
      case 0x8 => ExecAlu();
      case 0x9 =>
        if v[x] != v[y] { pc := pc + 2; }
        pc := pc + 2;
      case 0xA =>
        index := nnn;
        pc := pc + 2;
      case 0xB =>
        pc := nnn + v[0];
        pc := pc + 2;
      case 0xC =>
        v[x] := BitAnd(r, kk);
        pc := pc + 2;
      case 0xD => ExecDraw();
      case 0xE => ExecKey();
      case _ => ExecMisc();
      }
    }

    /** The timer update at the end of `cpu_cycle`; `play_beep` is counted in
        `beeps`. */
    method TickTimers()
      requires Valid()
      modifies this
      ensures Valid() && State() == Tick(old(State()))
      ensures beeps == old(beeps) + (if old(sound) == 1 then 1 else 0)
    {
      if delay > 0 {
        delay := delay - 1;
      }
      if sound > 0 {
        soundFlag := 1;
        if sound == 1 {
          beeps := beeps + 1;
        }
        sound := sound - 1;
      }
    }

    /** Group 0 of `cpu_cycle`. */
    method ExecSystem()
      requires Valid() && pc + 1 < MEMORY_SIZE && Group(opcode) == 0x0 && DefinedOp(State())
      modifies this, gfx
      ensures Valid() && State() == Semantics.ExecSystem(old(State())) && beeps == old(beeps)
    {
      match Kk(opcode)
      case 0xE0 =>
        forall a | 0 <= a < DISPLAY_SIZE {
          gfx[a] := 0;
        }
        pc := pc + 2;
      case 0xEE =>
        pc := stack[sp];
        sp := Dec16(sp);
        pc := Add32(pc, 2);
      case _ =>
    }

    /** Group 8 of `cpu_cycle`. */
    method ExecAlu()
      requires Valid() && pc + 1 < MEMORY_SIZE && Group(opcode) == 0x8
      modifies this, v
      ensures Valid() && State() == Semantics.ExecAlu(old(State())) && beeps == old(beeps)
    {
      if N(opcode) in {0x5, 0x6, 0x7, 0xE} {
        ExecAluFlagged();
      } else {
        ExecAluPlain();
      }
    }

    /** `8xy0` to `8xy4` and the unrecognised low nibbles: VF is written only
        as the destination. */
    method ExecAluPlain()
      requires Valid() && pc + 1 < MEMORY_SIZE && Group(opcode) == 0x8 && N(opcode) !in {0x5, 0x6, 0x7, 0xE}
      modifies this, v
      ensures Valid() && State() == Semantics.ExecAlu(old(State())) && beeps == old(beeps)
    {
      var x, y := X(opcode), Y(opcode);
      ghost var w := v[..];
      match N(opcode)
      case 0x0 =>
        v[x] := v[y];
        pc := pc + 2;
        assert v[..] == w[x := w[y]];
      case 0x1 =>
        v[x] := BitOr(v[x], v[y]);
        pc := pc + 2;
        assert v[..] == w[x := BitOr(w[x], w[y])];
      case 0x2 =>
        v[x] := BitAnd(v[x], v[y]);
        pc := pc + 2;
        assert v[..] == w[x := BitAnd(w[x], w[y])];
      case 0x3 =>
        v[x] := BitXor(v[x], v[y]);
        pc := pc + 2;
        assert v[..] == w[x := BitXor(w[x], w[y])];
      case 0x4 =>
        v[x] := Trunc8(v[x] as int + v[y]);
        pc := pc + 2;
        assert v[..] == w[x := Trunc8(w[x] as int + w[y])];
      case _ =>
    }

    /** `8xy5`, `8xy6`, `8xy7` and `8xyE`: VF is written first, then `Vx`. */
    method ExecAluFlagged()
      requires Valid() && pc + 1 < MEMORY_SIZE && Group(opcode) == 0x8 && N(opcode) in {0x5, 0x6, 0x7, 0xE}
      modifies this, v
      ensures Valid() && State() == Semantics.ExecAlu(old(State())) && beeps == old(beeps)
    {
      if N(opcode) in {0x5, 0x7} {
        ExecSubtract();
      } else {
        ExecShift();
      }
    }

    /** `8xy5` and `8xy7`: the borrow flag, then the difference. */
    method ExecSubtract()
      requires Valid() && pc + 1 < MEMORY_SIZE && Group(opcode) == 0x8 && N(opcode) in {0x5, 0x7}
      modifies this, v
      ensures Valid() && State() == Semantics.ExecAlu(old(State())) && beeps == old(beeps)
    {
      var x, y := X(opcode), Y(opcode);
      if N(opcode) == 0x5 {
        v[VF] := if v[x] > v[y] then 1 else 0;
        ghost var w := v[..];
        v[x] := Trunc8(v[x] as int - v[y]);
        pc := pc + 2;
        assert v[..] == w[x := Trunc8(w[x] as int - w[y])];
      } else {
        v[VF] := if v[y] > v[x] then 1 else 0;
        ghost var w := v[..];
        v[x] := Trunc8(v[y] as int - v[x]);
        pc := pc + 2;
        assert v[..] == w[x := Trunc8(w[y] as int - w[x])];
      }
    }

    /** `8xy6` and `8xyE`: the flag from `Vx`, then the shift. */
    method ExecShift()
      requires Valid() && pc + 1 < MEMORY_SIZE && Group(opcode) == 0x8 && N(opcode) in {0x6, 0xE}
      modifies this, v
      ensures Valid() && State() == Semantics.ExecAlu(old(State())) && beeps == old(beeps)
    {
      var x := X(opcode);
      if N(opcode) == 0x6 {
        v[VF] := v[x] % 16;
        ghost var w := v[..];
        v[x] := v[x] / 2;
        pc := pc + 2;
        assert v[..] == w[x := w[x] / 2];
      } else {
        v[VF] := v[x] / 128;
        ghost var w := v[..];
        v[x] := Trunc8(v[x] as int * 2);
        pc := pc + 2;
        assert v[..] == w[x := Trunc8(w[x] as int * 2)];
      }
    }

    /** Group D of `cpu_cycle`. */
    method ExecDraw()
      requires Valid() && pc + 1 < MEMORY_SIZE && Group(opcode) == 0xD && DefinedOp(State())
      modifies this, v, gfx
      ensures Valid() && State() == Semantics.ExecDraw(old(State())) && beeps == old(beeps)
    {
      drawFlag := 1;
      v[VF] := 0;
      assert Display() == DrawStart(old(State()));
      DrawSprite(X(opcode), Y(opcode), N(opcode));
      pc := pc + 2;
    }

    /** The registers and the display. */
    ghost function Display(): Screen
      reads v, gfx
    {
      Screen(v[..], gfx[..])
    }

    /** The sprite loop of `Dxyn`: `height` rows of eight pixels. */
    method DrawSprite(x: nat, y: nat, height: nat)
      requires Valid() && x < REGISTERS && y < REGISTERS && RowsInMemory(memory[..], index, height)
      requires Draw(Display(), x, y, Rows(memory[..], index, height)).Some?
      modifies v, gfx
      ensures Display() == Draw(old(Display()), x, y, Rows(memory[..], index, height)).value
    {
      ghost var sprite := Rows(memory[..], index, height);
      ghost var target := Draw(Display(), x, y, sprite);
      ghost var cur := Display();
      ghost var k := 0;
      assert forall j :: 0 <= j < height ==> memory[index + j] == sprite[j];
      var row := 0;
      while row < height
        invariant 0 <= row <= height && k == row * 8
        invariant DrawArgs(cur, x, y) && Display() == cur
        invariant DrawFrom(cur, x, y, sprite, k) == target
      {
        cur := DrawRow(x, y, row, sprite, cur);
        row, k := row + 1, k + 8;
      }
      assert k == |sprite| * 8 && target == Some(cur);
      assert sprite == Rows(memory[..], index, height);
    }

    /** One pass of the outer sprite loop: the eight pixels of sprite row
        `row`, taking the registers and the display from `cur` to `next`. */
    method DrawRow(x: nat, y: nat, row: nat, ghost sprite: seq<byte>, ghost cur: Screen)
      returns (ghost next: Screen)
      requires Valid() && DrawArgs(cur, x, y) && Display() == cur
      requires row < |sprite| && index + row < MEMORY_SIZE && memory[index + row] == sprite[row]
      requires DrawFrom(cur, x, y, sprite, row * 8).Some?
      modifies v, gfx
      ensures DrawArgs(next, x, y) && Display() == next
      ensures DrawFrom(next, x, y, sprite, row * 8 + 8) == DrawFrom(cur, x, y, sprite, row * 8)
    {
      var px := memory[index + row];
      ghost var target := DrawFrom(cur, x, y, sprite, row * 8);
      ghost var k := row * 8;
      next := cur;
      for col := 0 to 8
        invariant k == row * 8 + col
        invariant DrawArgs(next, x, y) && Display() == next
        invariant DrawFrom(next, x, y, sprite, k) == target
      {
        next := DrawPixel(x, y, row, col, px, sprite, next, k);
        k := k + 1;
      }
    }

    /** One pass of the inner sprite loop: the bit of column `col` of sprite
        row `px`, drawn with the coordinates read from `V[x]` and `V[y]`. */
    method DrawPixel(x: nat, y: nat, row: nat, col: nat, px: byte,
                     ghost sprite: seq<byte>, ghost cur: Screen, ghost k: nat)
      returns (ghost next: Screen)
      requires Valid() && DrawArgs(cur, x, y) && Display() == cur
      requires col < 8 && k == row * 8 + col && row < |sprite| && px == sprite[row]
      requires DrawFrom(cur, x, y, sprite, k).Some?
      modifies v, gfx
      ensures PixelOk(cur, x, y, px, row, col) && next == PixelStep(cur, x, y, px, row, col)
      ensures Display() == next
      ensures DrawFrom(next, x, y, sprite, k + 1) == DrawFrom(cur, x, y, sprite, k)
    {
      assert k / 8 == row && k % 8 == col;
      next := PixelStep(cur, x, y, px, row, col);
      if SpriteBit(px, col) {
        if gfx[v[x] + col + (v[y] + row) * 64] == 1 {
          v[VF] := 1;
        }
        assert v[..] == TestCollision(cur, x, y, row, col);
        var j := v[x] + col + (v[y] + row) * 64;
        gfx[j] := Toggle(gfx[j]);
      }
    }

    /** Group E of `cpu_cycle`. */
    method ExecKey()
      requires Valid() && pc + 1 < MEMORY_SIZE && Group(opcode) == 0xE && DefinedOp(State())
      modifies this
      ensures Valid() && State() == Semantics.ExecKey(old(State())) && beeps == old(beeps)
    {
      var x := X(opcode);
      match Kk(opcode)
      case 0x9E =>
        if keys[v[x]] != 0 { pc := pc + 2; }
        pc := pc + 2;
      case 0xA1 =>
        if keys[v[x]] == 0 { pc := pc + 2; }
        pc := pc + 2;
      case _ =>
    }

    /** The key scan of `Fx0A`: the lowest pressed key, if any. */
    method FirstPressedKey() returns (found: bool, k: nat)
      requires Valid()
      ensures found ==> FirstPressed(keys[..], 0) == Some(k)
      ensures !found ==> FirstPressed(keys[..], 0) == None
    {
      var i := 0;
      while i < KEYS
        invariant 0 <= i <= KEYS
        invariant FirstPressed(keys[..], 0) == FirstPressed(keys[..], i)
      {
        if keys[i] != 0 {
          return true, i;
        }
        i := i + 1;
      }
      return false, 0;
    }

    /** Group F of `cpu_cycle`. */
    method ExecMisc()
      requires Valid() && pc + 1 < MEMORY_SIZE && Group(opcode) == 0xF && DefinedOp(State())
      modifies this, memory, v
      ensures Valid() && State() == Semantics.ExecMisc(old(State())) && beeps == old(beeps)
    {
      var x := X(opcode);
      match Kk(opcode)
      case 0x07 =>
        v[x] := delay;
        pc := pc + 2;
      case 0x0A =>
        var found, k := FirstPressedKey();
        if found {
          v[x] := k;
          pc := pc + 2;
        }
      case 0x15 =>
        delay := v[x];
        pc := pc + 2;
      case 0x18 =>
        sound := v[x];
        pc := pc + 2;
      case 0x1E =>
        index := Add32(index, v[x]);
        pc := pc + 2;
      case 0x29 =>
        index := v[x] as int * 5;
        pc := pc + 2;
      case 0x33 =>
        memory[index] := v[x] / 100;
        memory[index + 1] := (v[x] % 100) / 10;
        memory[index + 2] := v[x] % 10;
        pc := pc + 2;
      case 0x55 =>
        StoreRegisters();
        pc := pc + 2;
      case 0x65 =>
        LoadRegisters();
        pc := pc + 2;
      case _ =>
    }

    /** The copy loop of `Fx55`: `V0..VF` into `memory[index..index + 16]`. */
    method StoreRegisters()
      requires Valid() && index + REGISTERS <= MEMORY_SIZE
      modifies memory
      ensures memory[..] == old(memory[..index] + v[..] + memory[index + REGISTERS..])
    {
      ghost var m0 := memory[..];
      for i := 0 to REGISTERS
        invariant forall a :: 0 <= a < MEMORY_SIZE ==>
          memory[a] == if index <= a < index + i then v[a - index] else m0[a]
      {
        memory[i + index] := v[i];
      }
      ghost var want := m0[..index] + v[..] + m0[index + REGISTERS..];
      assert forall a :: 0 <= a < MEMORY_SIZE ==> memory[a] == want[a];
    }

    /** The copy loop of `Fx65`: `memory[index..index + 16]` into `V0..VF`. */
    method LoadRegisters()
      requires Valid() && index + REGISTERS <= MEMORY_SIZE
      modifies v
      ensures v[..] == memory[index..index + REGISTERS]
    {
      for i := 0 to REGISTERS
        invariant forall j :: 0 <= j < i ==> v[j] == memory[index + j]
      {
        v[i] := memory[i + index];
      }
    }
  }
}

/** Machine words, instruction decoding and the machine state of the CHIP-8 core
    (the globals of lib/cpu.h). */
module Machine {

  /** An `unsigned char`. */
  type byte = b: int | 0 <= b < 0x100
  /** An `unsigned short`. */
  type u16 = w: int | 0 <= w < 0x1_0000
  /** An `unsigned int`. */
  type u32 = w: int | 0 <= w < 0x1_0000_0000

  const MEMORY_SIZE := 4096
  const DISPLAY_SIZE := 2048
  const SCREEN_WIDTH := 64
  const REGISTERS := 16
  const STACK_DEPTH := 16
  const KEYS := 16
  const START_ADDRESS := 0x200
  /** Width in pixels of one sprite row (PIXEL_SIZE). */
  const SPRITE_WIDTH := 8
  /** Register VF, the carry/borrow/collision flag. */
  const VF := 0xF

  const FONT_SIZE := 80
  /** The built-in hexadecimal font: glyphs 0 to F, five rows each. */
  const FONT: seq<byte> := [
    0xF0, 0x90, 0x90, 0x90, 0xF0,  // 0
    0x20, 0x60, 0x20, 0x20, 0x70,  // 1
    0xF0, 0x10, 0xF0, 0x80, 0xF0,  // 2
    0xF0, 0x10, 0xF0, 0x10, 0xF0,  // 3
    0x90, 0x90, 0xF0, 0x10, 0x10,  // 4
    0xF0, 0x80, 0xF0, 0x10, 0xF0,  // 5
    0xF0, 0x80, 0xF0, 0x90, 0xF0,  // 6
    0xF0, 0x10, 0x20, 0x40, 0x40,  // 7
    0xF0, 0x90, 0xF0, 0x90, 0xF0,  // 8
    0xF0, 0x90, 0xF0, 0x10, 0xF0,  // 9
    0xF0, 0x90, 0xF0, 0x90, 0x90,  // A
    0xE0, 0x90, 0xE0, 0x90, 0xE0,  // B
    0xF0, 0x80, 0x80, 0x80, 0xF0,  // C
    0xE0, 0x90, 0x90, 0x90, 0xE0,  // D
    0xF0, 0x80, 0xF0, 0x80, 0xF0,  // E
    0xF0, 0x80, 0xF0, 0x80, 0x80   // F
  ]

  datatype Option<T> = None | Some(value: T)

  // ---------------------------------------------------------------------------
  // Machine arithmetic

  /** Assignment of an `int` to an `unsigned char`: reduction modulo 256. */
  function Trunc8(a: int): (r: byte)
    ensures (r - a) % 0x100 == 0
  {
    a % 0x100
  }

  /** `unsigned int` addition. */
  function Add32(a: u32, b: byte): (r: u32)
    ensures a + b < 0x1_0000_0000 ==> r == a + b
    ensures a + b >= 0x1_0000_0000 ==> r == a + b - 0x1_0000_0000
  {
    (a + b) % 0x1_0000_0000
  }

  /** `unsigned short` increment and decrement. */
  function Inc16(a: u16): (r: u16)
    ensures a < 0xFFFF ==> r == a + 1
    ensures a == 0xFFFF ==> r == 0
  {
    (a + 1) % 0x1_0000
  }

  function Dec16(a: u16): (r: u16)
    ensures 0 < a ==> r == a - 1
    ensures a == 0 ==> r == 0xFFFF
  {
    (a + 0xFFFF) % 0x1_0000
  }

  function BitOr(a: byte, b: byte): byte { ((a as bv8) | (b as bv8)) as int }
  function BitAnd(a: byte, b: byte): byte { ((a as bv8) & (b as bv8)) as int }
  function BitXor(a: byte, b: byte): byte { ((a as bv8) ^ (b as bv8)) as int }

  /** Whether column `col` of a sprite row is set, counting from the most
      significant bit: the test `(px & (0x80 >> col)) != 0`. */
  predicate SpriteBit(px: byte, col: nat)
    requires col < SPRITE_WIDTH
  {
    (px / Pow2(7 - col)) % 2 == 1
  }

  function Pow2(e: nat): (p: nat)
    ensures p >= 1
  {
    if e == 0 then 1 else 2 * Pow2(e - 1)
  }

  /** A display cell after `^= 1`: the low bit flips. */
  function Toggle(g: byte): (r: byte)
    ensures g == 0 ==> r == 1
    ensures g == 1 ==> r == 0
    ensures r / 2 == g / 2 && r % 2 != g % 2
  {
    if g % 2 == 0 then g + 1 else g - 1
  }

  // ---------------------------------------------------------------------------
  // Instruction words

  /** The big-endian word formed from two consecutive memory bytes. */
  function Word(hi: byte, lo: byte): (op: u16)
    ensures op / 0x100 == hi && op % 0x100 == lo
  {
    hi * 0x100 + lo
  }

  /** High nibble: the instruction family (`opcode & 0xF000`). */
  function Group(op: u16): (g: nat)
    ensures g < 16 && g * 0x1000 <= op < (g + 1) * 0x1000
  {
    op / 0x1000
  }

  /** Register operand `x` (`(opcode & 0x0F00) >> 8`). */
  function X(op: u16): (x: nat)
    ensures x < REGISTERS
  {
    (op / 0x100) % 16
  }

  /** Register operand `y` (`(opcode & 0x00F0) >> 4`). */
  function Y(op: u16): (y: nat)
    ensures y < REGISTERS
  {
    (op / 0x10) % 16
  }

  /** Low nibble (`opcode & 0x000F`). */
  function N(op: u16): (n: nat)
    ensures n < 16
  {
    op % 16
  }

  /** Low byte (`opcode & 0x00FF`). */
  function Kk(op: u16): (kk: byte)
  {
    op % 0x100
  }

  /** Low twelve bits, an address (`opcode & 0x0FFF`). */
  function Nnn(op: u16): (nnn: nat)
    ensures nnn < 0x1000
  {
    op % 0x1000
  }

  /** The nibbles of a word put back together. */
  function Assemble(g: nat, x: nat, y: nat, n: nat): (op: u16)
    requires g < 16 && x < 16 && y < 16 && n < 16
  {
    g * 0x1000 + x * 0x100 + y * 0x10 + n
  }

  /** Decoding splits a word into nibbles that reassemble it, and the byte and
      address operands are made of those nibbles. */
  lemma DecodeFields(op: u16)
    ensures Assemble(Group(op), X(op), Y(op), N(op)) == op
    ensures Kk(op) == Y(op) * 0x10 + N(op)
    ensures Nnn(op) == X(op) * 0x100 + Kk(op)
  {
    var hi, low := op / 0x100, op % 0x100;
    var g, x := hi / 0x10, hi % 0x10;
    var y, n := low / 0x10, low % 0x10;
    assert op == Assemble(g, x, y, n);
    AssembleDecodes(g, x, y, n);
    assert Kk(op) == low;
    var q := g * 0x10 + x;
    assert op == q * 0x100 + low;
    assert Nnn(op) == x * 0x100 + low;
  }

  /** Decoding recovers the nibbles a word was assembled from. */
  lemma AssembleDecodes(g: nat, x: nat, y: nat, n: nat)
    requires g < 16 && x < 16 && y < 16 && n < 16
    ensures var op := Assemble(g, x, y, n);
      Group(op) == g && X(op) == x && Y(op) == y && N(op) == n
  {
    var op := Assemble(g, x, y, n);
    assert op / 0x100 == g * 0x10 + x;
    assert op / 0x10 == g * 0x100 + x * 0x10 + y;
  }

  /** The decimal digits stored by `Fx33`: hundreds, tens, ones. */
  function Bcd(b: byte): (d: (byte, byte, byte))
    ensures d.0 <= 2 && d.1 <= 9 && d.2 <= 9
    ensures 100 * d.0 + 10 * d.1 + d.2 == b
  {
    (b / 100, (b % 100) / 10, b % 10)
  }

  // ---------------------------------------------------------------------------
  // Machine state

  /** The machine state: one field per global of lib/cpu.h. */
  datatype Machine = Machine(
    opcode: u16,          // the last fetched instruction word
    memory: seq<byte>,    // 4096 bytes
    v: seq<byte>,         // registers V0..VF
    index: u32,           // index_reg
    pc: u32,
    gfx: seq<byte>,       // 64 x 32 display, one byte per pixel, row-major
    delay: byte,          // delay_timer
    sound: byte,          // sound_timer
    stack: seq<u32>,      // 16 return addresses; a call from sp == 0 pushes to stack[1]
    sp: u16,
    keys: seq<byte>,      // key_board, nonzero = pressed
    drawFlag: byte,
    soundFlag: byte)

  /** Every array global has its declared size. */
  predicate WellFormed(m: Machine)
  {
    |m.memory| == MEMORY_SIZE && |m.v| == REGISTERS && |m.gfx| == DISPLAY_SIZE
    && |m.stack| == STACK_DEPTH && |m.keys| == KEYS
  }

  /** Every display cell is off (0) or on (1). */
  predicate DisplayBinary(gfx: seq<byte>)
  {
    forall i :: 0 <= i < |gfx| ==> gfx[i] == 0 || gfx[i] == 1
  }
}

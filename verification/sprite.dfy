/** The sprite loop of `Dxyn` (lib/cpu.h:303-321), one pixel at a time.

    The loop touches only the registers and the display, so it is stated on a
    `Screen` holding those two; the sprite rows it reads from memory are a
    parameter.  Pixel `k` of a sprite is row `k / 8`, column `k % 8`, in the
    order the nested loops visit them.  The coordinates are re-read from `V[x]`
    and `V[y]` at every pixel, as the source does, so when `x` or `y` is 0xF
    they follow VF as collisions set it. */
module Sprite {
  import opened Machine

  /** The registers and the display. */
  datatype Screen = Screen(v: seq<byte>, gfx: seq<byte>)

  /** The `n` sprite rows from `index` lie in memory.  The loop reads
      `memory[index + yline]` only for `yline < n`, so zero rows read nothing,
      wherever `index` points. */
  predicate RowsInMemory(memory: seq<byte>, index: int, n: nat)
  {
    n == 0 || (0 <= index && index + n <= |memory|)
  }

  /** The sprite rows a `Dxyn` reads: `n` bytes of memory from `index`. */
  function Rows(memory: seq<byte>, index: int, n: nat): (rows: seq<byte>)
    requires RowsInMemory(memory, index, n)
    ensures |rows| == n
    ensures forall row :: 0 <= row < n ==> rows[row] == memory[index + row]
  {
    if n == 0 then [] else memory[index..index + n]
  }

  predicate DrawArgs(s: Screen, x: nat, y: nat)
  {
    |s.v| == REGISTERS && |s.gfx| == DISPLAY_SIZE && x < REGISTERS && y < REGISTERS
  }

  /** Display index of sprite pixel (`row`, `col`) drawn at (`vx`, `vy`). */
  function Cell(vx: byte, vy: byte, row: nat, col: nat): nat
  {
    vx + col + (vy + row) * SCREEN_WIDTH
  }

  /** The registers after the collision test of pixel (`row`, `col`): VF is 1
      if the cell under it was on. */
  function TestCollision(s: Screen, x: nat, y: nat, row: nat, col: nat): (w: seq<byte>)
    requires DrawArgs(s, x, y) && Cell(s.v[x], s.v[y], row, col) < DISPLAY_SIZE
    ensures |w| == REGISTERS && forall j :: 0 <= j < VF ==> w[j] == s.v[j]
    ensures w[VF] == (if s.gfx[Cell(s.v[x], s.v[y], row, col)] == 1 then 1 else s.v[VF])
  {
    if s.gfx[Cell(s.v[x], s.v[y], row, col)] == 1 then s.v[VF := 1] else s.v
  }

  /** When bit `col` of sprite row `px` is set, both display indices pixel
      (`row`, `col`) computes (the one it tests and the one it toggles, after
      VF may have changed) lie inside the display. */
  predicate PixelOk(s: Screen, x: nat, y: nat, px: byte, row: nat, col: nat)
    requires DrawArgs(s, x, y) && col < SPRITE_WIDTH
  {
    SpriteBit(px, col) ==>
      Cell(s.v[x], s.v[y], row, col) < DISPLAY_SIZE
      && var w := TestCollision(s, x, y, row, col);
         Cell(w[x], w[y], row, col) < DISPLAY_SIZE
  }

  /** One iteration of the inner loop: under a set bit, test the cell and
      raise VF if it is on, then recompute the cell from the registers as
      they now are and toggle it. */
  function PixelStep(s: Screen, x: nat, y: nat, px: byte, row: nat, col: nat): (r: Screen)
    requires DrawArgs(s, x, y) && col < SPRITE_WIDTH && PixelOk(s, x, y, px, row, col)
    ensures DrawArgs(r, x, y)
    ensures forall j :: 0 <= j < VF ==> r.v[j] == s.v[j]
  {
    if SpriteBit(px, col) then
      var w := TestCollision(s, x, y, row, col);
      var j := Cell(w[x], w[y], row, col);
      Screen(w, s.gfx[j := Toggle(s.gfx[j])])
    else
      s
  }

  /** Pixels `k` onwards of the sprite with rows `sprite`, drawn from `s`;
      None when one of them would index outside the display. */
  function DrawFrom(s: Screen, x: nat, y: nat, sprite: seq<byte>, k: nat): (r: Option<Screen>)
    requires DrawArgs(s, x, y) && k <= |sprite| * 8
    ensures r.Some? ==> DrawArgs(r.value, x, y)
    ensures r.Some? ==> forall j :: 0 <= j < VF ==> r.value.v[j] == s.v[j]
    decreases |sprite| * 8 - k
  {
    if k == |sprite| * 8 then Some(s)
    else if !PixelOk(s, x, y, sprite[k / 8], k / 8, k % 8) then None
    else DrawFrom(PixelStep(s, x, y, sprite[k / 8], k / 8, k % 8), x, y, sprite, k + 1)
  }

  /** The whole sprite with rows `sprite` drawn from `s`: V0..VE are kept,
      and a sprite of no rows changes nothing. */
  function Draw(s: Screen, x: nat, y: nat, sprite: seq<byte>): (r: Option<Screen>)
    requires DrawArgs(s, x, y)
    ensures r.Some? ==> DrawArgs(r.value, x, y)
    ensures r.Some? ==> forall j :: 0 <= j < VF ==> r.value.v[j] == s.v[j]
    ensures |sprite| == 0 ==> r == Some(s)
  {
    DrawFrom(s, x, y, sprite, 0)
  }
}

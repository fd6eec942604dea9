/** What the sprite loop of `Dxyn` does when neither coordinate register is
    VF: the coordinates then stay put for the whole sprite, and the loop
    toggles exactly the cells under set sprite bits, each once, and sets VF
    exactly when one of them was on. */
module Drawing {
  import opened Machine
  import opened Sprite

  /** Display cell `i` lies under a set bit among pixels `from` onwards of
      the sprite with rows `sprite` drawn at (`vx`, `vy`).  A sprite pixel
      (`row`, `col`) sits at offset `row * 64 + col` from the sprite origin,
      and `col < 8` makes that offset determine the pixel. */
  predicate Covered(vx: byte, vy: byte, sprite: seq<byte>, from: nat, i: int)
  {
    var d := i - vx - vy * 64;
    0 <= d && d % 64 < 8 && d / 64 < |sprite| && from <= (d / 64) * 8 + d % 64
    && SpriteBit(sprite[d / 64], d % 64)
  }

  /** Every covered cell lies inside the display. */
  ghost predicate InRange(vx: byte, vy: byte, sprite: seq<byte>, from: nat)
  {
    forall i :: Covered(vx, vy, sprite, from, i) ==> 0 <= i < DISPLAY_SIZE
  }

  /** Some covered cell is on. */
  predicate Collides(vx: byte, vy: byte, sprite: seq<byte>, from: nat, gfx: seq<byte>)
  {
    exists i :: 0 <= i < |gfx| && Covered(vx, vy, sprite, from, i) && gfx[i] == 1
  }

  /** The covered cells of pixels `from` onwards are those of pixels
      `from + 1` onwards plus the cell of pixel `from` when its bit is set;
      the cell of pixel `from` is not covered again later. */
  lemma CoveredStep(vx: byte, vy: byte, sprite: seq<byte>, from: nat, i: int)
    requires from < |sprite| * 8
    ensures var row, col := from / 8, from % 8;
      && !Covered(vx, vy, sprite, from + 1, Cell(vx, vy, row, col))
      && (Covered(vx, vy, sprite, from, i) <==>
            Covered(vx, vy, sprite, from + 1, i)
            || (i == Cell(vx, vy, row, col) && SpriteBit(sprite[row], col)))
  {
    var row, col := from / 8, from % 8;
    var c := Cell(vx, vy, row, col);
    assert c - vx - vy * 64 == row * 64 + col;
    assert (row * 64 + col) / 64 == row && (row * 64 + col) % 64 == col;
    var d := i - vx - vy * 64;
    if 0 <= d && d % 64 < 8 && d / 64 < |sprite| {
      assert d == (d / 64) * 64 + d % 64;
      if (d / 64) * 8 + d % 64 == from {
        assert d / 64 == row && d % 64 == col;
      }
    }
  }

  /** Drawing pixels `from` onwards from `s` is possible exactly when every
      covered cell is on the display; the result toggles exactly the covered
      cells and raises VF exactly when a covered cell was on, leaving the
      other registers alone. */
  ghost predicate DrawsCovered(s: Screen, x: nat, y: nat, sprite: seq<byte>, from: nat)
    requires DrawArgs(s, x, y) && from <= |sprite| * 8
  {
    var vx, vy := s.v[x], s.v[y];
    && (DrawFrom(s, x, y, sprite, from).Some? <==> InRange(vx, vy, sprite, from))
    && (DrawFrom(s, x, y, sprite, from).Some? ==>
         var r := DrawFrom(s, x, y, sprite, from).value;
         && r.v == s.v[VF := if Collides(vx, vy, sprite, from, s.gfx) then 1 else s.v[VF]]
         && forall i :: 0 <= i < DISPLAY_SIZE ==>
              r.gfx[i] == if Covered(vx, vy, sprite, from, i) then Toggle(s.gfx[i]) else s.gfx[i])
  }

  /** With the coordinate registers other than VF, the sprite loop draws
      exactly the covered cells. */
  lemma {:induction false} DrawFromFixed(s: Screen, x: nat, y: nat, sprite: seq<byte>, from: nat)
    requires DrawArgs(s, x, y) && x != VF && y != VF && from <= |sprite| * 8
    ensures DrawsCovered(s, x, y, sprite, from)
    decreases |sprite| * 8 - from
  {
    var vx, vy := s.v[x], s.v[y];
    if from == |sprite| * 8 {
      assert forall i :: !Covered(vx, vy, sprite, from, i);
      assert !Collides(vx, vy, sprite, from, s.gfx);
      assert s.v[VF := s.v[VF]] == s.v;
    } else {
      var row, col := from / 8, from % 8;
      if !SpriteBit(sprite[row], col) {
        DrawFromFixed(s, x, y, sprite, from + 1);
        ClearPixel(s, x, y, sprite, from);
      } else if Cell(vx, vy, row, col) >= DISPLAY_SIZE {
        CoveredStep(vx, vy, sprite, from, Cell(vx, vy, row, col));
      } else {
        var s1 := PixelStep(s, x, y, sprite[row], row, col);
        DrawFromFixed(s1, x, y, sprite, from + 1);
        SetPixel(s, x, y, sprite, from);
      }
    }
  }

  /** A clear pixel changes nothing. */
  lemma ClearPixel(s: Screen, x: nat, y: nat, sprite: seq<byte>, from: nat)
    requires DrawArgs(s, x, y) && from < |sprite| * 8
    requires !SpriteBit(sprite[from / 8], from % 8)
    requires DrawsCovered(s, x, y, sprite, from + 1)
    ensures DrawsCovered(s, x, y, sprite, from)
  {
    var vx, vy := s.v[x], s.v[y];
    var row, col := from / 8, from % 8;
    forall i
      ensures Covered(vx, vy, sprite, from, i) <==> Covered(vx, vy, sprite, from + 1, i)
    {
      CoveredStep(vx, vy, sprite, from, i);
    }
    assert PixelStep(s, x, y, sprite[row], row, col) == s;
    InRangeStep(vx, vy, sprite, from);
    assert Collides(vx, vy, sprite, from, s.gfx) <==> Collides(vx, vy, sprite, from + 1, s.gfx);
  }

  /** A set pixel whose cell is on the display toggles that cell and, if it
      was on, raises VF; the coordinates stay put. */
  lemma SetPixel(s: Screen, x: nat, y: nat, sprite: seq<byte>, from: nat)
    requires DrawArgs(s, x, y) && x != VF && y != VF && from < |sprite| * 8
    requires SpriteBit(sprite[from / 8], from % 8)
    requires Cell(s.v[x], s.v[y], from / 8, from % 8) < DISPLAY_SIZE
    requires PixelOk(s, x, y, sprite[from / 8], from / 8, from % 8)
    requires DrawsCovered(PixelStep(s, x, y, sprite[from / 8], from / 8, from % 8), x, y, sprite, from + 1)
    ensures DrawsCovered(s, x, y, sprite, from)
  {
    var vx, vy := s.v[x], s.v[y];
    var row, col := from / 8, from % 8;
    var c := Cell(vx, vy, row, col);
    forall i
      ensures Covered(vx, vy, sprite, from, i) <==> Covered(vx, vy, sprite, from + 1, i) || i == c
    {
      CoveredStep(vx, vy, sprite, from, i);
    }
    CoveredStep(vx, vy, sprite, from, c);
    var w := TestCollision(s, x, y, row, col);
    var s1 := PixelStep(s, x, y, sprite[row], row, col);
    assert s1 == Screen(w, s.gfx[c := Toggle(s.gfx[c])]);
    assert s1.v[x] == vx && s1.v[y] == vy;
    InRangeStep(vx, vy, sprite, from);
    CollidesStep(vx, vy, sprite, from, s.gfx, c);
  }

  /** The covered cells of pixels `from` onwards are on the display exactly
      when those of the later pixels are and pixel `from`, if set, is. */
  lemma InRangeStep(vx: byte, vy: byte, sprite: seq<byte>, from: nat)
    requires from < |sprite| * 8
    ensures InRange(vx, vy, sprite, from) <==>
      && InRange(vx, vy, sprite, from + 1)
      && (SpriteBit(sprite[from / 8], from % 8) ==> Cell(vx, vy, from / 8, from % 8) < DISPLAY_SIZE)
  {
    var c := Cell(vx, vy, from / 8, from % 8);
    var bit := SpriteBit(sprite[from / 8], from % 8);
    var later := from + 1;
    if InRange(vx, vy, sprite, from) {
      forall i | Covered(vx, vy, sprite, later, i)
        ensures 0 <= i < DISPLAY_SIZE
      {
        CoveredStep(vx, vy, sprite, from, i);
      }
      if bit {
        CoveredStep(vx, vy, sprite, from, c);
      }
    }
    if InRange(vx, vy, sprite, from + 1) && (bit ==> c < DISPLAY_SIZE) {
      forall i | Covered(vx, vy, sprite, from, i)
        ensures 0 <= i < DISPLAY_SIZE
      {
        CoveredStep(vx, vy, sprite, from, i);
      }
    }
  }

  /** Collision over pixels `from` onwards, when pixel `from` is set and lands
      on cell `c`: cell `c` was on, or a later covered cell is on; toggling
      `c` does not change the later question. */
  lemma CollidesStep(vx: byte, vy: byte, sprite: seq<byte>, from: nat, gfx: seq<byte>, c: nat)
    requires from < |sprite| * 8 && c < |gfx|
    requires c == Cell(vx, vy, from / 8, from % 8) && SpriteBit(sprite[from / 8], from % 8)
    ensures Collides(vx, vy, sprite, from, gfx) <==> gfx[c] == 1 || Collides(vx, vy, sprite, from + 1, gfx)
    ensures Collides(vx, vy, sprite, from + 1, gfx[c := Toggle(gfx[c])]) <==> Collides(vx, vy, sprite, from + 1, gfx)
  {
    forall i
      ensures Covered(vx, vy, sprite, from, i) <==> Covered(vx, vy, sprite, from + 1, i) || i == c
    {
      CoveredStep(vx, vy, sprite, from, i);
    }
    CoveredStep(vx, vy, sprite, from, c);
    if gfx[c] == 1 {
      assert Covered(vx, vy, sprite, from, c);
    }
    var g := gfx[c := Toggle(gfx[c])];
    if Collides(vx, vy, sprite, from + 1, gfx) {
      var i :| 0 <= i < |gfx| && Covered(vx, vy, sprite, from + 1, i) && gfx[i] == 1;
      assert g[i] == 1;
    }
    if Collides(vx, vy, sprite, from + 1, g) {
      var i :| 0 <= i < |g| && Covered(vx, vy, sprite, from + 1, i) && g[i] == 1;
      assert gfx[i] == 1;
    }
  }

  /** Drawing pixels `from` onwards keeps every display cell 0 or 1, whatever
      the coordinate registers. */
  lemma {:induction false} DrawFromBinary(s: Screen, x: nat, y: nat, sprite: seq<byte>, from: nat)
    requires DrawArgs(s, x, y) && from <= |sprite| * 8 && DisplayBinary(s.gfx)
    requires DrawFrom(s, x, y, sprite, from).Some?
    ensures DisplayBinary(DrawFrom(s, x, y, sprite, from).value.gfx)
    decreases |sprite| * 8 - from
  {
    if from < |sprite| * 8 {
      var s1 := PixelStep(s, x, y, sprite[from / 8], from / 8, from % 8);
      assert DisplayBinary(s1.gfx);
      DrawFromBinary(s1, x, y, sprite, from + 1);
    }
  }
}

/** What Display.Draw does, stated without reference to the order in which it visits
    sprite bits: a closed form for sprites of at most 32 rows, and its consequences. */
module DisplayProofs {
  import opened Bytes
  import opened Display

  /** Horizontal distance, wrapping around, from the sprite's left edge x to the column of pixel k. */
  function Dx(x: nat, k: nat): (dx: nat)
    ensures dx < Width
  {
    (k % Width - x) % Width
  }

  /** Vertical distance, wrapping around, from the sprite's top edge y to the row of pixel k. */
  function Dy(y: nat, k: nat): (dy: nat)
    ensures dy < Height
  {
    (k / Width - y) % Height
  }

  /** Pixel k lies under a set bit of `sprite` drawn at (x, y). For a sprite of at most 32 rows
      every pixel lies under at most one sprite bit, found from its wrapped offsets. */
  predicate Hit(x: nat, y: nat, sprite: seq<byte>, k: nat)
  {
    Dx(x, k) < 8 && Dy(y, k) < |sprite| && Bit(sprite[Dy(y, k)], Dx(x, k)) == 1
  }

  /** Pixel k lies under a set bit that Draw visits before bit i of row j. */
  predicate HitBefore(x: nat, y: nat, sprite: seq<byte>, k: nat, j: nat, i: nat)
  {
    Hit(x, y, sprite, k) && (Dy(y, k) < j || (Dy(y, k) == j && Dx(x, k) < i))
  }

  /** Frame f is what drawing the bits before (j, i) over px leaves: exactly the pixels under
      those bits are flipped, and a collision is recorded iff one of them was lit in px. */
  ghost predicate DrawnBefore(px: seq<byte>, x: nat, y: nat, sprite: seq<byte>, f: Frame, j: nat, i: nat)
  {
    |px| == PixelCount && |f.pixels| == PixelCount &&
    (forall k :: 0 <= k < PixelCount ==>
       f.pixels[k] == if HitBefore(x, y, sprite, k, j, i) then Flip(px[k]) else px[k]) &&
    (f.collision <==> exists k :: 0 <= k < PixelCount && HitBefore(x, y, sprite, k, j, i) && px[k] == 1)
  }

  /** Bit i of row j lands on pixel k exactly when k's wrapped offsets from (x, y) are (i, j). */
  lemma TargetOffsets(x: nat, y: nat, j: nat, i: nat, k: nat)
    requires i < Width && j < Height && k < PixelCount
    ensures k == Target(x, y, j, i) <==> Dx(x, k) == i && Dy(y, k) == j
  {
    TargetHasOffsets(x, y, j, i);
    OffsetsLocate(x, y, k);
  }

  /** The target of bit i of row j has wrapped offsets (i, j). */
  lemma TargetHasOffsets(x: nat, y: nat, j: nat, i: nat)
    requires i < Width && j < Height
    ensures Dx(x, Target(x, y, j, i)) == i && Dy(y, Target(x, y, j, i)) == j
  {
    var t := Target(x, y, j, i);
    var qx, qy := (x + i) / Width, (y + j) / Height;
    assert (x + i) % Width == x + i - Width * qx;
    assert (y + j) % Height == y + j - Height * qy;
    assert t % Width - x == i - Width * qx;
    assert t / Width - y == j - Height * qy;
  }

  /** Every pixel is the target of the bit at its own wrapped offsets. */
  lemma OffsetsLocate(x: nat, y: nat, k: nat)
    requires k < PixelCount
    ensures k == Target(x, y, Dy(y, k), Dx(x, k))
  {
    var kx, ky := k % Width, k / Width;
    var i, j := Dx(x, k), Dy(y, k);
    var rx, ry := (kx - x) / Width, (ky - y) / Height;
    assert kx - x == i + Width * rx;
    assert ky - y == j + Height * ry;
    assert kx == (x + i) % Width;
    assert ky == (y + j) % Height;
    assert k == kx + Width * ky;
  }

  /** Drawing one more bit extends the closed form by that bit. */
  lemma PlotBitClosed(px: seq<byte>, x: nat, y: nat, sprite: seq<byte>, f: Frame, j: nat, i: nat)
    requires |sprite| <= Height && j < |sprite| && i < 8
    requires DrawnBefore(px, x, y, sprite, f, j, i)
    ensures DrawnBefore(px, x, y, sprite, PlotBit(f, x, y, sprite, j, i), j, i + 1)
  {
    var r := PlotBit(f, x, y, sprite, j, i);
    forall k | 0 <= k < PixelCount
      ensures HitBefore(x, y, sprite, k, j, i + 1)
              <==> HitBefore(x, y, sprite, k, j, i) || (Bit(sprite[j], i) == 1 && k == Target(x, y, j, i))
    {
      TargetOffsets(x, y, j, i, k);
    }
    if Bit(sprite[j], i) == 1 {
      var t := Target(x, y, j, i);
      TargetOffsets(x, y, j, i, t);
      assert !HitBefore(x, y, sprite, t, j, i);
      assert f.pixels[t] == px[t];
      if r.collision {
        if !f.collision {
          assert HitBefore(x, y, sprite, t, j, i + 1) && px[t] == 1;
        }
      }
    }
  }

  /** Drawing bits 0..i-1 of row j extends the closed form by those bits. */
  lemma {:induction false} RowPrefixClosed(px: seq<byte>, x: nat, y: nat, sprite: seq<byte>, f: Frame, j: nat, i: nat)
    requires |sprite| <= Height && j < |sprite| && i <= 8
    requires DrawnBefore(px, x, y, sprite, f, j, 0)
    ensures DrawnBefore(px, x, y, sprite, DrawRowPrefix(f, x, y, sprite, j, i), j, i)
    decreases i
  {
    if i > 0 {
      RowPrefixClosed(px, x, y, sprite, f, j, i - 1);
      PlotBitClosed(px, x, y, sprite, DrawRowPrefix(f, x, y, sprite, j, i - 1), j, i - 1);
    }
  }

  /** Drawing rows 0..j-1 flips exactly the pixels under their set bits. */
  lemma {:induction false} PrefixClosed(px: seq<byte>, x: nat, y: nat, sprite: seq<byte>, j: nat)
    requires |px| == PixelCount && |sprite| <= Height && j <= |sprite|
    ensures DrawnBefore(px, x, y, sprite, DrawPrefix(px, x, y, sprite, j), j, 0)
    decreases j
  {
    if j > 0 {
      var f := DrawPrefix(px, x, y, sprite, j - 1);
      PrefixClosed(px, x, y, sprite, j - 1);
      RowPrefixClosed(px, x, y, sprite, f, j - 1, 8);
      var r := DrawRowPrefix(f, x, y, sprite, j - 1, 8);
      forall k | 0 <= k < PixelCount
        ensures HitBefore(x, y, sprite, k, j - 1, 8) <==> HitBefore(x, y, sprite, k, j, 0)
      {
      }
    }
  }

  /** The effect of Draw for a sprite of at most 32 rows: exactly the pixels under set sprite
      bits are flipped, every other pixel is unchanged, and a collision is reported iff one of
      the flipped pixels was lit before the draw. */
  lemma DrawEffect(px: seq<byte>, x: nat, y: nat, sprite: seq<byte>)
    requires |px| == PixelCount && |sprite| <= Height
    ensures forall k :: 0 <= k < PixelCount ==>
              DrawSprite(px, x, y, sprite).pixels[k] == if Hit(x, y, sprite, k) then Flip(px[k]) else px[k]
    ensures DrawSprite(px, x, y, sprite).collision
            <==> exists k :: 0 <= k < PixelCount && Hit(x, y, sprite, k) && px[k] == 1
  {
    PrefixClosed(px, x, y, sprite, |sprite|);
  }

  /** The pixels under set sprite bits are exactly the wrapped targets
      ((x + i) mod 64, (y + j) mod 32) of the set bits i of rows j. */
  lemma HitIsTarget(x: nat, y: nat, sprite: seq<byte>, k: nat)
    requires |sprite| <= Height && k < PixelCount
    ensures Hit(x, y, sprite, k)
            <==> exists j, i :: 0 <= j < |sprite| && 0 <= i < 8 && Bit(sprite[j], i) == 1 && k == Target(x, y, j, i)
  {
    if Hit(x, y, sprite, k) {
      TargetOffsets(x, y, Dy(y, k), Dx(x, k), k);
    }
    forall j, i | 0 <= j < |sprite| && 0 <= i < 8 && Bit(sprite[j], i) == 1 && k == Target(x, y, j, i)
      ensures Hit(x, y, sprite, k)
    {
      TargetOffsets(x, y, j, i, k);
    }
  }

  /** The collision flag, in terms of sprite bits: some set bit's target pixel was lit. */
  lemma DrawCollision(px: seq<byte>, x: nat, y: nat, sprite: seq<byte>)
    requires |px| == PixelCount && |sprite| <= Height
    ensures DrawSprite(px, x, y, sprite).collision
            <==> exists j, i :: 0 <= j < |sprite| && 0 <= i < 8 && Bit(sprite[j], i) == 1 && px[Target(x, y, j, i)] == 1
  {
    DrawEffect(px, x, y, sprite);
    if DrawSprite(px, x, y, sprite).collision {
      var k :| 0 <= k < PixelCount && Hit(x, y, sprite, k) && px[k] == 1;
      HitIsTarget(x, y, sprite, k);
    }
    forall j, i | 0 <= j < |sprite| && 0 <= i < 8 && Bit(sprite[j], i) == 1 && px[Target(x, y, j, i)] == 1
      ensures DrawSprite(px, x, y, sprite).collision
    {
      HitIsTarget(x, y, sprite, Target(x, y, j, i));
    }
  }

  /** Drawing on a cleared screen never reports a collision. */
  lemma DrawOnBlankNeverCollides(x: nat, y: nat, sprite: seq<byte>)
    requires |sprite| <= Height
    ensures !DrawSprite(Blank(), x, y, sprite).collision
  {
    DrawEffect(Blank(), x, y, sprite);
  }

  /** A sprite with no set bit, of any height, changes nothing and reports no collision. */
  lemma {:induction false} DrawEmptySprite(px: seq<byte>, x: nat, y: nat, sprite: seq<byte>)
    requires |px| == PixelCount
    requires forall j :: 0 <= j < |sprite| ==> sprite[j] == 0
    ensures DrawSprite(px, x, y, sprite) == Frame(px, false)
  {
    EmptyPrefix(px, x, y, sprite, |sprite|);
  }

  lemma {:induction false} EmptyPrefix(px: seq<byte>, x: nat, y: nat, sprite: seq<byte>, j: nat)
    requires |px| == PixelCount && j <= |sprite|
    requires forall r :: 0 <= r < |sprite| ==> sprite[r] == 0
    ensures DrawPrefix(px, x, y, sprite, j) == Frame(px, false)
    decreases j
  {
    if j > 0 {
      EmptyPrefix(px, x, y, sprite, j - 1);
      EmptyRow(Frame(px, false), x, y, sprite, j - 1, 8);
    }
  }

  lemma {:induction false} EmptyRow(f: Frame, x: nat, y: nat, sprite: seq<byte>, j: nat, i: nat)
    requires |f.pixels| == PixelCount && j < |sprite| && i <= 8 && sprite[j] == 0
    ensures DrawRowPrefix(f, x, y, sprite, j, i) == f
    decreases i
  {
    if i > 0 {
      EmptyRow(f, x, y, sprite, j, i - 1);
    }
  }

  /** Draw keeps a framebuffer of 0/1 values a framebuffer of 0/1 values. */
  lemma DrawKeepsBinary(px: seq<byte>, x: nat, y: nat, sprite: seq<byte>)
    requires |px| == PixelCount && Binary(px) && |sprite| <= Height
    ensures Binary(DrawSprite(px, x, y, sprite).pixels)
  {
    DrawEffect(px, x, y, sprite);
  }

  /** Drawing the same sprite (at most 32 rows) twice at the same place over a 0/1 framebuffer
      restores it; the second draw reports a collision iff the first one lit some pixel. */
  lemma DrawTwiceRestores(px: seq<byte>, x: nat, y: nat, sprite: seq<byte>)
    requires |px| == PixelCount && Binary(px) && |sprite| <= Height
    ensures DrawSprite(DrawSprite(px, x, y, sprite).pixels, x, y, sprite).pixels == px
    ensures DrawSprite(DrawSprite(px, x, y, sprite).pixels, x, y, sprite).collision
            <==> exists k :: 0 <= k < PixelCount && px[k] == 0 && DrawSprite(px, x, y, sprite).pixels[k] == 1
  {
    var first := DrawSprite(px, x, y, sprite);
    var second := DrawSprite(first.pixels, x, y, sprite);
    DrawEffect(px, x, y, sprite);
    DrawEffect(first.pixels, x, y, sprite);
    assert forall k :: 0 <= k < PixelCount ==> second.pixels[k] == px[k];
    if second.collision {
      var k :| 0 <= k < PixelCount && Hit(x, y, sprite, k) && first.pixels[k] == 1;
      assert px[k] == 0;
    }
  }

  /** On a blank screen the second of two identical draws collides iff the sprite has a set bit. */
  lemma DrawTwiceOnBlank(x: nat, y: nat, sprite: seq<byte>)
    requires |sprite| <= Height
    ensures DrawSprite(DrawSprite(Blank(), x, y, sprite).pixels, x, y, sprite).collision
            <==> exists j, i :: 0 <= j < |sprite| && 0 <= i < 8 && Bit(sprite[j], i) == 1
  {
    var first := DrawSprite(Blank(), x, y, sprite);
    DrawTwiceRestores(Blank(), x, y, sprite);
    DrawEffect(Blank(), x, y, sprite);
    if exists j, i :: 0 <= j < |sprite| && 0 <= i < 8 && Bit(sprite[j], i) == 1 {
      var j, i :| 0 <= j < |sprite| && 0 <= i < 8 && Bit(sprite[j], i) == 1;
      var t := Target(x, y, j, i);
      HitIsTarget(x, y, sprite, t);
      assert first.pixels[t] == 1;
    }
    forall k | 0 <= k < PixelCount && first.pixels[k] == 1
      ensures exists j, i :: 0 <= j < |sprite| && 0 <= i < 8 && Bit(sprite[j], i) == 1
    {
      HitIsTarget(x, y, sprite, k);
    }
  }
}

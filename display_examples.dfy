/** The display's unit-test scenarios: the framebuffer functions evaluated on the sprites the
    scenarios use, and the same scenarios replayed on a fresh Display object. */
module DisplayExamples {
  import opened Bytes
  import opened Display
  import opened DisplayProofs

  /** A sprite drawn at the origin covers pixel k exactly when k's column is below 8, its row
      is a sprite row, and the matching sprite bit is set. */
  lemma HitAtOrigin(sprite: seq<byte>, k: nat)
    requires |sprite| <= Height && k < PixelCount
    ensures Hit(0, 0, sprite, k)
            <==> k % Width < 8 && k / Width < |sprite| && Bit(sprite[k / Width], k % Width) == 1
  {
    assert Dx(0, k) == k % Width;
    assert Dy(0, k) == k / Width;
  }

  /** The eight bits of a sprite row, leftmost first. */
  function RowBits(r: byte): (bits: seq<byte>)
    ensures |bits| == 8 && forall i :: 0 <= i < 8 ==> bits[i] <= 1
  {
    [Bit(r, 0), Bit(r, 1), Bit(r, 2), Bit(r, 3), Bit(r, 4), Bit(r, 5), Bit(r, 6), Bit(r, 7)]
  }

  /** On a cleared screen, a sprite drawn at the origin leaves pixel (i, j) equal to bit i of
      row j. */
  lemma PixelAtOrigin(sprite: seq<byte>, j: nat, i: nat)
    requires |sprite| <= Height && j < |sprite| && i < 8
    ensures DrawSprite(Blank(), 0, 0, sprite).pixels[j * Width + i] == RowBits(sprite[j])[i]
  {
    var k := j * Width + i;
    DrawEffect(Blank(), 0, 0, sprite);
    HitAtOrigin(sprite, k);
    assert k % Width == i && k / Width == j;
  }

  /** Row 0x33 is 0011 0011. */
  lemma Row33Bits()
    ensures RowBits(0x33) == [0, 0, 1, 1, 0, 0, 1, 1]
  {
  }

  /** Row 0xCA is 1100 1010. */
  lemma RowCABits()
    ensures RowBits(0xCA) == [1, 1, 0, 0, 1, 0, 1, 0]
  {
  }

  /** Rows 0x30 and 0x03 have no set bit in common; bit 7 is set in 0x03 and 0x01, not in 0x30. */
  lemma CollisionRowBits(i: nat)
    requires i < 8
    ensures Bit(0x03, i) == 1 ==> Bit(0x30, i) == 0
    ensures Bit(0x30, 7) == 0 && Bit(0x03, 7) == 1 && Bit(0x01, 7) == 1
  {
  }

  /** On a cleared screen, a sprite drawn at the origin shows row j as the first eight pixels of
      screen row j. */
  lemma RowAtOrigin(sprite: seq<byte>, j: nat)
    requires |sprite| <= Height && j < |sprite|
    ensures DrawSprite(Blank(), 0, 0, sprite).pixels[j * Width .. j * Width + 8] == RowBits(sprite[j])
  {
    var f := DrawSprite(Blank(), 0, 0, sprite);
    forall i | 0 <= i < 8
      ensures f.pixels[j * Width + i] == RowBits(sprite[j])[i]
    {
      PixelAtOrigin(sprite, j, i);
    }
  }

  /** Sprite rows 0x33 and 0xCA drawn at (0, 0) on a cleared screen light the bit patterns
      0011 0011 and 1100 1010 at the start of the first two screen rows, with no collision. */
  lemma DrawRowsExample(sprite: seq<byte>)
    requires sprite == [0x33, 0xCA]
    ensures var f := DrawSprite(Blank(), 0, 0, sprite);
            f.pixels[0 .. 8] == [0, 0, 1, 1, 0, 0, 1, 1] &&
            f.pixels[Width .. Width + 8] == [1, 1, 0, 0, 1, 0, 1, 0] &&
            !f.collision
  {
    RowAtOrigin(sprite, 0);
    RowAtOrigin(sprite, 1);
    Row33Bits();
    RowCABits();
    DrawOnBlankNeverCollides(0, 0, sprite);
  }

  /** Every pixel under a set bit of 0x03 is still dark after 0x30 is drawn. */
  lemma DarkUnderSecond(s1: seq<byte>, s2: seq<byte>, k: nat)
    requires s1 == [0x30] && s2 == [0x03] && k < PixelCount && Hit(0, 0, s2, k)
    ensures DrawSprite(Blank(), 0, 0, s1).pixels[k] == 0
  {
    HitAtOrigin(s2, k);
    CollisionRowBits(k);
    PixelAtOrigin(s1, 0, k);
  }

  /** After 0x30 is drawn at the origin on a cleared screen, drawing 0x03 there reports no
      collision and lights pixel 7. */
  lemma SecondDrawExample(s1: seq<byte>, s2: seq<byte>)
    requires s1 == [0x30] && s2 == [0x03]
    ensures var b := DrawSprite(DrawSprite(Blank(), 0, 0, s1).pixels, 0, 0, s2);
            !b.collision && b.pixels[7] == 1
  {
    var a := DrawSprite(Blank(), 0, 0, s1);
    var b := DrawSprite(a.pixels, 0, 0, s2);
    forall k | 0 <= k < PixelCount && Hit(0, 0, s2, k)
      ensures a.pixels[k] == 0
    {
      DarkUnderSecond(s1, s2, k);
    }
    assert !b.collision by {
      DrawEffect(a.pixels, 0, 0, s2);
    }
    assert b.pixels[7] == 1 by {
      HitAtOrigin(s2, 7);
      CollisionRowBits(7);
      PixelAtOrigin(s1, 0, 7);
      DrawEffect(a.pixels, 0, 0, s2);
    }
  }

  /** Drawing 0x30, then 0x03, then 0x01 at (0, 0) on a cleared screen: the first two touch
      disjoint pixels and report no collision, the third lands on a lit pixel and reports one. */
  lemma CollisionExample(s1: seq<byte>, s2: seq<byte>, s3: seq<byte>)
    requires s1 == [0x30] && s2 == [0x03] && s3 == [0x01]
    ensures var a := DrawSprite(Blank(), 0, 0, s1);
            var b := DrawSprite(a.pixels, 0, 0, s2);
            var c := DrawSprite(b.pixels, 0, 0, s3);
            !a.collision && !b.collision && c.collision
  {
    var b := DrawSprite(DrawSprite(Blank(), 0, 0, s1).pixels, 0, 0, s2);
    DrawOnBlankNeverCollides(0, 0, s1);
    SecondDrawExample(s1, s2);
    DrawEffect(b.pixels, 0, 0, s3);
    HitAtOrigin(s3, 7);
    CollisionRowBits(7);
  }

  /** A fresh display, after SetPixel(1, 1, 1), reads 1 at (1, 1); after Reset it reads 0. */
  method SetAndClearScenario() returns (afterSet: byte, afterClear: byte)
    ensures afterSet == 1 && afterClear == 0
  {
    var d := new Display();
    d.SetPixel(1, 1, 1);
    afterSet := d.GetPixelAt(1, 1);
    d.Reset();
    afterClear := d.GetPixelAt(1, 1);
  }

  /** Draw on a fresh display: the two sprite rows appear at the top left, unchanged. */
  method DrawScenario() returns (row0: seq<byte>, row1: seq<byte>, collision: bool)
    ensures row0 == [0, 0, 1, 1, 0, 0, 1, 1] && row1 == [1, 1, 0, 0, 1, 0, 1, 0] && !collision
  {
    var d := new Display();
    collision := d.Draw(0, 0, [0x33, 0xCA]);
    DrawRowsExample([0x33, 0xCA]);
    row0 := d.pixels[0 .. 8];
    row1 := d.pixels[Width .. Width + 8];
  }

  /** Three successive Draws on one fresh display report no collision, no collision, collision. */
  method CollisionScenario() returns (first: bool, second: bool, third: bool)
    ensures !first && !second && third
  {
    var d := new Display();
    first := d.Draw(0, 0, [0x30]);
    second := d.Draw(0, 0, [0x03]);
    third := d.Draw(0, 0, [0x01]);
    CollisionExample([0x30], [0x03], [0x01]);
  }
}

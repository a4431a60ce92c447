/** The 64x32 monochrome framebuffer and its XOR sprite drawing. */
module Display {
  import opened Bytes

  const Width := 64
  const Height := 32
  const PixelCount := 2048

  /** The built-in hexadecimal font: glyphs 0..F, five rows of four pixels each. */
  const Fonts: seq<byte> := [
    0xF0, 0x90, 0x90, 0x90, 0xF0, // 0
    0x20, 0x60, 0x20, 0x20, 0x70, // 1
    0xF0, 0x10, 0xF0, 0x80, 0xF0, // 2
    0xF0, 0x10, 0xF0, 0x10, 0xF0, // 3
    0x90, 0x90, 0xF0, 0x10, 0x10, // 4
    0xF0, 0x80, 0xF0, 0x10, 0xF0, // 5
    0xF0, 0x80, 0xF0, 0x90, 0xF0, // 6
    0xF0, 0x10, 0x20, 0x40, 0x40, // 7
    0xF0, 0x90, 0xF0, 0x90, 0xF0, // 8
    0xF0, 0x90, 0xF0, 0x10, 0xF0, // 9
    0xF0, 0x90, 0xF0, 0x90, 0x90, // A
    0xE0, 0x90, 0xE0, 0x90, 0xE0, // B
    0xF0, 0x80, 0x80, 0x80, 0xF0, // C
    0xE0, 0x90, 0x90, 0x90, 0xE0, // D
    0xF0, 0x80, 0xF0, 0x80, 0xF0, // E
    0xF0, 0x80, 0xF0, 0x80, 0x80  // F
  ]

  /** A cleared framebuffer. */
  function Blank(): (px: seq<byte>)
    ensures |px| == PixelCount
    ensures forall k :: 0 <= k < PixelCount ==> px[k] == 0
  {
    seq(PixelCount, _ => 0)
  }

  /** Every pixel holds 0 or 1: what Reset establishes and Draw preserves. */
  ghost predicate Binary(px: seq<byte>)
  {
    forall k :: 0 <= k < |px| ==> px[k] <= 1
  }

  /** Bit `i` of a sprite row, counting from the most significant (leftmost) bit: the binary
      digit of weight 2^(7 - i). */
  function Bit(row: byte, i: nat): (b: byte)
    requires i < 8
    ensures b <= 1
  {
    (row as int / Pow2(7 - i) % 2) as byte
  }

  /** Row-major index of pixel (x, y). */
  function Index(x: int, y: int): (k: int)
    ensures 0 <= x < Width && 0 <= y < Height ==> 0 <= k < PixelCount && k % Width == x && k / Width == y
  {
    x + y * Width
  }

  /** The pixel that bit `i` of sprite row `j` lands on when the sprite is drawn at (x, y):
      both coordinates wrap around the screen edges. */
  function Target(x: nat, y: nat, j: nat, i: nat): (k: nat)
    ensures k < PixelCount
  {
    Index((x + i) % Width, (y + j) % Height)
  }

  /** The new value of a pixel that a set sprite bit lands on: the XOR of 1 with the old value,
      computed as the source does (1 unless the old value is exactly 1). */
  function Flip(p: byte): (q: byte)
    ensures q <= 1
    ensures p <= 1 ==> q == 1 - p
  {
    if p != 1 then 1 else 0
  }

  /** The framebuffer together with the collision flag accumulated so far. */
  datatype Frame = Frame(pixels: seq<byte>, collision: bool)

  /** The effect of bit `i` of row `j`: a set bit flips its target pixel and records a
      collision when that pixel was 1; a clear bit changes nothing. */
  function PlotBit(f: Frame, x: nat, y: nat, sprite: seq<byte>, j: nat, i: nat): (r: Frame)
    requires |f.pixels| == PixelCount && j < |sprite| && i < 8
    ensures |r.pixels| == PixelCount
  {
    if Bit(sprite[j], i) == 1 then
      var t := Target(x, y, j, i);
      Frame(f.pixels[t := Flip(f.pixels[t])], f.collision || f.pixels[t] == 1)
    else
      f
  }

  /** The frame after bits 0..i-1 of row `j`, in the order the source visits them. */
  function DrawRowPrefix(f: Frame, x: nat, y: nat, sprite: seq<byte>, j: nat, i: nat): (r: Frame)
    requires |f.pixels| == PixelCount && j < |sprite| && i <= 8
    ensures |r.pixels| == PixelCount
    decreases i
  {
    if i == 0 then f
    else PlotBit(DrawRowPrefix(f, x, y, sprite, j, i - 1), x, y, sprite, j, i - 1)
  }

  /** The frame after rows 0..j-1, starting from `px` with no collision. */
  function DrawPrefix(px: seq<byte>, x: nat, y: nat, sprite: seq<byte>, j: nat): (r: Frame)
    requires |px| == PixelCount && j <= |sprite|
    ensures |r.pixels| == PixelCount
    decreases j
  {
    if j == 0 then Frame(px, false)
    else DrawRowPrefix(DrawPrefix(px, x, y, sprite, j - 1), x, y, sprite, j - 1, 8)
  }

  /** The result of drawing the whole sprite at (x, y) over `px`. */
  function DrawSprite(px: seq<byte>, x: nat, y: nat, sprite: seq<byte>): (r: Frame)
    requires |px| == PixelCount
    ensures |r.pixels| == PixelCount
  {
    DrawPrefix(px, x, y, sprite, |sprite|)
  }

  class Display {
    const pixels: array<byte>

    ghost predicate Valid()
      reads this
    {
      pixels.Length == PixelCount
    }

    /** The abstract framebuffer, row-major. */
    ghost function Pixels(): seq<byte>
      reads this, pixels
    {
      pixels[..]
    }

    /** The zero value of the Go struct: a cleared screen. */
    constructor ()
      ensures Valid() && fresh(pixels)
      ensures Pixels() == Blank()
    {
      pixels := new byte[PixelCount](_ => 0);
    }

    /** Clears every pixel. */
    method Reset()
      requires Valid()
      modifies pixels
      ensures Pixels() == Blank()
    {
      for k := 0 to pixels.Length
        invariant forall m :: 0 <= m < k ==> pixels[m] == 0
      {
        pixels[k] := 0;
      }
    }

    /** Stores `value` at pixel (x, y) and nowhere else; Go panics when the row-major index
        falls outside the buffer. */
    method SetPixel(x: int, y: int, value: byte)
      requires Valid() && 0 <= Index(x, y) < PixelCount
      modifies pixels
      ensures Pixels() == old(Pixels())[Index(x, y) := value]
    {
      pixels[x + y * Width] := value;
    }

    /** Reads the pixel at row-major index `index`. */
    function GetPixel(index: int): (p: byte)
      reads this, pixels
      requires Valid() && 0 <= index < PixelCount
      ensures p == Pixels()[index]
    {
      pixels[index]
    }

    /** Reads pixel (x, y): the same cell as GetPixel(x + y * Width). */
    function GetPixelAt(x: int, y: int): (p: byte)
      reads this, pixels
      requires Valid() && 0 <= Index(x, y) < PixelCount
      ensures p == GetPixel(Index(x, y))
    {
      pixels[x + y * Width]
    }

    /** XOR-draws `sprite` (one byte per row, most significant bit leftmost) at (x, y) with
        wrap-around, and reports whether a set bit met a lit pixel. */
    method Draw(x: nat, y: nat, sprite: seq<byte>) returns (collision: bool)
      requires Valid()
      modifies pixels
      ensures Frame(Pixels(), collision) == DrawSprite(old(Pixels()), x, y, sprite)
    {
      var rows := |sprite|;
      collision := false;
      for j := 0 to rows
        invariant Frame(pixels[..], collision) == DrawPrefix(old(pixels[..]), x, y, sprite, j)
      {
        var row := sprite[j];
        for i := 0 to 8
          invariant Frame(pixels[..], collision)
                    == DrawRowPrefix(DrawPrefix(old(pixels[..]), x, y, sprite, j), x, y, sprite, j, i)
        {
          ghost var before := Frame(pixels[..], collision);
          var newValue := AndByte(ShrByte(row, 7 - i), 0x01);
          AndLowBit(ShrByte(row, 7 - i));
          if newValue == 1 {
            var xi := (x + i) % Width;
            var yj := (y + j) % Height;
            assert Index(xi, yj) == Target(x, y, j, i);
            var oldValue := GetPixelAt(xi, yj);
            if oldValue == 1 {
              collision := true;
            }
            var xor: byte := 0;
            if newValue != oldValue {
              xor := 1;
            }
            SetPixel(xi, yj, xor);
          }
          assert Frame(pixels[..], collision) == PlotBit(before, x, y, sprite, j, i);
        }
      }
    }
  }
}

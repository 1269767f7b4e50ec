/** The rasteriser of the rounded outline behind the candidate window. Coordinates are scaled by eight,
    so that the four sample positions of a pixel (an eighth, three, five and seven eighths) and half of
    any size are integers; distances are compared exactly. A pixel is 32 bits of premultiplied ARGB. */
module Outline {
  import opened Numbers

  const SAMPLES := [1, 3, 5, 7]

  function Abs(a: int): nat { if a < 0 then -a else a }

  /** The corner radius, scaled. */
  function Corner(width: nat, height: nat, radius: int): nat {
    Min(Min(8 * Max(radius, 0), 4 * width), 4 * height)
  }

  /** How far a scaled coordinate lies inside the corner region of an axis of scaled length `8 * size`. */
  function Excess(size: nat, corner: nat, at: int): nat {
    Max(Abs(at - 4 * size) - (4 * size - corner), 0)
  }

  /** The sample is inside the rounded rectangle. */
  predicate Inside(width: nat, height: nat, corner: nat, x: int, y: int) {
    var qx, qy := Excess(width, corner, x), Excess(height, corner, y);
    qx * qx + qy * qy <= corner * corner
  }

  /** How many of the first `n` samples along the line `y` of pixel column `px` are inside. */
  function CoveredOnLine(width: nat, height: nat, corner: nat, px: nat, y: int, n: nat): (r: nat)
    requires n <= 4
    ensures r <= n
  {
    if n == 0 then 0
    else
      CoveredOnLine(width, height, corner, px, y, n - 1)
      + if Inside(width, height, corner, 8 * px + SAMPLES[n - 1], y) then 1 else 0
  }

  /** How many samples of the first `n` sample lines of a pixel are inside. */
  function Covered(width: nat, height: nat, corner: nat, px: nat, py: nat, n: nat): (r: nat)
    requires n <= 4
    ensures r <= 4 * n
  {
    if n == 0 then 0
    else
      Covered(width, height, corner, px, py, n - 1)
      + CoveredOnLine(width, height, corner, px, 8 * py + SAMPLES[n - 1], 4)
  }

  function Alpha(covered: nat): nat { (covered * 255 + 8) / 16 }

  function Premultiply(channel: nat, alpha: nat): nat { (channel * alpha + 127) / 255 }

  function Pack(alpha: nat, red: nat, green: nat, blue: nat): nat {
    alpha * 0x100_0000 + red * 0x1_0000 + green * 0x100 + blue
  }

  function PixelAlpha(width: nat, height: nat, radius: int, px: nat, py: nat): nat {
    Alpha(Covered(width, height, Corner(width, height, radius), px, py, 4))
  }

  function Pixel(width: nat, height: nat, radius: int, color: nat, px: nat, py: nat): nat {
    var alpha := PixelAlpha(width, height, radius, px, py);
    Pack(alpha, Premultiply(color % 256, alpha), Premultiply(color / 0x100 % 256, alpha), Premultiply(color / 0x1_0000 % 256, alpha))
  }

  lemma LinesInOrder(width: nat, y: nat, z: nat)
    requires y < z
    ensures y * width + width <= z * width
  {
    assert z * width == y * width + width + (z - y - 1) * width;
  }

  /** Line `py` of an image has been rendered. */
  ghost predicate LineRendered(image: seq<nat>, width: nat, height: nat, radius: int, color: nat, py: nat) {
    forall px :: 0 <= px < width ==>
      0 <= py * width + px < |image| && image[py * width + px] == Pixel(width, height, radius, color, px, py)
  }

  /** Every pixel of the image is written, at its own index. */
  method RenderOutlinePixels(pixels: array<nat>, width: nat, height: nat, radius: int, color: nat)
    requires pixels.Length == width * height
    modifies pixels
    ensures forall py :: 0 <= py < height ==> LineRendered(pixels[..], width, height, radius, color, py)
  {
    for py := 0 to height
      invariant forall z :: 0 <= z < py ==> LineRendered(pixels[..], width, height, radius, color, z)
    {
      ghost var before := pixels[..];
      LinesInOrder(width, py, height);
      RenderLine(pixels, width, height, radius, color, py);
      forall z | 0 <= z < py
        ensures LineRendered(pixels[..], width, height, radius, color, z)
      {
        LineStays(before, pixels[..], width, height, radius, color, z, py);
      }
    }
  }

  lemma LineStays(before: seq<nat>, after: seq<nat>, width: nat, height: nat, radius: int, color: nat, z: nat, py: nat)
    requires z < py && py * width <= |before| == |after| && before[..py * width] == after[..py * width]
    requires LineRendered(before, width, height, radius, color, z)
    ensures LineRendered(after, width, height, radius, color, z)
  {
    LinesInOrder(width, z, py);
    forall px | 0 <= px < width
      ensures 0 <= z * width + px < |after| && after[z * width + px] == Pixel(width, height, radius, color, px, z)
    {
      assert before[z * width + px] == before[..py * width][z * width + px];
    }
  }

  method RenderLine(pixels: array<nat>, width: nat, height: nat, radius: int, color: nat, py: nat)
    requires py * width + width <= pixels.Length
    modifies pixels
    ensures pixels[..py * width] == old(pixels[..py * width])
    ensures LineRendered(pixels[..], width, height, radius, color, py)
  {
    var red, green, blue := color % 256, color / 0x100 % 256, color / 0x1_0000 % 256;
    var corner := Corner(width, height, radius);
    var base := py * width;
    for px := 0 to width
      invariant pixels[..base] == old(pixels[..base])
      invariant forall x :: 0 <= x < px ==> pixels[base + x] == Pixel(width, height, radius, color, x, py)
    {
      var covered := CountCovered(width, height, corner, px, py);
      var alpha := Alpha(covered);
      pixels[base + px] := Pack(alpha, Premultiply(red, alpha), Premultiply(green, alpha), Premultiply(blue, alpha));
    }
  }

  method CountCovered(width: nat, height: nat, corner: nat, px: nat, py: nat) returns (covered: nat)
    ensures covered == Covered(width, height, corner, px, py, 4)
  {
    covered := 0;
    for j := 0 to 4
      invariant covered == Covered(width, height, corner, px, py, j)
    {
      var y := 8 * py + SAMPLES[j];
      for i := 0 to 4
        invariant covered == Covered(width, height, corner, px, py, j) + CoveredOnLine(width, height, corner, px, y, i)
      {
        var x := 8 * px + SAMPLES[i];
        var qx := Max(Abs(x - 4 * width) - (4 * width - corner), 0);
        var qy := Max(Abs(y - 4 * height) - (4 * height - corner), 0);
        if qx * qx + qy * qy <= corner * corner {
          covered := covered + 1;
        }
      }
    }
  }

  // ---------------------------------------------------------------- symmetry

  lemma InsideMirrors(width: nat, height: nat, corner: nat, x: int, y: int)
    ensures Inside(width, height, corner, 8 * width - x, y) == Inside(width, height, corner, x, y)
    ensures Inside(width, height, corner, x, 8 * height - y) == Inside(width, height, corner, x, y)
  {
    assert Excess(width, corner, 8 * width - x) == Excess(width, corner, x);
    assert Excess(height, corner, 8 * height - y) == Excess(height, corner, y);
  }

  /** The four samples of a line, spelled out. */
  lemma LineSum(width: nat, height: nat, corner: nat, px: nat, y: int)
    ensures CoveredOnLine(width, height, corner, px, y, 4)
         == One(Inside(width, height, corner, 8 * px + 1, y)) + One(Inside(width, height, corner, 8 * px + 3, y))
            + One(Inside(width, height, corner, 8 * px + 5, y)) + One(Inside(width, height, corner, 8 * px + 7, y))
  {
    assert CoveredOnLine(width, height, corner, px, y, 0) == 0;
    assert CoveredOnLine(width, height, corner, px, y, 1) == One(Inside(width, height, corner, 8 * px + 1, y));
    assert CoveredOnLine(width, height, corner, px, y, 2)
        == CoveredOnLine(width, height, corner, px, y, 1) + One(Inside(width, height, corner, 8 * px + 3, y));
    assert CoveredOnLine(width, height, corner, px, y, 3)
        == CoveredOnLine(width, height, corner, px, y, 2) + One(Inside(width, height, corner, 8 * px + 5, y));
  }

  function One(b: bool): nat { if b then 1 else 0 }

  lemma PixelSum(width: nat, height: nat, corner: nat, px: nat, py: nat)
    ensures Covered(width, height, corner, px, py, 4)
         == CoveredOnLine(width, height, corner, px, 8 * py + 1, 4) + CoveredOnLine(width, height, corner, px, 8 * py + 3, 4)
            + CoveredOnLine(width, height, corner, px, 8 * py + 5, 4) + CoveredOnLine(width, height, corner, px, 8 * py + 7, 4)
  {
    assert Covered(width, height, corner, px, py, 0) == 0;
    assert Covered(width, height, corner, px, py, 1) == CoveredOnLine(width, height, corner, px, 8 * py + 1, 4);
    assert Covered(width, height, corner, px, py, 2)
        == Covered(width, height, corner, px, py, 1) + CoveredOnLine(width, height, corner, px, 8 * py + 3, 4);
    assert Covered(width, height, corner, px, py, 3)
        == Covered(width, height, corner, px, py, 2) + CoveredOnLine(width, height, corner, px, 8 * py + 5, 4);
  }

  lemma LineMirrorsAcross(width: nat, height: nat, corner: nat, px: nat, y: int)
    requires px < width
    ensures CoveredOnLine(width, height, corner, width - 1 - px, y, 4) == CoveredOnLine(width, height, corner, px, y, 4)
  {
    LineSum(width, height, corner, px, y);
    LineSum(width, height, corner, width - 1 - px, y);
    InsideMirrors(width, height, corner, 8 * px + 1, y);
    InsideMirrors(width, height, corner, 8 * px + 3, y);
    InsideMirrors(width, height, corner, 8 * px + 5, y);
    InsideMirrors(width, height, corner, 8 * px + 7, y);
  }

  lemma LineMirrorsDown(width: nat, height: nat, corner: nat, px: nat, y: int)
    ensures CoveredOnLine(width, height, corner, px, 8 * height - y, 4) == CoveredOnLine(width, height, corner, px, y, 4)
  {
    LineSum(width, height, corner, px, y);
    LineSum(width, height, corner, px, 8 * height - y);
    InsideMirrors(width, height, corner, 8 * px + 1, y);
    InsideMirrors(width, height, corner, 8 * px + 3, y);
    InsideMirrors(width, height, corner, 8 * px + 5, y);
    InsideMirrors(width, height, corner, 8 * px + 7, y);
  }

  lemma CoveredMirrorsAcross(width: nat, height: nat, corner: nat, px: nat, py: nat)
    requires px < width
    ensures Covered(width, height, corner, width - 1 - px, py, 4) == Covered(width, height, corner, px, py, 4)
  {
    PixelSum(width, height, corner, px, py);
    PixelSum(width, height, corner, width - 1 - px, py);
    LineMirrorsAcross(width, height, corner, px, 8 * py + 1);
    LineMirrorsAcross(width, height, corner, px, 8 * py + 3);
    LineMirrorsAcross(width, height, corner, px, 8 * py + 5);
    LineMirrorsAcross(width, height, corner, px, 8 * py + 7);
  }

  lemma CoveredMirrorsDown(width: nat, height: nat, corner: nat, px: nat, py: nat)
    requires py < height
    ensures Covered(width, height, corner, px, height - 1 - py, 4) == Covered(width, height, corner, px, py, 4)
  {
    PixelSum(width, height, corner, px, py);
    PixelSum(width, height, corner, px, height - 1 - py);
    LineMirrorsDown(width, height, corner, px, 8 * py + 1);
    LineMirrorsDown(width, height, corner, px, 8 * py + 3);
    LineMirrorsDown(width, height, corner, px, 8 * py + 5);
    LineMirrorsDown(width, height, corner, px, 8 * py + 7);
  }

  /** The image is its own mirror image, left to right and top to bottom, for all sizes and radii. */
  lemma OutlineIsSymmetric(width: nat, height: nat, radius: int, color: nat, px: nat, py: nat)
    requires px < width && py < height
    ensures Pixel(width, height, radius, color, width - 1 - px, py) == Pixel(width, height, radius, color, px, py)
    ensures Pixel(width, height, radius, color, px, height - 1 - py) == Pixel(width, height, radius, color, px, py)
  {
    CoveredMirrorsAcross(width, height, Corner(width, height, radius), px, py);
    CoveredMirrorsDown(width, height, Corner(width, height, radius), px, py);
  }

  // ---------------------------------------------------------------- coverage

  lemma SquaresGrow(a: nat, b: nat)
    requires a <= b
    ensures a * a <= b * b
  {
    assert b * b == a * a + (b - a) * (b + a);
  }

  /** A sample of the image outside the corner regions, in either direction, is inside. */
  lemma OutsideCornersIsInside(width: nat, height: nat, corner: nat, x: int, y: int)
    requires corner <= 4 * width && corner <= 4 * height
    requires 0 <= x <= 8 * width && 0 <= y <= 8 * height
    requires Excess(width, corner, x) == 0 || Excess(height, corner, y) == 0
    ensures Inside(width, height, corner, x, y)
  {
    SquaresGrow(Excess(width, corner, x), corner);
    SquaresGrow(Excess(height, corner, y), corner);
  }

  predicate TouchesCorner(width: nat, height: nat, corner: nat, px: nat, py: nat) {
    exists i, j :: 0 <= i < 4 && 0 <= j < 4
      && Excess(width, corner, 8 * px + SAMPLES[i]) > 0 && Excess(height, corner, 8 * py + SAMPLES[j]) > 0
  }

  lemma LineIsFull(width: nat, height: nat, corner: nat, px: nat, py: nat, j: nat)
    requires corner <= 4 * width && corner <= 4 * height && px < width && py < height && j < 4
    requires !TouchesCorner(width, height, corner, px, py)
    ensures CoveredOnLine(width, height, corner, px, 8 * py + SAMPLES[j], 4) == 4
  {
    var y := 8 * py + SAMPLES[j];
    forall i | 0 <= i < 4
      ensures Inside(width, height, corner, 8 * px + SAMPLES[i], y)
    {
      OutsideCornersIsInside(width, height, corner, 8 * px + SAMPLES[i], y);
    }
    assert SAMPLES[0] == 1 && SAMPLES[1] == 3 && SAMPLES[2] == 5 && SAMPLES[3] == 7;
    LineSum(width, height, corner, px, y);
  }

  /** A pixel with no sample in a corner square is opaque, and a pixel is opaque exactly when all its
      samples are inside. */
  lemma OpaqueAwayFromCorners(width: nat, height: nat, radius: int, px: nat, py: nat)
    requires px < width && py < height
    ensures !TouchesCorner(width, height, Corner(width, height, radius), px, py) ==> PixelAlpha(width, height, radius, px, py) == 255
    ensures PixelAlpha(width, height, radius, px, py) == 255
       <==> Covered(width, height, Corner(width, height, radius), px, py, 4) == 16
    ensures PixelAlpha(width, height, radius, px, py) == 0
       <==> Covered(width, height, Corner(width, height, radius), px, py, 4) == 0
  {
    var corner := Corner(width, height, radius);
    if !TouchesCorner(width, height, corner, px, py) {
      LineIsFull(width, height, corner, px, py, 0);
      LineIsFull(width, height, corner, px, py, 1);
      LineIsFull(width, height, corner, px, py, 2);
      LineIsFull(width, height, corner, px, py, 3);
      assert SAMPLES[0] == 1 && SAMPLES[1] == 3 && SAMPLES[2] == 5 && SAMPLES[3] == 7;
      PixelSum(width, height, corner, px, py);
    }
  }

  lemma InsideGrowsInwards(width: nat, height: nat, corner: nat, x: int, y: int)
    requires x + 4 <= 4 * width && Inside(width, height, corner, x, y)
    ensures Inside(width, height, corner, x + 8, y)
  {
    SquaresGrow(Excess(width, corner, x + 8), Excess(width, corner, x));
  }

  lemma LineGrowsInwards(width: nat, height: nat, corner: nat, px: nat, y: int)
    requires 2 * px + 3 <= width
    ensures CoveredOnLine(width, height, corner, px, y, 4) <= CoveredOnLine(width, height, corner, px + 1, y, 4)
  {
    LineSum(width, height, corner, px, y);
    LineSum(width, height, corner, px + 1, y);
    forall x | x in {8 * px + 1, 8 * px + 3, 8 * px + 5, 8 * px + 7} && Inside(width, height, corner, x, y)
      ensures Inside(width, height, corner, x + 8, y)
    {
      InsideGrowsInwards(width, height, corner, x, y);
    }
  }

  /** Along a row the outline never gets fainter towards the middle. */
  lemma AlphaGrowsInwards(width: nat, height: nat, radius: int, px: nat, py: nat)
    requires 2 * px + 3 <= width && py < height
    ensures PixelAlpha(width, height, radius, px, py) <= PixelAlpha(width, height, radius, px + 1, py)
  {
    var corner := Corner(width, height, radius);
    PixelSum(width, height, corner, px, py);
    PixelSum(width, height, corner, px + 1, py);
    LineGrowsInwards(width, height, corner, px, 8 * py + 1);
    LineGrowsInwards(width, height, corner, px, 8 * py + 3);
    LineGrowsInwards(width, height, corner, px, 8 * py + 5);
    LineGrowsInwards(width, height, corner, px, 8 * py + 7);
  }

  // ---------------------------------------------------------------- colours

  function AlphaOf(pixel: nat): nat { pixel / 0x100_0000 }
  function RedOf(pixel: nat): nat { pixel / 0x1_0000 % 0x100 }
  function GreenOf(pixel: nat): nat { pixel / 0x100 % 0x100 }
  function BlueOf(pixel: nat): nat { pixel % 0x100 }

  lemma PremultipliedIsSmall(channel: nat, alpha: nat)
    requires channel <= 255
    ensures Premultiply(channel, alpha) <= alpha
    ensures alpha == 255 ==> Premultiply(channel, alpha) == channel
  {
    assert channel * alpha + (255 - channel) * alpha == 255 * alpha;
    assert (255 - channel) * alpha >= 0;
  }

  lemma Unpacks(alpha: nat, red: nat, green: nat, blue: nat)
    requires alpha < 256 && red < 256 && green < 256 && blue < 256
    ensures var pixel := Pack(alpha, red, green, blue);
            && pixel < 0x1_0000_0000
            && AlphaOf(pixel) == alpha && RedOf(pixel) == red && GreenOf(pixel) == green && BlueOf(pixel) == blue
  {
    var pixel := Pack(alpha, red, green, blue);
    assert pixel / 0x100 == alpha * 0x1_0000 + red * 0x100 + green;
    assert pixel / 0x1_0000 == alpha * 0x100 + red;
    assert pixel / 0x100_0000 == alpha;
  }

  /** Packed colours are valid premultiplied 32-bit colours: no channel exceeds the alpha it is packed with. */
  lemma PackedIsPremultiplied(alpha: nat, red: nat, green: nat, blue: nat)
    requires alpha < 256 && red < 256 && green < 256 && blue < 256
    ensures var pixel := Pack(alpha, Premultiply(red, alpha), Premultiply(green, alpha), Premultiply(blue, alpha));
            && pixel < 0x1_0000_0000 && AlphaOf(pixel) == alpha
            && RedOf(pixel) <= alpha && GreenOf(pixel) <= alpha && BlueOf(pixel) <= alpha
            && (alpha == 255 ==> RedOf(pixel) == red && GreenOf(pixel) == green && BlueOf(pixel) == blue)
  {
    PremultipliedIsSmall(red, alpha);
    PremultipliedIsSmall(green, alpha);
    PremultipliedIsSmall(blue, alpha);
    Unpacks(alpha, Premultiply(red, alpha), Premultiply(green, alpha), Premultiply(blue, alpha));
  }

  /** Every pixel of every outline is one. */
  lemma PixelIsPremultiplied(width: nat, height: nat, radius: int, color: nat, px: nat, py: nat)
    ensures var pixel := Pixel(width, height, radius, color, px, py);
            && pixel < 0x1_0000_0000
            && AlphaOf(pixel) == PixelAlpha(width, height, radius, px, py) <= 255
            && RedOf(pixel) <= AlphaOf(pixel) && GreenOf(pixel) <= AlphaOf(pixel) && BlueOf(pixel) <= AlphaOf(pixel)
  {
    var alpha := PixelAlpha(width, height, radius, px, py);
    assert Covered(width, height, Corner(width, height, radius), px, py, 4) <= 16;
    PackedIsPremultiplied(alpha, color % 256, color / 0x100 % 256, color / 0x1_0000 % 256);
  }

  /** A colour is given with red in its lowest byte and comes out with blue there: an opaque pixel has
      exactly the colour's channels, in the other order. */
  lemma OpaquePixelHasColour(width: nat, height: nat, radius: int, red: nat, green: nat, blue: nat, px: nat, py: nat)
    requires red < 256 && green < 256 && blue < 256
    requires PixelAlpha(width, height, radius, px, py) == 255
    ensures var pixel := Pixel(width, height, radius, red + 0x100 * green + 0x1_0000 * blue, px, py);
            && AlphaOf(pixel) == 255 && RedOf(pixel) == red && GreenOf(pixel) == green && BlueOf(pixel) == blue
  {
    var color := red + 0x100 * green + 0x1_0000 * blue;
    ColourChannels(red, green, blue);
    PackedIsPremultiplied(255, red, green, blue);
  }

  lemma ColourChannels(red: nat, green: nat, blue: nat)
    requires red < 256 && green < 256 && blue < 256
    ensures var color := red + 0x100 * green + 0x1_0000 * blue;
            color % 256 == red && color / 0x100 % 256 == green && color / 0x1_0000 % 256 == blue
  {
    var color := red + 0x100 * green + 0x1_0000 * blue;
    assert color / 0x100 == green + 0x100 * blue;
    assert color / 0x1_0000 == blue;
  }

  /** `part` is the share of a channel that an alpha of at most 255 leaves, to the nearest whole number. */
  predicate NearestShare(part: nat, channel: nat, alpha: nat) { Abs(255 * part - channel * alpha) <= 127 }

  lemma PremultiplyRounds(channel: nat, alpha: nat)
    ensures NearestShare(Premultiply(channel, alpha), channel, alpha)
  {
    var n := channel * alpha;
    assert 255 * ((n + 127) / 255) <= n + 127 < 255 * ((n + 127) / 255) + 255;
  }

  lemma PixelChannels(width: nat, height: nat, radius: int, red: nat, green: nat, blue: nat, px: nat, py: nat)
    requires red < 256 && green < 256 && blue < 256
    ensures var pixel := Pixel(width, height, radius, red + 0x100 * green + 0x1_0000 * blue, px, py);
            var alpha := PixelAlpha(width, height, radius, px, py);
            && alpha < 256 && AlphaOf(pixel) == alpha && RedOf(pixel) == Premultiply(red, alpha)
            && GreenOf(pixel) == Premultiply(green, alpha) && BlueOf(pixel) == Premultiply(blue, alpha)
  {
    var alpha := PixelAlpha(width, height, radius, px, py);
    assert Covered(width, height, Corner(width, height, radius), px, py, 4) <= 16;
    ColourChannels(red, green, blue);
    PremultipliedIsSmall(red, alpha);
    PremultipliedIsSmall(green, alpha);
    PremultipliedIsSmall(blue, alpha);
    Unpacks(alpha, Premultiply(red, alpha), Premultiply(green, alpha), Premultiply(blue, alpha));
  }

  /** Where the outline is translucent, each channel is the colour's share of the alpha, to the nearest whole
      number. */
  lemma ChannelsAreRounded(width: nat, height: nat, radius: int, red: nat, green: nat, blue: nat, px: nat, py: nat)
    requires red < 256 && green < 256 && blue < 256
    ensures var pixel := Pixel(width, height, radius, red + 0x100 * green + 0x1_0000 * blue, px, py);
            && NearestShare(RedOf(pixel), red, AlphaOf(pixel))
            && NearestShare(GreenOf(pixel), green, AlphaOf(pixel))
            && NearestShare(BlueOf(pixel), blue, AlphaOf(pixel))
  {
    var alpha := PixelAlpha(width, height, radius, px, py);
    PixelChannels(width, height, radius, red, green, blue, px, py);
    PremultiplyRounds(red, alpha);
    PremultiplyRounds(green, alpha);
    PremultiplyRounds(blue, alpha);
  }

  /** The alpha is the covered share of 255, to the nearest whole number. */
  lemma AlphaIsRounded(width: nat, height: nat, radius: int, px: nat, py: nat)
    ensures Abs(16 * PixelAlpha(width, height, radius, px, py)
                - 255 * Covered(width, height, Corner(width, height, radius), px, py, 4)) <= 8
  {
  }

  // ---------------------------------------------------------------- the rounded rectangle

  /** The corner radius is the configured one, unless the rectangle is too small for two of them. */
  lemma CornerIsRadius(width: nat, height: nat, radius: int)
    ensures var corner := Corner(width, height, radius);
            && corner <= 4 * width && corner <= 4 * height && (radius >= 0 ==> corner <= 8 * radius)
            && (corner == 4 * width || corner == 4 * height || corner == 8 * radius || (radius < 0 && corner == 0))
  {
  }

  /** A centre of a disc that rounds the rectangle: at least a radius away from every side. */
  predicate Centre(width: nat, height: nat, corner: nat, cx: int, cy: int) {
    corner <= cx <= 8 * width - corner && corner <= cy <= 8 * height - corner
  }

  predicate InDisc(corner: nat, cx: int, cy: int, x: int, y: int) {
    (x - cx) * (x - cx) + (y - cy) * (y - cy) <= corner * corner
  }

  /** A point is inside exactly when it lies in one of the discs of the corner radius that fit into the
      rectangle: what is drawn is the rounded rectangle. */
  lemma InsideIsRoundedRectangle(width: nat, height: nat, corner: nat, x: int, y: int)
    requires corner <= 4 * width && corner <= 4 * height
    ensures Inside(width, height, corner, x, y)
       <==> exists cx, cy :: Centre(width, height, corner, cx, cy) && InDisc(corner, cx, cy, x, y)
  {
    var nx, ny := Nearest(width, corner, x), Nearest(height, corner, y);
    assert Centre(width, height, corner, nx, ny);
    SquareOfAbs(x - nx);
    SquareOfAbs(y - ny);
    forall cx, cy | Centre(width, height, corner, cx, cy) && InDisc(corner, cx, cy, x, y)
      ensures Inside(width, height, corner, x, y)
    {
      SquaresGrow(Excess(width, corner, x), Abs(x - cx));
      SquaresGrow(Excess(height, corner, y), Abs(y - cy));
      SquareOfAbs(x - cx);
      SquareOfAbs(y - cy);
    }
  }

  /** The centre coordinate nearest to `at`. */
  function Nearest(size: nat, corner: nat, at: int): (c: int)
    requires corner <= 4 * size
    ensures corner <= c <= 8 * size - corner && Abs(at - c) == Excess(size, corner, at)
  {
    if at < corner then corner else if at > 8 * size - corner then 8 * size - corner else at
  }

  lemma SquareOfAbs(a: int)
    ensures Abs(a) * Abs(a) == a * a
  {
  }
}

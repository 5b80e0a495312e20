/**
 * Gamma correction and the text line `write_color` emits for one pixel:
 * the accumulated colour is averaged over the samples, gamma corrected
 * with a square root, clamped below 1 and scaled to an integer in
 * [0, 255].
 */
module Colors {
  import opened Numerics
  import opened Util
  import opened Vectors
  import opened Decimal

  /** `linear_to_gamma`: gamma 2, a square root. */
  function LinearToGamma(linear: real, sqrt: real -> real): (g: real)
    ensures IsSqrt(sqrt) && 0.0 <= linear ==> 0.0 <= g && g * g == linear
  {
    sqrt(linear)
  }

  /** `static_cast<int>(256 * clamp(c, 0.0, 0.999))`. */
  function Channel(c: real): (n: int)
    ensures 0 <= n <= 255
    ensures c <= 0.0 ==> n == 0
    ensures 0.999 <= c ==> n == 255
  {
    var k := Clamp(c, 0.0, 0.999);
    assert 256.0 * k <= 255.744;
    TruncToInt(256.0 * k)
  }

  /** Three channel values. */
  datatype Rgb = Rgb(r: int, g: int, b: int)

  predicate InByteRange(c: Rgb)
  {
    0 <= c.r <= 255 && 0 <= c.g <= 255 && 0 <= c.b <= 255
  }

  /** `scale * c` with `scale = 1.0 / samples_per_pixel`: the mean over the samples. */
  function Average(c: real, samplesPerPixel: int): real
    requires samplesPerPixel != 0
  {
    1.0 / samplesPerPixel as real * c
  }

  /** The gamma-corrected channel of one accumulated component. */
  function ChannelOf(component: real, samplesPerPixel: int, sqrt: real -> real): (n: int)
    requires samplesPerPixel != 0
    ensures 0 <= n <= 255
  {
    Channel(LinearToGamma(Average(component, samplesPerPixel), sqrt))
  }

  /** The three integers `write_color` emits for an accumulated colour. */
  function Channels(pixel: Vec3, samplesPerPixel: int, sqrt: real -> real): (c: Rgb)
    requires samplesPerPixel != 0
    ensures InByteRange(c)
  {
    Rgb(ChannelOf(pixel.x, samplesPerPixel, sqrt),
        ChannelOf(pixel.y, samplesPerPixel, sqrt),
        ChannelOf(pixel.z, samplesPerPixel, sqrt))
  }

  /** The line: the three integers separated by single spaces, then `'\n'`. */
  function PixelText(c: Rgb): string
  {
    IntToString(c.r) + " " + IntToString(c.g) + " " + IntToString(c.b) + "\n"
  }

  /**
   * `write_color`: reassigns `r`, `g` and `b` to their gamma-corrected
   * averages and returns the line it writes.
   */
  method WriteColor(pixel: Vec3, samplesPerPixel: int, sqrt: real -> real) returns (line: string)
    requires samplesPerPixel != 0
    ensures line == PixelText(Channels(pixel, samplesPerPixel, sqrt))
  {
    var r := pixel.x;
    var g := pixel.y;
    var b := pixel.z;

    r := LinearToGamma(Average(r, samplesPerPixel), sqrt);
    g := LinearToGamma(Average(g, samplesPerPixel), sqrt);
    b := LinearToGamma(Average(b, samplesPerPixel), sqrt);

    assert Rgb(Channel(r), Channel(g), Channel(b)) == Channels(pixel, samplesPerPixel, sqrt);
    line := IntToString(Channel(r)) + " " + IntToString(Channel(g)) + " " + IntToString(Channel(b)) + "\n";
  }

  // ---------------------------------------------------------------------
  // Properties of the emitted line

  /** A pixel that gathered no light is written `0 0 0`. */
  lemma BlackPixel(samplesPerPixel: int, sqrt: real -> real)
    requires samplesPerPixel != 0 && sqrt(0.0) == 0.0
    ensures Channels(Zero, samplesPerPixel, sqrt) == Rgb(0, 0, 0)
    ensures PixelText(Channels(Zero, samplesPerPixel, sqrt)) == "0 0 0\n"
  {
    ScaledChannel(samplesPerPixel, 0.0, sqrt, 0.0);
  }

  /**
   * A pixel whose every sample returned white is written `255 255 255`:
   * the clamp to 0.999 keeps `256 * value` below 256.
   */
  lemma WhitePixel(samplesPerPixel: int, sqrt: real -> real)
    requires samplesPerPixel != 0 && sqrt(1.0) == 1.0
    ensures Channels(Scale(samplesPerPixel as real, Vec3(1.0, 1.0, 1.0)), samplesPerPixel, sqrt) == Rgb(255, 255, 255)
    ensures PixelText(Channels(Scale(samplesPerPixel as real, Vec3(1.0, 1.0, 1.0)), samplesPerPixel, sqrt)) == "255 255 255\n"
  {
    var n := samplesPerPixel as real;
    assert Scale(n, Vec3(1.0, 1.0, 1.0)) == Vec3(n, n, n);
    ScaledChannel(samplesPerPixel, n, sqrt, 1.0);
    assert NatToString(255) == NatToString(25) + "5";
    assert NatToString(25) == NatToString(2) + "5";
  }

  /** The channel of `value` when `scale * value` has the known root `root`. */
  lemma ScaledChannel(samplesPerPixel: int, value: real, sqrt: real -> real, root: real)
    requires samplesPerPixel != 0
    requires value == 0.0 || value == samplesPerPixel as real
    requires root == (if value == 0.0 then 0.0 else 1.0) && sqrt(root) == root
    ensures ChannelOf(value, samplesPerPixel, sqrt) == (if value == 0.0 then 0 else 255)
  {
    if value == 0.0 {
      MulByZero(1.0 / samplesPerPixel as real, value);
      assert Average(value, samplesPerPixel) == 0.0;
    } else {
      assert Average(value, samplesPerPixel) == 1.0;
      assert Channel(1.0) == 255;
    }
  }

  /** More accumulated light never gives a darker channel. */
  lemma ChannelMonotone(x: real, y: real, samplesPerPixel: int, sqrt: real -> real)
    requires IsSqrt(sqrt) && 0 < samplesPerPixel && 0.0 <= x <= y
    ensures ChannelOf(x, samplesPerPixel, sqrt) <= ChannelOf(y, samplesPerPixel, sqrt)
  {
    AverageMonotone(x, y, samplesPerPixel);
    SqrtMonotone(sqrt, Average(x, samplesPerPixel), Average(y, samplesPerPixel));
    var gx, gy := LinearToGamma(Average(x, samplesPerPixel), sqrt), LinearToGamma(Average(y, samplesPerPixel), sqrt);
    ClampMonotone(gx, gy, 0.0, 0.999);
    MulLe(Clamp(gx, 0.0, 0.999), Clamp(gy, 0.0, 0.999), 256.0);
    TruncMonotone(256.0 * Clamp(gx, 0.0, 0.999), 256.0 * Clamp(gy, 0.0, 0.999));
    assert Channel(gx) <= Channel(gy);
  }

  /** Averaging over a positive number of samples keeps the order and the sign. */
  lemma AverageMonotone(x: real, y: real, samplesPerPixel: int)
    requires 0 < samplesPerPixel && 0.0 <= x <= y
    ensures 0.0 <= Average(x, samplesPerPixel) <= Average(y, samplesPerPixel)
  {
    var scale := 1.0 / samplesPerPixel as real;
    assert 0.0 < scale;
    MulLe(x, y, scale);
    NonNegProduct(x, scale);
    assert x * scale == scale * x && y * scale == scale * y;
  }

  /** Componentwise monotonicity of the channel triple. */
  lemma ChannelsMonotone(p: Vec3, q: Vec3, samplesPerPixel: int, sqrt: real -> real)
    requires IsSqrt(sqrt) && 0 < samplesPerPixel
    requires 0.0 <= p.x <= q.x && 0.0 <= p.y <= q.y && 0.0 <= p.z <= q.z
    ensures var a, b := Channels(p, samplesPerPixel, sqrt), Channels(q, samplesPerPixel, sqrt);
      a.r <= b.r && a.g <= b.g && a.b <= b.b
  {
    ChannelMonotone(p.x, q.x, samplesPerPixel, sqrt);
    ChannelMonotone(p.y, q.y, samplesPerPixel, sqrt);
    ChannelMonotone(p.z, q.z, samplesPerPixel, sqrt);
  }

  /** Truncation of non-negative doubles is monotone. */
  lemma TruncMonotone(x: real, y: real)
    requires 0.0 <= x <= y
    ensures TruncToInt(x) <= TruncToInt(y)
  {}

  /** The number of occurrences of `c` in `s`. */
  function Count(s: string, c: char): nat
  {
    if |s| == 0 then 0 else Count(s[..|s| - 1], c) + (if s[|s| - 1] == c then 1 else 0)
  }

  lemma {:induction false} CountAppend(s: string, t: string, c: char)
    ensures Count(s + t, c) == Count(s, c) + Count(t, c)
    decreases |t|
  {
    if |t| == 0 {
      assert s + t == s;
    } else {
      CountAppend(s, t[..|t| - 1], c);
      assert (s + t)[..|s + t| - 1] == s + t[..|t| - 1];
    }
  }

  lemma {:induction false} CountDigits(s: string, c: char)
    requires forall k :: 0 <= k < |s| ==> IsDigit(s[k])
    requires !IsDigit(c)
    ensures Count(s, c) == 0
    decreases |s|
  {
    if |s| > 0 {
      CountDigits(s[..|s| - 1], c);
    }
  }

  /**
   * A pixel line is three runs of at most three digits separated by two
   * single spaces and ended by one newline, and each run reads back as
   * its channel.
   */
  lemma PixelTextShape(c: Rgb)
    requires InByteRange(c)
    ensures var s := PixelText(c);
      && s == IntToString(c.r) + " " + IntToString(c.g) + " " + IntToString(c.b) + "\n"
      && 6 <= |s| <= 12 && s[|s| - 1] == '\n'
      && Count(s, ' ') == 2 && Count(s, '\n') == 1
      && IsDigits(IntToString(c.r)) && IsDigits(IntToString(c.g)) && IsDigits(IntToString(c.b))
      && ParseInt(IntToString(c.r)) == c.r && ParseInt(IntToString(c.g)) == c.g && ParseInt(IntToString(c.b)) == c.b
  {
    var r, g, b := IntToString(c.r), IntToString(c.g), IntToString(c.b);
    NatToStringShort(c.r);
    NatToStringShort(c.g);
    NatToStringShort(c.b);
    IntToStringRoundTrip(c.r);
    IntToStringRoundTrip(c.g);
    IntToStringRoundTrip(c.b);
    forall ch | ch == ' ' || ch == '\n'
      ensures Count(r + " " + g + " " + b + "\n", ch) == (if ch == ' ' then 2 else 1)
    {
      CountDigits(r, ch);
      CountDigits(g, ch);
      CountDigits(b, ch);
      CountAppend(r + " " + g + " " + b, "\n", ch);
      CountAppend(r + " " + g + " ", b, ch);
      CountAppend(r + " " + g, " ", ch);
      CountAppend(r + " ", g, ch);
      CountAppend(r, " ", ch);
      assert Count(" ", ch) == (if ch == ' ' then 1 else 0) by {
        assert " "[..0] == "";
      }
      assert Count("\n", ch) == (if ch == '\n' then 1 else 0) by {
        assert "\n"[..0] == "";
      }
    }
  }
}

/** `Color`: four 8-bit channels (red, green, blue, alpha). */
module Colors {
  import opened Wrappers
  import opened RealMath

  /** Rust's `u8`. */
  type U8 = x: int | 0 <= x < 256

  datatype Color = Color(r: U8, g: U8, b: U8, alpha: U8)

  const BLACK := Color(0, 0, 0, 255)
  const BLUE := Color(0, 0, 255, 255)
  const GREEN := Color(0, 255, 0, 255)
  const RED := Color(255, 0, 0, 255)
  const WHITE := Color(255, 255, 255, 255)
  const YELLOW := Color(255, 255, 0, 255)
  const MAGENTA := Color(255, 0, 255, 255)
  const CYAN := Color(0, 255, 255, 255)
  const GRAY := Color(127, 127, 127, 255)

  /** `Color::rgb`: the given channels, fully opaque. */
  function Rgb(r: U8, g: U8, b: U8): (c: Color)
    ensures c.r == r && c.g == g && c.b == b
    ensures c.alpha == 255
  {
    Color(r, g, b, 255)
  }

  /** `Color::rgba`: all four given channels, read back unchanged by the accessors. */
  function Rgba(r: U8, g: U8, b: U8, a: U8): (c: Color)
    ensures c.r == r && c.g == g && c.b == b && c.alpha == a
  {
    Color(r, g, b, a)
  }

  /** Rust's `f32 as u8`: truncation toward zero, saturated into 0..255. */
  function AsU8(x: real): (b: U8)
    ensures x < 0.0 ==> b == 0
    ensures 255.0 <= x ==> b == 255
    ensures 0.0 <= x < 256.0 ==> b as real <= x < b as real + 1.0
  {
    if x < 0.0 then 0 else if x >= 255.0 then 255 else x.Floor
  }

  /** Two casts of values summing to at most 255 sum to at most 255. */
  lemma CastSumBelow(p: real, q: real)
    requires 0.0 <= p && 0.0 <= q && p + q <= 255.0
    ensures AsU8(p) + AsU8(q) <= 255
  {
  }

  /** A cast of a value in [0, m] is at most m. */
  lemma AsU8Below(x: real, m: U8)
    requires 0.0 <= x <= m as real
    ensures AsU8(x) <= m
  {
  }

  /** `c * s` for a channel level `c` and a non-negative factor `s`: at
      most `255 * s`, and at most `c` when `s` is a fraction. */
  function Portion(c: real, s: real): (p: real)
    requires 0.0 <= c <= 255.0 && 0.0 <= s
    ensures 0.0 <= p <= 255.0 * s
    ensures s <= 1.0 ==> p <= c
  {
    MulNonNeg(c, s);
    MulNonNeg(255.0 - c, s);
    assert 255.0 * s - c * s == (255.0 - c) * s;
    if s <= 1.0 then
      MulNonNeg(c, 1.0 - s);
      assert c - c * s == c * (1.0 - s);
      c * s
    else
      c * s
  }

  /** `(a as f32 / 255.0) * c as f32`: channel `c` scaled by `a` read as a
      fraction of 255, which lies in [0, min(a, c)]. */
  function Fraction(a: U8, c: U8): (x: real)
    ensures 0.0 <= x <= a as real && x <= c as real
  {
    var f := a as real / 255.0;
    assert f * 255.0 == a as real;
    Portion(c as real, f)
  }

  /** `difuse`: each channel of `a`, read as a fraction of 255, scales that
      channel of `c`, and the product is truncated to a byte. */
  function Difuse(a: Color, c: Color): (d: Color)
    ensures d.r == DifuseChannel(a.r, c.r) && d.g == DifuseChannel(a.g, c.g) && d.b == DifuseChannel(a.b, c.b)
    ensures d.r <= a.r && d.r <= c.r
    ensures d.g <= a.g && d.g <= c.g
    ensures d.b <= a.b && d.b <= c.b
    ensures d.alpha == 255
  {
    Color(DifuseChannel(a.r, c.r), DifuseChannel(a.g, c.g), DifuseChannel(a.b, c.b), 255)
  }

  /** `((a as f32 / 255.0) * c as f32) as u8`: the integer part of `a * c / 255`. */
  function DifuseChannel(a: U8, c: U8): (d: U8)
    ensures d as real <= a as real * c as real / 255.0 < d as real + 1.0
    ensures d <= a && d <= c
  {
    var x := Fraction(a, c);
    assert x == a as real * c as real / 255.0;
    AsU8Below(x, a);
    AsU8Below(x, c);
    AsU8(x)
  }

  /** `as_bytes`: the four channels in the order red, green, blue, alpha. */
  function AsBytes(c: Color): (bs: seq<U8>)
    ensures |bs| == 4
    ensures Rgba(bs[0], bs[1], bs[2], bs[3]) == c
  {
    [c.r, c.g, c.b, c.alpha]
  }

  /** `a + b`: per channel; a `u8` overflow panics in the source, so callers must avoid it. */
  function Add(a: Color, b: Color): (c: Color)
    requires a.r + b.r <= 255 && a.g + b.g <= 255 && a.b + b.b <= 255
    ensures c.alpha == 255
  {
    Color(a.r + b.r, a.g + b.g, a.b + b.b, 255)
  }

  /** `a - b`: per channel; a `u8` underflow panics in the source, so callers must avoid it. */
  function Sub(a: Color, b: Color): (c: Color)
    requires b.r <= a.r && b.g <= a.g && b.b <= a.b
    ensures c.alpha == 255
  {
    Color(a.r - b.r, a.g - b.g, a.b - b.b, 255)
  }

  /** `c * s`: each channel times `s`, cast back with `as u8`; alpha 255. */
  function Mul(c: Color, s: real): (d: Color)
    ensures d == Rgb(AsU8(c.r as real * s), AsU8(c.g as real * s), AsU8(c.b as real * s))
  {
    Color(ScaleChannel(c.r, s), ScaleChannel(c.g, s), ScaleChannel(c.b, s), 255)
  }

  /** `ch as f32 * s`: at most `255 * s` for a non-negative factor, and at
      most `ch` for a factor in [0, 1]. */
  function Scaled(ch: U8, s: real): (x: real)
    ensures 0.0 <= s ==> 0.0 <= x <= 255.0 * s
    ensures 0.0 <= s <= 1.0 ==> x <= ch as real
  {
    if s < 0.0 then ch as real * s else Portion(ch as real, s)
  }

  /** `(ch as f32 * s) as u8`: the cast of the product, never above the
      channel for a factor in [0, 1]. */
  function ScaleChannel(ch: U8, s: real): (d: U8)
    ensures d == AsU8(ch as real * s)
    ensures 0.0 <= s <= 1.0 ==> d <= ch
  {
    if 0.0 <= s <= 1.0 then
      AsU8Below(Scaled(ch, s), ch);
      AsU8(Scaled(ch, s))
    else
      AsU8(Scaled(ch, s))
  }

  /** `s * c`, which the source forwards to `c * s`: `s` times each channel,
      cast with `as u8`; alpha 255. */
  function ScalarMul(s: real, c: Color): (d: Color)
    ensures d == Rgb(AsU8(s * c.r as real), AsU8(s * c.g as real), AsU8(s * c.b as real))
  {
    assert c.r as real * s == s * c.r as real;
    assert c.g as real * s == s * c.g as real;
    assert c.b as real * s == s * c.b as real;
    Mul(c, s)
  }

  /** `c / s`; the source asserts `s != 0.0`.  Each channel is divided and
      cast with `as u8`, which is scaling by `1 / s`; alpha 255. */
  function Div(c: Color, s: real): (d: Color)
    requires s != 0.0
    ensures d == Rgb(AsU8(c.r as real / s), AsU8(c.g as real / s), AsU8(c.b as real / s))
    ensures d == Mul(c, 1.0 / s)
  {
    Color(DivideChannel(c.r, s), DivideChannel(c.g, s), DivideChannel(c.b, s), 255)
  }

  /** `(ch as f32 / s) as u8`: the same byte as the channel scaled by `1 / s`. */
  function DivideChannel(ch: U8, s: real): (d: U8)
    requires s != 0.0
    ensures d == ScaleChannel(ch, 1.0 / s)
  {
    var a := ch as real;
    assert a / s == a * (1.0 / s);
    AsU8(ch as real / s)
  }

  // ---------------------------------------------------------------------------
  // `to_string`: "r g b\n" in decimal, without alpha.

  predicate IsDigit(ch: char) {
    '0' <= ch <= '9'
  }

  predicate AllDigits(s: string) {
    forall i :: 0 <= i < |s| ==> IsDigit(s[i])
  }

  function DigitChar(d: nat): (ch: char)
    requires d < 10
    ensures IsDigit(ch)
  {
    ['0', '1', '2', '3', '4', '5', '6', '7', '8', '9'][d]
  }

  function DigitValue(ch: char): (d: nat)
    requires IsDigit(ch)
    ensures d < 10
  {
    (ch as int) - ('0' as int)
  }

  /** The decimal rendering `{}` gives a natural number, without leading zeros. */
  function Decimal(n: nat): (s: string)
    ensures |s| > 0 && AllDigits(s)
    ensures s[0] == '0' <==> n == 0
    ensures s[0] == '0' ==> s == "0"
    decreases n
  {
    if n < 10 then [DigitChar(n)] else Decimal(n / 10) + [DigitChar(n % 10)]
  }

  /** The value of a string of decimal digits. */
  function DecimalValue(s: string): nat
    requires AllDigits(s)
    decreases |s|
  {
    if s == [] then 0 else DecimalValue(s[..|s| - 1]) * 10 + DigitValue(s[|s| - 1])
  }

  /** `to_string`: the line "r g b\n", which reads back as exactly the
      red, green and blue channels (alpha is not printed). */
  function ToString(c: Color): (s: string)
    ensures ParseRgbLine(s) == Some((c.r as nat, c.g as nat, c.b as nat))
  {
    ParseDigitsLine(Decimal(c.r), Decimal(c.g), Decimal(c.b));
    DecimalRoundTrip(c.r);
    DecimalRoundTrip(c.g);
    DecimalRoundTrip(c.b);
    Decimal(c.r) + " " + Decimal(c.g) + " " + Decimal(c.b) + "\n"
  }

  /** Number of leading decimal digits of `s`. */
  function LeadingDigits(s: string): (k: nat)
    ensures k <= |s| && AllDigits(s[..k])
    ensures k < |s| ==> !IsDigit(s[k])
  {
    if s == [] || !IsDigit(s[0]) then 0
    else
      var k := 1 + LeadingDigits(s[1..]);
      assert s[..k] == [s[0]] + s[1..][..k - 1];
      k
  }

  /** Reads a non-empty run of decimal digits ended by `sep`: its value and
      what follows the separator. */
  function ReadField(s: string, sep: char): Option<(nat, string)> {
    var k := LeadingDigits(s);
    if k == 0 || k == |s| || s[k] != sep then None
    else Some((DecimalValue(s[..k]), s[k + 1..]))
  }

  /** Reads back a line "r g b\n" of three decimal numbers separated by single spaces. */
  function ParseRgbLine(s: string): Option<(nat, nat, nat)> {
    match ReadField(s, ' ')
    case None => None
    case Some((r, s2)) =>
      match ReadField(s2, ' ')
      case None => None
      case Some((g, s3)) =>
        match ReadField(s3, '\n')
        case None => None
        case Some((b, rest)) => if rest == [] then Some((r, g, b)) else None
  }

  /** A variable of type `Color` updated in place by `set_alpha`, `+=` and `-=`. */
  class ColorVar {
    var r: U8
    var g: U8
    var b: U8
    var alpha: U8

    function Value(): Color
      reads this
    {
      Color(r, g, b, alpha)
    }

    constructor (c: Color)
      ensures Value() == c
    {
      r, g, b, alpha := c.r, c.g, c.b, c.alpha;
    }

    /** `set_alpha`: only the alpha channel changes. */
    method SetAlpha(a: U8)
      modifies this
      ensures Value() == old(Value()).(alpha := a)
    {
      alpha := a;
    }

    /** `self += other`: the same colour as `self + other`. */
    method AddAssign(other: Color)
      requires r + other.r <= 255 && g + other.g <= 255 && b + other.b <= 255
      modifies this
      ensures Value() == Add(old(Value()), other)
    {
      r := r + other.r;
      g := g + other.g;
      b := b + other.b;
      alpha := 255;
    }

    /** `self -= other`: the same colour as `self - other`. */
    method SubAssign(other: Color)
      requires other.r <= r && other.g <= g && other.b <= b
      modifies this
      ensures Value() == Sub(old(Value()), other)
    {
      r := r - other.r;
      g := g - other.g;
      b := b - other.b;
      alpha := 255;
    }
  }

  // ---------------------------------------------------------------------------
  // Lemmas

  /** Every named colour is opaque. */
  lemma ConstantsAreOpaque()
    ensures BLACK.alpha == BLUE.alpha == GREEN.alpha == RED.alpha == WHITE.alpha == 255
    ensures YELLOW.alpha == MAGENTA.alpha == CYAN.alpha == GRAY.alpha == 255
  {
  }

  /** Adding then subtracting the same colour restores the RGB channels. */
  lemma AddSubRoundTrip(a: Color, b: Color)
    requires a.r + b.r <= 255 && a.g + b.g <= 255 && a.b + b.b <= 255
    ensures Sub(Add(a, b), b) == Rgb(a.r, a.g, a.b)
  {
  }

  /** Channel-wise addition is commutative. */
  lemma AddCommutes(a: Color, b: Color)
    requires a.r + b.r <= 255 && a.g + b.g <= 255 && a.b + b.b <= 255
    ensures Add(a, b) == Add(b, a)
  {
  }

  /** Scaling by one keeps the RGB channels; by zero gives black. */
  lemma MulByOneAndZero(c: Color)
    ensures Mul(c, 1.0) == Rgb(c.r, c.g, c.b)
    ensures Mul(c, 0.0) == BLACK
  {
  }

  /** A factor in [0, 1] never brightens a channel. */
  lemma MulDarkens(c: Color, s: real)
    requires 0.0 <= s <= 1.0
    ensures Mul(c, s).r <= c.r && Mul(c, s).g <= c.g && Mul(c, s).b <= c.b
  {
    var _ := ScaleChannel(c.r, s);
    var _ := ScaleChannel(c.g, s);
    var _ := ScaleChannel(c.b, s);
  }

  /** A blend `a * (1 - t) + b * t` with `t` in [0, 1] never overflows a
      channel, so the `+` of the blend is always defined. */
  lemma BlendNoOverflow(a: Color, b: Color, t: real)
    requires 0.0 <= t <= 1.0
    ensures Mul(a, 1.0 - t).r + Mul(b, t).r <= 255
    ensures Mul(a, 1.0 - t).g + Mul(b, t).g <= 255
    ensures Mul(a, 1.0 - t).b + Mul(b, t).b <= 255
  {
    BlendChannel(a.r, b.r, t);
    BlendChannel(a.g, b.g, t);
    BlendChannel(a.b, b.b, t);
  }

  lemma BlendChannel(x: U8, y: U8, t: real)
    requires 0.0 <= t <= 1.0
    ensures ScaleChannel(x, 1.0 - t) + ScaleChannel(y, t) <= 255
  {
    CastSumBelow(Scaled(x, 1.0 - t), Scaled(y, t));
  }

  /** White is the identity of `difuse` on the RGB channels. */
  lemma WhiteDifuse(c: Color)
    ensures Difuse(WHITE, c) == Rgb(c.r, c.g, c.b)
  {
  }

  /** Black absorbs everything under `difuse`. */
  lemma BlackDifuse(c: Color)
    ensures Difuse(BLACK, c) == BLACK
  {
  }

  /** The value of the decimal rendering is the number rendered. */
  lemma {:induction false} DecimalRoundTrip(n: nat)
    ensures DecimalValue(Decimal(n)) == n
    decreases n
  {
    if n >= 10 {
      var s := Decimal(n);
      var p := Decimal(n / 10);
      assert s == p + [DigitChar(n % 10)];
      assert s[..|s| - 1] == p;
      DecimalRoundTrip(n / 10);
    }
  }

  lemma LeadingDigitsOf(d: string, rest: string)
    requires AllDigits(d)
    requires rest == [] || !IsDigit(rest[0])
    ensures LeadingDigits(d + rest) == |d|
    decreases |d|
  {
    if d != [] {
      assert (d + rest)[1..] == d[1..] + rest;
      LeadingDigitsOf(d[1..], rest);
    }
  }

  /** A field of digits followed by a non-digit separator reads back as its
      value, leaving exactly what follows the separator. */
  lemma ReadFieldOf(d: string, sep: char, rest: string)
    requires d != [] && AllDigits(d) && !IsDigit(sep)
    ensures ReadField(d + [sep] + rest, sep) == Some((DecimalValue(d), rest))
  {
    var s := d + [sep] + rest;
    assert s == d + ([sep] + rest);
    LeadingDigitsOf(d, [sep] + rest);
    assert s[..|d|] == d;
    assert s[|d| + 1..] == rest;
  }

  /** Three fields read one after the other make up the whole line. */
  lemma ParseOfFields(s: string, s2: string, s3: string, r: nat, g: nat, b: nat)
    requires ReadField(s, ' ') == Some((r, s2))
    requires ReadField(s2, ' ') == Some((g, s3))
    requires ReadField(s3, '\n') == Some((b, []))
    ensures ParseRgbLine(s) == Some((r, g, b))
  {
  }

  lemma LineShape(a: string, b: string, c: string)
    ensures a + " " + b + " " + c + "\n" == a + [' '] + (b + [' '] + (c + ['\n'] + []))
  {
  }

  /** A line of three digit strings separated by single spaces reads back
      as their three values. */
  lemma ParseDigitsLine(a: string, b: string, c: string)
    requires a != [] && AllDigits(a) && b != [] && AllDigits(b) && c != [] && AllDigits(c)
    ensures ParseRgbLine(a + " " + b + " " + c + "\n") == Some((DecimalValue(a), DecimalValue(b), DecimalValue(c)))
  {
    var s3 := c + ['\n'] + [];
    var s2 := b + [' '] + s3;
    LineShape(a, b, c);
    ReadFieldOf(a, ' ', s2);
    ReadFieldOf(b, ' ', s3);
    ReadFieldOf(c, '\n', []);
    ParseOfFields(a + [' '] + s2, s2, s3, DecimalValue(a), DecimalValue(b), DecimalValue(c));
  }

  /** Two colours differing only in alpha print the same line. */
  lemma ToStringIgnoresAlpha(c: Color, a: U8)
    ensures ToString(c.(alpha := a)) == ToString(c)
  {
  }
}

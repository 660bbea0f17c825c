/** The classification of video sizes: Euclid's loop, the reduced ratio, and the resolution shown
    to the user. Sizes are whole pixels; quotients are compared as exact fractions. */
module AspectRatio {
  import opened Options

  datatype Aspect =
    | Widescreen | Vertical | Ultrawide | StandardDefinition | Square | Cinematic | Custom

  datatype Ratio = Ratio(width: nat, height: nat)

  // ---------------------------------------------------------------- greatest common divisors

  function Gcd(a: nat, b: nat): nat
    decreases b
  {
    if b == 0 then a else Gcd(b, a % b)
  }

  method GcdLoop(first: nat, second: nat) returns (a: nat)
    ensures a == Gcd(first, second)
  {
    var b: nat := second;
    a := first;
    while b != 0
      invariant Gcd(a, b) == Gcd(first, second)
      decreases b
    {
      a, b := b, a % b;
    }
  }

  lemma MulOrder(x: nat, y: int, z: int)
    requires y <= z
    ensures x * y <= x * z
  {
  }

  lemma PositiveProduct(x: nat, y: nat)
    requires x * y > 0
    ensures x > 0 && y > 0
  {
  }

  ghost predicate Divides(d: nat, n: nat) {
    exists k: nat :: n == d * k
  }

  lemma DividesSum(d: nat, a: nat, b: nat, q: nat)
    requires Divides(d, a) && Divides(d, b)
    ensures Divides(d, a + b * q)
  {
    var k: nat :| a == d * k;
    var l: nat :| b == d * l;
    assert b * q == d * (l * q);
    assert a + b * q == d * (k + l * q);
  }

  lemma DividesDifference(d: nat, a: nat, b: nat, q: nat)
    requires Divides(d, a + b * q) && Divides(d, b)
    ensures Divides(d, a)
  {
    var k: nat :| a + b * q == d * k;
    var l: nat :| b == d * l;
    assert b * q == d * (l * q);
    assert a == d * (k - l * q);
    if d == 0 {
      assert a == 0 * 0;
    } else {
      NonNegativeFactor(d, k - l * q);
    }
  }

  lemma NonNegativeFactor(d: nat, k: int)
    requires d > 0 && d * k >= 0
    ensures k >= 0
  {
  }

  /** The loop's result divides both numbers, and every common divisor divides it. */
  lemma {:induction false} GcdMeaning(a: nat, b: nat, e: nat)
    ensures Divides(Gcd(a, b), a) && Divides(Gcd(a, b), b)
    ensures Divides(e, a) && Divides(e, b) ==> Divides(e, Gcd(a, b))
    decreases b
  {
    if b == 0 {
      assert a == a * 1 && 0 == a * 0;
    } else {
      var q := a / b;
      GcdMeaning(b, a % b, e);
      assert a == a % b + b * q;
      DividesSum(Gcd(a, b), a % b, b, q);
      if Divides(e, a) && Divides(e, b) {
        DividesDifference(e, a % b, b, q);
      }
    }
  }

  ghost predicate Coprime(p: nat, q: nat) {
    forall e: nat :: Divides(e, p) && Divides(e, q) ==> e == 1
  }

  lemma DividesAtMost(d: nat, n: nat)
    requires Divides(d, n) && n > 0
    ensures 0 < d <= n
  {
    var k: nat :| n == d * k;
    PositiveProduct(d, k);
    MulOrder(d, 1, k);
  }

  /** The number is the divisor times its quotient. */
  lemma ExactQuotient(d: nat, n: nat)
    requires Divides(d, n) && d > 0
    ensures n == d * (n / d)
  {
    var k: nat :| n == d * k;
    QuotientUnique(d, k, n / d, n % d);
  }

  lemma QuotientUnique(d: nat, k: nat, q: nat, r: nat)
    requires d * k == d * q + r && r < d
    ensures r == 0
  {
    if k > q {
      MulOrder(d, q + 1, k);
      assert false;
    }
    MulOrder(d, k, q);
  }

  lemma DividesScaled(d: nat, e: nat, p: nat)
    requires Divides(e, p)
    ensures Divides(d * e, d * p)
  {
    var k: nat :| p == e * k;
    assert d * p == (d * e) * k;
  }

  /** The reduced pair has no common divisor left, and scales back to the size. */
  lemma ReducedIsCoprime(w: nat, h: nat)
    requires w > 0 && h > 0
    ensures var d := Gcd(w, h);
            d > 0 && w == d * (w / d) && h == d * (h / d) && Coprime(w / d, h / d)
  {
    var d := Gcd(w, h);
    GcdMeaning(w, h, 1);
    DividesAtMost(d, w);
    ExactQuotient(d, w);
    ExactQuotient(d, h);
    forall e: nat | Divides(e, w / d) && Divides(e, h / d)
      ensures e == 1
    {
      DividesScaled(d, e, w / d);
      DividesScaled(d, e, h / d);
      GcdMeaning(w, h, d * e);
      DividesAtMost(d * e, d);
      OneFactor(d, e);
    }
  }

  lemma OneFactor(d: nat, e: nat)
    requires 0 < d * e <= d
    ensures e == 1
  {
    PositiveProduct(d, e);
    if e >= 2 {
      MulOrder(d, 2, e);
      assert false;
    }
  }

  /** A coprime pair that is a multiple of another pair is that pair. */
  lemma CoprimeMultiple(p: nat, q: nat, a: nat, b: nat, k: int)
    requires Coprime(p, q) && p == a * k && q == b * k && p > 0
    ensures p == a && q == b
  {
    if k <= 0 {
      MulOrder(a, k, 0);
      assert false;
    }
    var n: nat := k;
    assert p == n * a && q == n * b;
    assert Divides(n, p) && Divides(n, q);
  }

  // ---------------------------------------------------------------- classification

  function Reduced(w: nat, h: nat): Ratio
    requires w > 0 && h > 0
  {
    ReducedIsCoprime(w, h);
    Ratio(w / Gcd(w, h), h / Gcd(w, h))
  }

  function AspectOf(w: nat, h: nat): Aspect
    requires w > 0 && h > 0
  {
    var ratio := Reduced(w, h);
    var quotient := w as real / h as real;
    if ratio == Ratio(16, 9) then Widescreen
    else if ratio == Ratio(9, 16) then Vertical
    else if (w == 2560 || w == 3440) && 2.0 < quotient < 2.5 then Ultrawide
    else if ratio == Ratio(4, 3) then StandardDefinition
    else if ratio == Ratio(1, 1) then Square
    else if quotient > 16.0 / 9.0 then Cinematic
    else Custom
  }

  /** Sizes that are not positive are refused. */
  method GetAspectRatio(w: int, h: int) returns (aspect: Option<Aspect>)
    ensures aspect.None? <==> w <= 0 || h <= 0
    ensures w > 0 && h > 0 ==> aspect == Some(AspectOf(w, h))
  {
    if w <= 0 || h <= 0 {
      return None;
    }
    var divisor := GcdLoop(w, h);
    ReducedIsCoprime(w, h);
    var ratio := Ratio(w / divisor, h / divisor);
    var quotient := w as real / h as real;
    if ratio == Ratio(16, 9) {
      aspect := Some(Widescreen);
    } else if ratio == Ratio(9, 16) {
      aspect := Some(Vertical);
    } else if (w == 2560 || w == 3440) && quotient > 2.0 && quotient < 2.5 {
      aspect := Some(Ultrawide);
    } else if ratio == Ratio(4, 3) {
      aspect := Some(StandardDefinition);
    } else if ratio == Ratio(1, 1) {
      aspect := Some(Square);
    } else if quotient > 16.0 / 9.0 {
      aspect := Some(Cinematic);
    } else {
      aspect := Some(Custom);
    }
  }

  // 16 * 4 - 9 * 7 == 1 and 4 - 3 == 1 give the factor that both numbers are multiples by.

  lemma ReducedTo(w: nat, h: nat, a: nat, b: nat, u: int, v: int)
    requires w > 0 && h > 0
    requires a * u - b * v == 1
    ensures Reduced(w, h) == Ratio(a, b) <==> w * b == h * a
  {
    ReducedIsCoprime(w, h);
    SameRatio(Gcd(w, h), Reduced(w, h).width, Reduced(w, h).height, w, h, a, b, u, v);
  }

  /** A size that is `d` times a coprime pair has the ratio of another pair exactly if the pairs
      are equal. */
  lemma SameRatio(d: nat, p: nat, q: nat, w: nat, h: nat, a: nat, b: nat, u: int, v: int)
    requires w == d * p && h == d * q && w > 0 && Coprime(p, q)
    requires a * u - b * v == 1
    ensures p == a && q == b <==> w * b == h * a
  {
    PositiveProduct(d, p);
    Regroup(d, p, b);
    Regroup(d, q, a);
    if w * b == h * a {
      CancelFactor(d, p * b, q * a);
      BezoutFactor(p, q, a, b, u, v);
      CoprimeMultiple(p, q, a, b, u * p - v * q);
    }
  }

  lemma Regroup(x: int, y: int, z: int)
    ensures (x * y) * z == x * (y * z)
  {
  }

  lemma CancelFactor(d: nat, x: nat, y: nat)
    requires d > 0 && d * x == d * y
    ensures x == y
  {
  }

  lemma BezoutFactor(p: nat, q: nat, a: nat, b: nat, u: int, v: int)
    requires a * u - b * v == 1 && p * b == q * a
    ensures p == a * (u * p - v * q) && q == b * (u * p - v * q)
  {
    assert a * (u * p - v * q) == (a * u) * p - v * (q * a);
    assert v * (p * b) == (b * v) * p;
    assert b * (u * p - v * q) == u * (p * b) - (b * v) * q;
    assert u * (q * a) == (a * u) * q;
  }

  /** The labels are exact cross-multiplications. */
  lemma LabelsAreExact(w: nat, h: nat)
    requires w > 0 && h > 0
    ensures AspectOf(w, h).Widescreen? <==> 9 * w == 16 * h
    ensures AspectOf(w, h).Vertical? <==> 16 * w == 9 * h
    ensures AspectOf(w, h).StandardDefinition? <==> 3 * w == 4 * h
    ensures AspectOf(w, h).Square? <==> w == h
    ensures AspectOf(w, h).Ultrawide? <==> (w == 2560 || w == 3440) && 2 * h < w && 2 * w < 5 * h
    ensures AspectOf(w, h).Cinematic? <==> 9 * w > 16 * h && !AspectOf(w, h).Ultrawide?
  {
    ReducedTo(w, h, 16, 9, 4, 7);
    ReducedTo(w, h, 9, 16, -7, -4);
    ReducedTo(w, h, 4, 3, 1, 1);
    ReducedTo(w, h, 1, 1, 1, 0);
    Compare(w, h);
  }

  lemma Compare(w: nat, h: nat)
    requires h > 0
    ensures w as real / h as real > 2.0 <==> w > 2 * h
    ensures w as real / h as real < 2.5 <==> 2 * w < 5 * h
    ensures w as real / h as real > 16.0 / 9.0 <==> 9 * w > 16 * h
  {
    var x, y := w as real, h as real;
    assert (x / y) * y == x;
    QuotientAbove(x, y, 2.0);
    QuotientBelow(x, y, 2.5);
    QuotientAbove(x, y, 16.0 / 9.0);
    assert 9.0 * (16.0 / 9.0) == 16.0;
  }

  lemma QuotientAbove(x: real, y: real, c: real)
    requires y > 0.0
    ensures x / y > c <==> x > c * y
  {
    var q := x / y;
    assert q * y == x;
    if q > c {
      assert (q - c) * y > 0.0;
    } else {
      assert (c - q) * y >= 0.0;
    }
  }

  lemma QuotientBelow(x: real, y: real, c: real)
    requires y > 0.0
    ensures x / y < c <==> x < c * y
  {
    var q := x / y;
    assert q * y == x;
    if q < c {
      assert (c - q) * y > 0.0;
    } else {
      assert (q - c) * y >= 0.0;
    }
  }

  // ---------------------------------------------------------------- resolution labels

  function CinematicLabel(w: nat): Option<nat> {
    if w >= 8192 then Some(4320)
    else if w >= 6144 then Some(3456)
    else if w >= 5120 then Some(2880)
    else if w >= 3840 then Some(2160)
    else if w >= 3072 then Some(1728)
    else if w >= 2560 then Some(1440)
    else if w >= 1920 then Some(1080)
    else if w >= 1280 then Some(720)
    else None
  }

  function OtherLabel(w: nat, h: nat, aspect: Aspect): nat {
    if w >= 8192 then 4320
    else if w >= 6144 then if aspect.StandardDefinition? then 4320 else 3456
    else if w >= 5120 then 2880
    else if w >= 4096 then 2304
    else if w >= 3072 then 1728
    else if w >= 1920 && h >= 1440 then 1080
    else if h >= 2160 then 2160
    else if h >= 1440 then 1440
    else if h >= 1080 then 1080
    else if h >= 720 then 720
    else h
  }

  function LabelOf(w: nat, h: nat): nat
    requires w > 0 && h > 0
  {
    var aspect := AspectOf(w, h);
    if aspect.Widescreen? || aspect.Ultrawide? then h
    else if aspect.Vertical? then w
    else if aspect.Cinematic? && CinematicLabel(w).Some? then CinematicLabel(w).value
    else OtherLabel(w, h, aspect)
  }

  method GetFriendlyResolutionLabel(w: int, h: int) returns (resolution: Option<nat>)
    ensures resolution.None? <==> w <= 0 || h <= 0
    ensures w > 0 && h > 0 ==> resolution == Some(LabelOf(w, h))
  {
    var aspect := GetAspectRatio(w, h);
    if aspect.None? {
      return None;
    }
    match aspect.value
    case Widescreen => resolution := Some(h);
    case Vertical => resolution := Some(w);
    case Ultrawide => resolution := Some(h);
    case Cinematic =>
      resolution := CinematicLabel(w);
      if resolution.None? {
        resolution := Some(OtherLabel(w, h, aspect.value));
      }
    case _ => resolution := Some(OtherLabel(w, h, aspect.value));
  }

  /** Any 16:9 size is labelled by its height and any 9:16 size by its width. */
  lemma ExactSizes(k: nat)
    requires k > 0
    ensures LabelOf(16 * k, 9 * k) == 9 * k
    ensures LabelOf(9 * k, 16 * k) == 9 * k
  {
    LabelsAreExact(16 * k, 9 * k);
    LabelsAreExact(9 * k, 16 * k);
  }

  /** Of two square videos the larger one gets the smaller label exactly in one range: the smaller
      has at least 1440 but less than 1920 pixels, the larger at least 1920 but less than 3072. */
  lemma LargerSquareSmallerLabel(n: nat, m: nat)
    requires 0 < n < m
    ensures LabelOf(m, m) < LabelOf(n, n) <==> 1440 <= n < 1920 <= m < 3072
  {
    LabelsAreExact(n, n);
    LabelsAreExact(m, m);
  }

  /** A label is one of the sizes of the table, or a side of the video. */
  lemma LabelRange(w: nat, h: nat)
    requires w > 0 && h > 0
    ensures LabelOf(w, h) in {720, 1080, 1440, 1728, 2160, 2304, 2880, 3456, 4320} ||
            LabelOf(w, h) == h || (LabelOf(w, h) == w && 16 * w == 9 * h)
  {
    LabelsAreExact(w, h);
  }

  const CINEMATIC_LABELS: set<nat> := {720, 1080, 1440, 1728, 2160, 2880, 3456, 4320}
  const WIDE_LABELS: set<nat> := {1728, 2304, 2880, 3456, 4320}
  const HEIGHT_LABELS: set<nat> := {720, 1080, 1440, 2160}

  /** A 16:9 video of that width is as high as the size; for 4320 the width must be 8192 at least. */
  predicate Reaches(w: nat, size: nat) {
    16 * size <= 9 * w && (size == 4320 ==> w >= 8192)
  }

  ghost predicate BestForWidth(size: nat, sizes: set<nat>, w: nat) {
    size in sizes && Reaches(w, size) && forall other :: other in sizes && Reaches(w, other) ==> other <= size
  }

  /** A cinematic video is labelled by its width, as one of 16:9 would be, and a small one by its
      height. */
  lemma CinematicLabelExactly(w: nat, h: nat)
    requires w > 0 && h > 0 && AspectOf(w, h).Cinematic?
    ensures w >= 1280 ==> BestForWidth(LabelOf(w, h), CINEMATIC_LABELS, w)
    ensures w < 1280 ==> LabelOf(w, h) == h
  {
    LabelsAreExact(w, h);
  }

  /** Any other size without a side of its own as label: from 3072 pixels on it is labelled by its width,
      except that large ones of 4:3 all are 4320; below that by its height, except that 1920 by 1440 and
      more are 1080. */
  lemma OtherLabelExactly(w: nat, h: nat)
    requires w > 0 && h > 0
    requires AspectOf(w, h).StandardDefinition? || AspectOf(w, h).Square? || AspectOf(w, h).Custom?
    ensures w >= 3072 && !(w >= 6144 && AspectOf(w, h).StandardDefinition?) ==>
              BestForWidth(LabelOf(w, h), WIDE_LABELS, w)
    ensures w >= 6144 && AspectOf(w, h).StandardDefinition? ==> LabelOf(w, h) == 4320
    ensures 1920 <= w < 3072 && h >= 1440 ==> LabelOf(w, h) == 1080
    ensures w < 3072 && !(w >= 1920 && h >= 1440) && h >= 720 ==>
              && LabelOf(w, h) in HEIGHT_LABELS && LabelOf(w, h) <= h
              && forall other :: other in HEIGHT_LABELS && other <= h ==> other <= LabelOf(w, h)
    ensures w < 3072 && h < 720 ==> LabelOf(w, h) == h
  {
  }

  /** The remaining sizes are labelled by a side. */
  lemma SideLabelExactly(w: nat, h: nat)
    requires w > 0 && h > 0
    ensures 9 * w == 16 * h || ((w == 2560 || w == 3440) && 2 * h < w && 2 * w < 5 * h) ==> LabelOf(w, h) == h
    ensures 16 * w == 9 * h ==> LabelOf(w, h) == w
  {
    LabelsAreExact(w, h);
  }
}

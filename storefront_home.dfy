/**
 * The pure calculations of the storefront home page: the promo countdown's
 * unit conversion, the star rows of product and review cards, and the text
 * shown when adding to the cart fails.
 */
module StorefrontHome {
  import opened Wrappers

  // ---------------------------------------------------------------------------
  // Promo countdown: timer()
  // ---------------------------------------------------------------------------

  const MsPerSecond := 1000
  const MsPerMinute := 60000
  const MsPerHour := 3600000
  const MsPerDay := 86400000

  /**
   * JavaScript's `%` for a positive divisor: it truncates toward zero, so the
   * remainder takes the sign of the dividend (Dafny's `%` never goes negative).
   */
  function JsRem(a: int, n: int): (r: int)
    requires n > 0
    ensures -n < r < n
    ensures a >= 0 ==> r >= 0
    ensures a <= 0 ==> r <= 0
    ensures a == n * JsTrunc(a, n) + r
  {
    if a >= 0 then a % n else -((-a) % n)
  }

  /** `Math.trunc(a / n)`, the quotient that goes with `JsRem`. */
  function JsTrunc(a: int, n: int): int
    requires n > 0
  {
    if a >= 0 then a / n else -((-a) / n)
  }

  /** What the four countdown boxes show. */
  datatype Countdown = Countdown(days: int, hours: int, minutes: int, seconds: int)

  /**
   * One tick of `timer()` for a distance of `distance` milliseconds to the end
   * of the promotion. `Math.floor` of the quotient is Dafny's `/` for a
   * positive divisor; the `% 24` and `% 60` are JavaScript's.
   */
  function Timer(distance: int): (c: Countdown)
    ensures distance >= 0 ==> c.days >= 0 && InRange(c)
    ensures distance < 0 ==> c.days < 0 && c.hours <= 0 && c.minutes <= 0 && c.seconds <= 0
    ensures -24 < c.hours < 24 && -60 < c.minutes < 60 && -60 < c.seconds < 60
  {
    Countdown(
      distance / MsPerDay,
      JsRem(distance / MsPerHour, 24),
      JsRem(distance / MsPerMinute, 60),
      JsRem(distance / MsPerSecond, 60))
  }

  /** The fields written out in seconds. */
  function CountdownSeconds(c: Countdown): int {
    c.days * 86400 + c.hours * 3600 + c.minutes * 60 + c.seconds
  }

  predicate InRange(c: Countdown) {
    0 <= c.hours < 24 && 0 <= c.minutes < 60 && 0 <= c.seconds < 60
  }

  /** Flooring by two steps is flooring once by the product of the divisors. */
  lemma FloorDivTwice(a: int, b: int, c: int)
    requires b > 0 && c > 0
    ensures a / b / c == a / (b * c)
  {
    var q, r1 := a / b, a % b;
    var q2, r2 := q / c, q % c;
    var r := b * r2 + r1;
    assert a == (b * c) * q2 + r by {
      MulDistributes(b, c * q2, r2);
      MulAssociates(b, c, q2);
    }
    assert 0 <= r < b * c by {
      MulMonotone(b, 0, r2);
      MulMonotone(b, r2, c - 1);
      MulDistributes(b, c, -1);
    }
    DivUnique(a, b * c, q2, r);
  }

  lemma MulDistributes(m: int, x: int, y: int)
    ensures m * (x + y) == m * x + m * y
  {
  }

  lemma MulAssociates(x: int, y: int, z: int)
    ensures x * (y * z) == (x * y) * z
  {
  }

  lemma DivUnique(a: int, m: int, q: int, r: int)
    requires m > 0 && 0 <= r < m && a == m * q + r
    ensures a / m == q
  {
    var q' := a / m;
    if q' < q {
      MulMonotone(m, q' + 1, q);
      assert false;
    } else if q < q' {
      MulMonotone(m, q + 1, q');
      assert false;
    }
  }

  lemma MulMonotone(m: int, x: int, y: int)
    requires m > 0 && x <= y
    ensures m * x <= m * y
  {
    assert m * y - m * x == m * (y - x);
  }

  /** Every field depends on the whole seconds of the distance only. */
  lemma {:induction false} TimerOfWholeSeconds(distance: int)
    ensures var s := distance / MsPerSecond;
            Timer(distance) == Countdown(s / 86400, JsRem(s / 3600, 24), JsRem(s / 60, 60), JsRem(s, 60))
  {
    FloorDivTwice(distance, 1000, 86400);
    FloorDivTwice(distance, 1000, 3600);
    FloorDivTwice(distance, 1000, 60);
  }

  /** The sub-second remainder is discarded: two distances within the same whole second show the same countdown. */
  lemma TimerIgnoresMilliseconds(d1: int, d2: int)
    requires d1 / MsPerSecond == d2 / MsPerSecond
    ensures Timer(d1) == Timer(d2)
  {
    TimerOfWholeSeconds(d1);
    TimerOfWholeSeconds(d2);
  }

  /**
   * Before the promotion ends the countdown is days, hours, minutes and
   * seconds in their usual ranges, together exactly the whole seconds left;
   * and it is the only split of those seconds with these ranges.
   */
  lemma TimerSplitsRemainingTime(distance: int, c: Countdown)
    requires distance >= 0
    ensures Timer(distance) == c <==> InRange(c) && c.days >= 0 && CountdownSeconds(c) == distance / MsPerSecond
  {
    TimerInRange(distance);
    if InRange(c) && c.days >= 0 && CountdownSeconds(c) == distance / MsPerSecond {
      SplitIsUnique(distance / MsPerSecond, c);
      TimerOfWholeSeconds(distance);
    }
  }

  lemma TimerInRange(distance: int)
    requires distance >= 0
    ensures var t := Timer(distance);
            InRange(t) && t.days >= 0 && CountdownSeconds(t) == distance / MsPerSecond
  {
    TimerOfWholeSeconds(distance);
    var s := distance / MsPerSecond;
    FloorDivTwice(s, 60, 60);
    FloorDivTwice(s, 3600, 24);
    assert Timer(distance) == Countdown(s / 86400, (s / 3600) % 24, (s / 60) % 60, s % 60);
  }

  lemma SplitIsUnique(s: int, c: Countdown)
    requires InRange(c) && c.days >= 0 && CountdownSeconds(c) == s
    ensures c == Countdown(s / 86400, JsRem(s / 3600, 24), JsRem(s / 60, 60), JsRem(s, 60))
  {
    var m := c.days * 1440 + c.hours * 60 + c.minutes;
    var h := c.days * 24 + c.hours;
    DivUnique(s, 60, m, c.seconds);
    DivUnique(s, 3600, h, c.minutes * 60 + c.seconds);
    DivUnique(s, 86400, c.days, c.hours * 3600 + c.minutes * 60 + c.seconds);
    ModOfDivUnique(m, 60, h, c.minutes);
    ModOfDivUnique(h, 24, c.days, c.hours);
    ModOfDivUnique(s, 60, m, c.seconds);
  }

  lemma ModOfDivUnique(a: int, m: int, q: int, r: int)
    requires m > 0 && 0 <= r < m && a == m * q + r
    ensures a % m == r
  {
    DivUnique(a, m, q, r);
  }

  /**
   * Nothing clamps the countdown once the promotion has ended: the days go
   * negative and the other fields are zero or negative, so one millisecond
   * after the end every box shows -1.
   */
  lemma TimerAfterExpiry(distance: int)
    requires distance < 0
    ensures var c := Timer(distance);
            c.days < 0 && c.hours <= 0 && c.minutes <= 0 && c.seconds <= 0
    ensures -MsPerSecond <= distance ==> Timer(distance) == Countdown(-1, -1, -1, -1)
  {
  }

  // ---------------------------------------------------------------------------
  // Star rows
  // ---------------------------------------------------------------------------

  /** `fas fa-star`, `fas fa-star-half-alt`, `far fa-star`. */
  datatype StarIcon = FullStar | HalfStar | EmptyStar

  /** How filled an icon is, for comparing rows. */
  function Fill(s: StarIcon): int {
    match s
    case FullStar => 2
    case HalfStar => 1
    case EmptyStar => 0
  }

  /** `$product->reviews_avg_rating ?? 0`. */
  function ProductRating(avg: Option<real>): (r: real)
    ensures avg.None? ==> r == 0.0
    ensures avg.Some? ==> r == avg.value
  {
    avg.GetOr(0.0)
  }

  /** Icon `i` (1 to 5) of a product card. */
  function ProductStar(rating: real, i: int): (s: StarIcon)
    ensures s == FullStar <==> i as real <= rating
    ensures s == HalfStar <==> i as real - 0.5 <= rating < i as real
    ensures s == EmptyStar <==> rating < i as real - 0.5
  {
    if i <= rating.Floor then FullStar
    else if (i as real) - 0.5 <= rating then HalfStar
    else EmptyStar
  }

  /** The `@for ($i = 1; $i <= 5; $i++)` row of a product card. */
  function ProductStars(avg: Option<real>): (stars: seq<StarIcon>)
    ensures |stars| == 5
  {
    var rating := ProductRating(avg);
    seq(5, k requires 0 <= k < 5 => ProductStar(rating, k + 1))
  }

  function Clamp(x: int, lo: int, hi: int): int
    requires lo <= hi
  {
    if x < lo then lo else if x > hi then hi else x
  }

  /** Number of full stars for a rating: its floor, kept within 0 to 5. */
  function FullCount(rating: real): int {
    Clamp(rating.Floor, 0, 5)
  }

  /** Whether a half star follows the full ones: a fraction of at least one half, and room left in the row. */
  function HalfCount(rating: real): int {
    if 0 <= rating.Floor < 5 && rating - rating.Floor as real >= 0.5 then 1 else 0
  }

  /**
   * A product row is some full stars, then at most one half star, then empty
   * stars: full up to the floor of the rating, a half star after them when the
   * fraction is at least .5.
   */
  lemma ProductStarsShape(avg: Option<real>)
    ensures var r := ProductRating(avg);
            var f, h := FullCount(r), HalfCount(r);
            && 0 <= f && 0 <= h <= 1 && f + h <= 5
            && forall i :: 0 <= i < 5 ==>
                 ProductStars(avg)[i] == if i < f then FullStar else if i < f + h then HalfStar else EmptyStar
  {
    var r := ProductRating(avg);
    var fl := r.Floor;
    forall i | 0 <= i < 5
      ensures ProductStars(avg)[i] == if i < FullCount(r) then FullStar else if i < FullCount(r) + HalfCount(r) then HalfStar else EmptyStar
    {
      assert ProductStars(avg)[i] == ProductStar(r, i + 1);
      assert fl as real <= r < fl as real + 1.0;
    }
  }

  /** No rating and a rating of 0 give five empty stars; a rating of 5 or more gives five full stars. */
  lemma ProductStarsExtremes(avg: Option<real>)
    ensures avg.None? || avg == Some(0.0) ==> ProductStars(avg) == [EmptyStar, EmptyStar, EmptyStar, EmptyStar, EmptyStar]
    ensures avg.Some? && avg.value >= 5.0 ==> ProductStars(avg) == [FullStar, FullStar, FullStar, FullStar, FullStar]
  {
    ProductStarsShape(avg);
  }

  /** A higher rating never shows a less filled icon at any position. */
  lemma ProductStarsMonotone(r1: real, r2: real)
    requires r1 <= r2
    ensures forall i :: 0 <= i < 5 ==> Fill(ProductStars(Some(r1))[i]) <= Fill(ProductStars(Some(r2))[i])
  {
    forall i | 0 <= i < 5 ensures Fill(ProductStars(Some(r1))[i]) <= Fill(ProductStars(Some(r2))[i]) {
      assert ProductStars(Some(r1))[i] == ProductStar(r1, i + 1);
      assert ProductStars(Some(r2))[i] == ProductStar(r2, i + 1);
      assert r1.Floor <= r2.Floor;
    }
  }

  /** The review card row: star `i` (1 to 5) is highlighted when `i <= $review->rating`. */
  function ReviewStars(rating: int): (lit: seq<bool>)
    ensures |lit| == 5
  {
    seq(5, k requires 0 <= k < 5 => k + 1 <= rating)
  }

  function CountLit(s: seq<bool>): nat {
    if s == [] then 0 else (if s[0] then 1 else 0) + CountLit(s[1..])
  }

  lemma {:induction false} CountLitPrefix(s: seq<bool>, c: int)
    requires 0 <= c <= |s|
    requires forall i :: 0 <= i < |s| ==> (s[i] <==> i < c)
    ensures CountLit(s) == c
  {
    if s != [] {
      CountLitPrefix(s[1..], if c > 0 then c - 1 else 0);
    }
  }

  /** The highlighted review stars come first, and there are as many as the rating kept within 0 to 5. */
  lemma ReviewStarsHighlighted(rating: int)
    ensures CountLit(ReviewStars(rating)) == Clamp(rating, 0, 5)
    ensures forall i, j :: 0 <= i < j < 5 && ReviewStars(rating)[j] ==> ReviewStars(rating)[i]
  {
    CountLitPrefix(ReviewStars(rating), Clamp(rating, 0, 5));
  }

  // ---------------------------------------------------------------------------
  // Add-to-cart failure message
  // ---------------------------------------------------------------------------

  const AddToCartFailed := "Gagal menambahkan produk ke keranjang"
  const OutOfStock := "Stok produk tidak tersedia"

  /** The parsed JSON body of a failed response; `message` is None when absent or null. */
  datatype ErrorBody = ErrorBody(message: Option<string>)

  /**
   * What reaches the `.catch`: the `{status, data}` object thrown for a
   * response that is not ok (data None when the body is JSON null), or any
   * other error (network failure, unparsable body), which has no status.
   */
  datatype CartFailure = HttpFailure(status: int, data: Option<ErrorBody>) | OtherFailure

  /** JavaScript truthiness of `error.data.message` for a string: present and non-empty. */
  predicate HasMessage(data: Option<ErrorBody>) {
    data.Some? && data.value.message.Some? && data.value.message.value != ""
  }

  /** The text of the error popup after a failed add-to-cart request. */
  function AddToCartErrorMessage(e: CartFailure): (msg: string)
    ensures msg != ""
    ensures !(e.HttpFailure? && e.status == 422) ==> msg == AddToCartFailed
    ensures e.HttpFailure? && e.status == 422 && HasMessage(e.data) ==> msg == e.data.value.message.value
    ensures e.HttpFailure? && e.status == 422 && !HasMessage(e.data) ==> msg == OutOfStock
  {
    if e.HttpFailure? && e.status == 422 then
      if HasMessage(e.data) then e.data.value.message.value else OutOfStock
    else AddToCartFailed
  }
}

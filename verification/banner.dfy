/** The home-page banner: a slideshow over a fixed list of slides whose only
    state is the index of the slide on show. It advances on an autoplay tick,
    moves with the previous/next arrows, and jumps when a dot is clicked.
    The slide count is the parameter `n`; the component's own list has three. */
module Banner {

  datatype Slide = Slide(
    id: nat,
    desktopImage: string,
    mobileImage: string,
    title: string,
    primaryLabel: string,
    secondaryLabel: string)

  /** The component's slides, in display order. */
  const Slides: seq<Slide> := [
    Slide(1, "banner1", "banner1", "Freshness You Can Trust, Savings You will Love!", "Shop Now", "Explore Deals"),
    Slide(2, "banner2", "banner2", "Discover Amazing Deals on Fresh Products!", "Shop Now", "View Offers"),
    Slide(3, "banner3", "banner3", "Quality Products at Unbeatable Prices!", "Shop Now", "Browse All")
  ]

  /** The index of the slide on show. It is an `int` because a dot click stores
      whatever index it is given without checking it. */
  datatype BannerState = BannerState(current: int)

  datatype BannerEvent =
    | AutoplayTick
    | NextClick
    | PreviousClick
    | DotClick(index: int)

  const Initial: BannerState := BannerState(0)

  predicate Valid(n: nat, s: BannerState) {
    0 <= s.current < n
  }

  /** The events the rendered controls can produce: dots are only drawn for 0 .. n-1. */
  predicate Offered(n: nat, e: BannerEvent) {
    e.DotClick? ==> 0 <= e.index < n
  }

  /** The quotient of JavaScript's integer division, truncated toward zero. */
  function JsQuot(a: int, n: int): int
    requires n > 0
  {
    if a >= 0 then a / n else -((-a) / n)
  }

  /** JavaScript's `%`: the remainder of the truncated quotient, so it takes the
      sign of the dividend and satisfies the division identity with `JsQuot`. */
  function JsRem(a: int, n: int): (r: int)
    requires n > 0
    ensures a >= 0 ==> 0 <= r < n
    ensures a < 0 ==> -n < r <= 0
    ensures 0 <= a < 2 * n ==> r == if a < n then a else a - n
    ensures -n < a < 0 ==> r == a
    ensures a == JsQuot(a, n) * n + r
  {
    if a >= 0 then
      SmallRemainder(a, n);
      a % n
    else
      NegativeRemainder(a, n);
      -((-a) % n)
  }

  lemma SmallRemainder(a: int, n: int)
    requires 0 <= a && 0 < n
    ensures 0 <= a % n < n
    ensures a < n ==> a % n == a
    ensures n <= a < 2 * n ==> a % n == a - n
    ensures a == (a / n) * n + a % n
  {
  }

  lemma NegativeRemainder(a: int, n: int)
    requires a < 0 && 0 < n
    ensures 0 <= (-a) % n < n
    ensures -n < a ==> (-a) % n == -a
    ensures a == -((-a) / n) * n - (-a) % n
  {
    SmallRemainder(-a, n);
  }

  /** The "next" arrow's update `(prev + 1) % n`. */
  function Next(n: nat, i: int): (r: int)
    requires n > 0
    ensures 0 <= i < n ==> 0 <= r < n
    ensures 0 <= i < n ==> r == if i == n - 1 then 0 else i + 1
  {
    JsRem(i + 1, n)
  }

  /** The "previous" arrow's update `(prev - 1 + n) % n`. */
  function Previous(n: nat, i: int): (r: int)
    requires n > 0
    ensures 0 <= i < n ==> 0 <= r < n
    ensures 0 <= i < n ==> r == if i == 0 then n - 1 else i - 1
  {
    JsRem(i - 1 + n, n)
  }

  /** The autoplay interval's update, written out as the component writes it. */
  function Tick(n: nat, i: int): (r: int)
    requires n > 0
    ensures 0 <= i < n ==> 0 <= r < n
    ensures 0 <= i < n ==> r == if i == n - 1 then 0 else i + 1
  {
    JsRem(i + 1, n)
  }

  /** One event applied to the banner. */
  function Step(n: nat, s: BannerState, e: BannerEvent): (r: BannerState)
    requires n > 0
    ensures Valid(n, s) && Offered(n, e) ==> Valid(n, r)
    ensures e.DotClick? ==> r.current == e.index
  {
    match e
    case AutoplayTick => BannerState(Tick(n, s.current))
    case NextClick => BannerState(Next(n, s.current))
    case PreviousClick => BannerState(Previous(n, s.current))
    case DotClick(k) => BannerState(k)
  }

  /** Events applied in order. */
  function Run(n: nat, s: BannerState, es: seq<BannerEvent>): BannerState
    requires n > 0
    decreases |es|
  {
    if |es| == 0 then s else Run(n, Step(n, s, es[0]), es[1..])
  }

  /** Whether dot `index` is drawn as the active one. */
  predicate DotActive(s: BannerState, index: int) {
    s.current == index
  }

  /** `Next` applied `k` times. */
  function NextTimes(n: nat, k: nat, i: int): int
    requires n > 0
  {
    if k == 0 then i else Next(n, NextTimes(n, k - 1, i))
  }

  /** `Previous` applied `k` times. */
  function PreviousTimes(n: nat, k: nat, i: int): int
    requires n > 0
  {
    if k == 0 then i else Previous(n, PreviousTimes(n, k - 1, i))
  }

  lemma SlidesShape()
    ensures |Slides| == 3
    ensures forall i, j :: 0 <= i < j < |Slides| ==> Slides[i].id != Slides[j].id
  {
  }

  lemma InitialIsValid(n: nat)
    requires n > 0
    ensures Valid(n, Initial)
    ensures DotActive(Initial, 0)
  {
  }

  lemma TickIsNext(n: nat, s: BannerState)
    requires n > 0
    ensures Step(n, s, AutoplayTick) == Step(n, s, NextClick)
  {
  }

  lemma PreviousUndoesNext(n: nat, i: int)
    requires n > 0 && 0 <= i < n
    ensures Previous(n, Next(n, i)) == i
  {
  }

  lemma NextUndoesPrevious(n: nat, i: int)
    requires n > 0 && 0 <= i < n
    ensures Next(n, Previous(n, i)) == i
  {
  }

  /** `k <= n` steps forward from a valid index add `k`, wrapping once past the end. */
  lemma {:induction false} NextTimesShift(n: nat, k: nat, i: int)
    requires n > 0 && 0 <= i < n && k <= n
    ensures NextTimes(n, k, i) == if i + k < n then i + k else i + k - n
  {
    if k > 0 {
      NextTimesShift(n, k - 1, i);
    }
  }

  /** `k <= n` steps back from a valid index subtract `k`, wrapping once past the start. */
  lemma {:induction false} PreviousTimesShift(n: nat, k: nat, i: int)
    requires n > 0 && 0 <= i < n && k <= n
    ensures PreviousTimes(n, k, i) == if i - k >= 0 then i - k else i - k + n
  {
    if k > 0 {
      PreviousTimesShift(n, k - 1, i);
    }
  }

  /** `n` clicks on "next", or `n` autoplay ticks, come back to the starting slide. */
  lemma {:induction false} NextCycle(n: nat, i: int)
    requires n > 0 && 0 <= i < n
    ensures NextTimes(n, n, i) == i
  {
    NextTimesShift(n, n, i);
  }

  /** No positive number of forward steps smaller than `n` returns to the starting slide. */
  lemma {:induction false} NextCycleIsShortest(n: nat, i: int, k: nat)
    requires n > 0 && 0 <= i < n && 0 < k < n
    ensures NextTimes(n, k, i) != i
  {
    NextTimesShift(n, k, i);
  }

  /** `n` clicks on "previous" come back to the starting slide. */
  lemma {:induction false} PreviousCycle(n: nat, i: int)
    requires n > 0 && 0 <= i < n
    ensures PreviousTimes(n, n, i) == i
  {
    PreviousTimesShift(n, n, i);
  }

  /** No positive number of backward steps smaller than `n` returns to the starting slide. */
  lemma {:induction false} PreviousCycleIsShortest(n: nat, i: int, k: nat)
    requires n > 0 && 0 <= i < n && 0 < k < n
    ensures PreviousTimes(n, k, i) != i
  {
    PreviousTimesShift(n, k, i);
  }

  /** A dot click makes exactly that dot the active one. */
  lemma DotClickSelects(n: nat, s: BannerState, k: int)
    requires n > 0 && 0 <= k < n
    ensures Valid(n, Step(n, s, DotClick(k)))
    ensures forall d :: 0 <= d < n ==> (DotActive(Step(n, s, DotClick(k)), d) <==> d == k)
  {
  }

  /** On a valid index exactly one of the `n` dots is active; on an invalid one, none is. */
  lemma ExactlyOneActiveDot(n: nat, s: BannerState)
    ensures Valid(n, s) ==> (set d | 0 <= d < n && DotActive(s, d)) == {s.current}
    ensures !Valid(n, s) ==> (set d | 0 <= d < n && DotActive(s, d)) == {}
  {
    var active := set d | 0 <= d < n && DotActive(s, d);
    if Valid(n, s) {
      assert s.current in active;
    } else {
      assert forall d :: d in active ==> d == s.current;
    }
  }

  /** Starting on a valid slide, any sequence of events the controls can produce
      keeps the index valid. */
  lemma {:induction false} RunStaysValid(n: nat, s: BannerState, es: seq<BannerEvent>)
    requires n > 0 && Valid(n, s)
    requires forall i :: 0 <= i < |es| ==> Offered(n, es[i])
    ensures Valid(n, Run(n, s, es))
    decreases |es|
  {
    if |es| > 0 {
      RunStaysValid(n, Step(n, s, es[0]), es[1..]);
    }
  }

  /** A dot click with an index outside the slides leaves the banner on no slide at
      all, and the arrows then produce the JavaScript remainder of that index. */
  lemma OutOfRangeDotClick()
    ensures !Valid(|Slides|, Step(|Slides|, Initial, DotClick(-5)))
    ensures Next(|Slides|, -5) == -1
  {
  }
}

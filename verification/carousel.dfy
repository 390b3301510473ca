/**
 * The site's carousels. Three kinds appear: clamped arrow steps over a row of
 * cards (the home page's service and guide rows, the services page and the
 * partners page) kept in step with the scroll position; the testimonial pager,
 * which moves a page start by the number of cards per page and wraps at both
 * ends; and the about page's image rotator, which steps modulo three.
 */
module Carousel {

  /** An index into a row of `count` cards. */
  predicate InRange(active: int, count: int) {
    0 <= active < count
  }

  function Min(a: int, b: int): int {
    if a <= b then a else b
  }

  /** Euclidean division bounds the quotient from both sides. */
  lemma DivBounds(x: int, d: int)
    requires d > 0
    ensures d * (x / d) <= x < d * (x / d) + d
    ensures x == d * (x / d) + x % d
  {
  }

  lemma MulLe(d: int, a: int, b: int)
    requires d >= 0 && a <= b
    ensures d * a <= d * b && a * d <= b * d
  {
    assert d * b == d * a + d * (b - a);
  }

  /** The quotient is the one multiple window that holds the dividend. */
  lemma DivUnique(x: int, d: int, q: int)
    requires d > 0 && d * q <= x < d * q + d
    ensures x / d == q
  {
    DivBounds(x, d);
    var r := x / d;
    if r < q { MulLe(d, r + 1, q); }
    else if r > q { MulLe(d, q + 1, r); }
  }

  lemma MultipleMod(k: int, m: int)
    requires m > 0
    ensures (k * m) / m == k && (k * m) % m == 0
  {
    assert m * k == k * m;
    DivUnique(k * m, m, k);
    DivBounds(k * m, m);
  }

  lemma ModShift(a: int, m: int)
    requires m > 0
    ensures (a + m) % m == a % m
  {
    DivBounds(a, m);
    var q := a / m;
    assert m * (q + 1) == m * q + m;
    DivUnique(a + m, m, q + 1);
    DivBounds(a + m, m);
  }

  /** The left arrow: one card back, unless already at the start or the row's
      element is not mounted. */
  function StepLeft(active: int, mounted: bool): (r: int)
    ensures active - 1 <= r <= active
    ensures r < active <==> mounted && active > 0
  {
    if mounted && active > 0 then active - 1 else active
  }

  /** The right arrow: one card on, unless already at the last card or the
      row's element is not mounted. */
  function StepRight(active: int, count: int, mounted: bool): (r: int)
    ensures active <= r <= active + 1
    ensures r > active <==> mounted && active < count - 1
  {
    if mounted && active < count - 1 then active + 1 else active
  }

  /** Arrow steps keep the index on a card. */
  lemma StepsStayInRange(active: int, count: int, mounted: bool)
    requires InRange(active, count)
    ensures InRange(StepLeft(active, mounted), count)
    ensures InRange(StepRight(active, count, mounted), count)
  {
  }

  /** With the row mounted, left undoes right everywhere but the last card,
      and right undoes left everywhere but the first. */
  lemma StepsUndo(active: int, count: int)
    requires InRange(active, count)
    ensures active < count - 1 ==> StepLeft(StepRight(active, count, true), true) == active
    ensures active > 0 ==> StepRight(StepLeft(active, true), count, true) == active
  {
  }

  /** `k` presses of the right arrow. */
  function RightPresses(active: int, count: int, k: nat): (r: int)
    ensures active <= r
    ensures InRange(active, count) ==> InRange(r, count)
    decreases k
  {
    if k == 0 then active else RightPresses(StepRight(active, count, true), count, k - 1)
  }

  /** From any card, `k` right presses move `k` cards on, stopping at the last. */
  lemma {:induction false} RightPressesReach(active: int, count: int, k: nat)
    requires InRange(active, count)
    ensures RightPresses(active, count, k) == Min(active + k, count - 1)
    decreases k
  {
    if k > 0 {
      var next := StepRight(active, count, true);
      RightPressesReach(next, count, k - 1);
    }
  }

  /** `Math.round(a / b)` for whole pixel counts: the integer nearest the
      quotient, halves rounded up. */
  function Round(a: int, b: int): (r: int)
    requires b > 0
    ensures 2 * b * r - b <= 2 * a < 2 * b * r + b
  {
    DivBounds(2 * a + b, 2 * b);
    assert (2 * b) * ((2 * a + b) / (2 * b)) == 2 * b * ((2 * a + b) / (2 * b));
    (2 * a + b) / (2 * b)
  }

  /** The scroll listener: the card nearest the scroll offset becomes active
      when it differs from the active one and lies on the row. */
  function ScrollSync(active: int, count: int, scrollLeft: int, step: int): (r: int)
    requires step > 0
    ensures InRange(Round(scrollLeft, step), count) ==> r == Round(scrollLeft, step)
    ensures !InRange(Round(scrollLeft, step), count) ==> r == active
    ensures InRange(active, count) ==> InRange(r, count)
  {
    var nearest := Round(scrollLeft, step);
    if nearest != active && 0 <= nearest < count then nearest else active
  }

  /** Scrolling a card's exact offset into view makes that card active. */
  lemma ScrollToCardSelectsIt(active: int, count: int, card: int, width: nat)
    requires InRange(card, count)
    ensures ScrollSync(active, count, card * (width + 16), width + 16) == card
  {
    var step := width + 16;
    assert (2 * step) * card == 2 * (card * step);
    DivUnique(2 * (card * step) + step, 2 * step, card);
  }

  /** The cards of the home page's service and guide rows (also the services
      page's row). */
  const ServiceCount := 6
  const GuideCount := 2

  /** Both rows of the home page's services section keep their indices on a
      card under either arrow, mounted or not. */
  lemma HomeRowsStayInRange(service: int, guide: int, mounted: bool)
    requires InRange(service, ServiceCount) && InRange(guide, GuideCount)
    ensures InRange(StepLeft(service, mounted), ServiceCount)
    ensures InRange(StepRight(service, ServiceCount, mounted), ServiceCount)
    ensures InRange(StepLeft(guide, mounted), GuideCount)
    ensures InRange(StepRight(guide, GuideCount, mounted), GuideCount)
  {
    StepsStayInRange(service, ServiceCount, mounted);
    StepsStayInRange(guide, GuideCount, mounted);
  }

  /** Each category carousel of the partners page shows one partner per page;
      its arrows move without checking that the row is mounted. */
  const PartnersPerPage := 1

  /** `Math.ceil(a / b)`. */
  function CeilDiv(a: nat, b: nat): (r: nat)
    requires b > 0
    ensures (r - 1) * b < a <= r * b
  {
    DivBounds(a + b - 1, b);
    var r := (a + b - 1) / b;
    assert (r - 1) * b == b * r - b && r * b == b * r;
    r
  }

  /** `totalPages` of a category carousel holding `groupSize` partners. */
  function PartnerPages(groupSize: nat): (r: nat)
    ensures r == groupSize
  {
    CeilDiv(groupSize, PartnersPerPage)
  }

  /** The arrows of a category carousel: left stops at the first partner,
      right at the last page, so the index stays on a page. */
  lemma PartnerArrowsStayInRange(active: int, groupSize: nat)
    requires InRange(active, PartnerPages(groupSize))
    ensures InRange(StepLeft(active, true), groupSize)
    ensures InRange(StepRight(active, PartnerPages(groupSize), true), groupSize)
    ensures active == 0 ==> StepLeft(active, true) == active
    ensures active == groupSize - 1 ==> StepRight(active, PartnerPages(groupSize), true) == active
  {
    StepsStayInRange(active, groupSize, true);
  }

  /** `scrollToIndex(index)` scrolls to `index * (cardWidth + 16)`; the
      scroll listener then reads that offset back as page `index`, so a dot
      or arrow and the scroll position agree. */
  lemma PartnerScrollRoundTrip(active: int, groupSize: nat, index: int, cardWidth: nat)
    requires InRange(index, PartnerPages(groupSize))
    ensures var step := (cardWidth + 16) * PartnersPerPage;
      ScrollSync(active, PartnerPages(groupSize), index * step, step) == index
  {
    ScrollToCardSelectsIt(active, PartnerPages(groupSize), index, cardWidth);
  }

  /** Arrows and dots are shown only when the category has more than one
      partner; the arrows test the partner count and the dots the page count,
      and the two tests agree. */
  function ShowPartnerNavigation(groupSize: nat): (r: bool)
    ensures r <==> PartnerPages(groupSize) > 1
  {
    groupSize > 1
  }

  // ---- Testimonials ----

  const TestimonialCount := 15

  /** Cards per page: one on a narrow screen, two otherwise. */
  function PerPage(mobile: bool): (r: nat)
    ensures r == 1 <==> mobile
    ensures r == 2 <==> !mobile
  {
    if mobile then 1 else 2
  }

  /** A page start: on a card and a multiple of the page size. */
  predicate Aligned(active: int, perPage: nat, count: nat) {
    perPage > 0 && InRange(active, count) && active % perPage == 0
  }

  /** The start of the last page. */
  function LastPageStart(perPage: nat, count: nat): (r: int)
    requires perPage > 0 && count > 0
    ensures Aligned(r, perPage, count)
    ensures r + perPage >= count
  {
    var q := (count - 1) / perPage;
    DivBounds(count - 1, perPage);
    MultipleMod(q, perPage);
    assert q * perPage == perPage * q;
    q * perPage
  }

  /** `handleNext`: one page on, back to the first page after the last. */
  function Next(active: int, perPage: nat, count: nat): (r: int)
    requires perPage > 0 && count > 0 && InRange(active, count)
    ensures InRange(r, count)
    ensures r == 0 <==> active + perPage >= count
    ensures r != 0 ==> r == active + perPage
  {
    if active + perPage >= count then 0 else active + perPage
  }

  /** `handlePrev`: one page back, to the last page from the first, and to the
      first card from a start that is less than a page in. */
  function Prev(active: int, perPage: nat, count: nat): (r: int)
    requires perPage > 0 && count > 0 && InRange(active, count)
    ensures InRange(r, count)
    ensures active == 0 ==> r == LastPageStart(perPage, count)
    ensures active != 0 ==> r == (if active >= perPage then active - perPage else 0)
  {
    if active == 0 then LastPageStart(perPage, count)
    else if active - perPage > 0 then active - perPage else 0
  }

  /** Both arrows keep the start of a page a page start. */
  lemma ArrowsKeepAlignment(active: int, perPage: nat, count: nat)
    requires count > 0 && Aligned(active, perPage, count)
    ensures Aligned(Next(active, perPage, count), perPage, count)
    ensures Aligned(Prev(active, perPage, count), perPage, count)
  {
    ModShift(active, perPage);
    ModShift(active - perPage, perPage);
  }

  /** A page start is a multiple of the page size. */
  lemma AlignedIsMultiple(active: int, perPage: nat, count: nat)
    requires Aligned(active, perPage, count)
    ensures active == perPage * (active / perPage)
    ensures active > 0 ==> active >= perPage
  {
    DivBounds(active, perPage);
    if active > 0 {
      MulLe(perPage, 1, active / perPage);
    }
  }

  /** On page starts, previous and next are inverse. */
  lemma ArrowsInverse(active: int, perPage: nat, count: nat)
    requires count > 0 && Aligned(active, perPage, count)
    ensures Prev(Next(active, perPage, count), perPage, count) == active
    ensures Next(Prev(active, perPage, count), perPage, count) == active
  {
    AlignedIsMultiple(active, perPage, count);
    var k := active / perPage;
    if active + perPage >= count {
      DivUnique(count - 1, perPage, k);
      assert LastPageStart(perPage, count) == ((count - 1) / perPage) * perPage;
      assert k * perPage == perPage * k;
    }
  }

  /** The number of pages and the page holding the active card. */
  function TotalPages(perPage: nat, count: nat): (r: nat)
    requires perPage > 0
    ensures (r - 1) * perPage < count <= r * perPage
  {
    CeilDiv(count, perPage)
  }

  function CurrentPage(active: int, perPage: nat): (r: int)
    requires perPage > 0
    ensures r * perPage <= active < (r + 1) * perPage
  {
    DivBounds(active, perPage);
    assert (active / perPage + 1) * perPage == perPage * (active / perPage) + perPage;
    active / perPage
  }

  /** The highlighted dot always exists, and arrows and dots are shown exactly
      when there is a second page. */
  lemma PageIndicatorConsistent(active: int, perPage: nat, count: nat)
    requires perPage > 0 && InRange(active, count)
    ensures 0 <= CurrentPage(active, perPage) < TotalPages(perPage, count)
    ensures TotalPages(perPage, count) > 1 <==> count > perPage
  {
    var p, t := CurrentPage(active, perPage), TotalPages(perPage, count);
    if p >= t { MulLe(perPage, t, p); }
    if count > perPage && t <= 1 { MulLe(perPage, t, 1); }
    if t > 1 { MulLe(perPage, 1, t - 1); }
  }

  /** The testimonials on screen: the page's cards, cut at the end. */
  function Visible<T>(items: seq<T>, active: int, perPage: nat): (r: seq<T>)
    requires InRange(active, |items|)
    ensures |r| == Min(perPage, |items| - active)
    ensures forall i | 0 <= i < |r| :: active + i < |items| && r[i] == items[active + i]
  {
    items[active..Min(active + perPage, |items|)]
  }

  /** The dot for page `index` moves to that page's start: a multiple of the
      page size, on which the page indicator reads `index` back. */
  function SelectPage(index: nat, perPage: nat): (r: int)
    ensures r >= 0
    ensures perPage > 0 ==> r % perPage == 0 && CurrentPage(r, perPage) == index
  {
    if perPage == 0 then 0
    else
      MultipleMod(index, perPage);
      index * perPage
  }

  lemma DotsLandOnPageStarts(index: nat, perPage: nat, count: nat)
    requires perPage > 0 && index < TotalPages(perPage, count)
    ensures Aligned(SelectPage(index, perPage), perPage, count)
    ensures CurrentPage(SelectPage(index, perPage), perPage) == index
  {
    var t := TotalPages(perPage, count);
    MulLe(perPage, index, t - 1);
    assert index * perPage == perPage * index && (t - 1) * perPage == perPage * (t - 1);
    MultipleMod(index, perPage);
  }

  /** Walking `TotalPages` pages forward from the first returns to it. */
  function NextPresses(active: int, perPage: nat, count: nat, k: nat): (r: int)
    requires perPage > 0 && count > 0 && InRange(active, count)
    ensures InRange(r, count)
    decreases k
  {
    if k == 0 then active else NextPresses(Next(active, perPage, count), perPage, count, k - 1)
  }

  lemma {:induction false} NextPressesFromStart(perPage: nat, count: nat, k: nat)
    requires perPage > 0 && count > 0 && k < TotalPages(perPage, count)
    ensures NextPresses(0, perPage, count, k) == k * perPage
  {
    if k > 0 {
      NextPressesFromStart(perPage, count, k - 1);
      NextPressesShift(0, perPage, count, k - 1);
      var t := TotalPages(perPage, count);
      assert (k - 1) * perPage + perPage == k * perPage;
      MulLe(perPage, k, t - 1);
      assert k * perPage == perPage * k && (t - 1) * perPage == perPage * (t - 1);
    }
  }

  /** Pressing `k + 1` times is pressing `k` times and then once more. */
  lemma {:induction false} NextPressesShift(active: int, perPage: nat, count: nat, k: nat)
    requires perPage > 0 && count > 0 && InRange(active, count)
    ensures NextPresses(active, perPage, count, k + 1) == Next(NextPresses(active, perPage, count, k), perPage, count)
    decreases k
  {
    if k > 0 {
      NextPressesShift(Next(active, perPage, count), perPage, count, k - 1);
    }
  }

  lemma NextCyclesThroughPages(perPage: nat, count: nat)
    requires perPage > 0 && count > 0
    ensures NextPresses(0, perPage, count, TotalPages(perPage, count)) == 0
  {
    var t := TotalPages(perPage, count);
    NextPressesFromStart(perPage, count, t - 1);
    NextPressesShift(0, perPage, count, t - 1);
    assert (t - 1) * perPage + perPage == t * perPage;
  }

  // ---- About page images ----

  const ImageCount := 3

  /** JavaScript's `%`: the remainder takes the sign of the dividend. */
  function JsRem(a: int, b: int): (r: int)
    requires b > 0
    ensures a >= 0 ==> 0 <= r < b
    ensures a < 0 ==> -b < r <= 0
    ensures 0 <= a < b ==> r == a
  {
    if a >= 0 then
      ModRange(a, b);
      a % b
    else
      ModRange(-a, b);
      -((-a) % b)
  }

  lemma ModRange(x: int, d: int)
    requires d > 0
    ensures 0 <= x % d < d
    ensures 0 <= x < d ==> x % d == x
  {
    DivBounds(x, d);
    if 0 <= x < d {
      DivUnique(x, d, 0);
    }
  }

  /** The right image arrow: one image on, the first again after the last. */
  function NextImage(current: int): (r: int)
    requires InRange(current, ImageCount)
    ensures r == if current == ImageCount - 1 then 0 else current + 1
  {
    JsRem(current + 1, ImageCount)
  }

  /** The left image arrow: one image back, the last from the first. */
  function PrevImage(current: int): (r: int)
    requires InRange(current, ImageCount)
    ensures r == if current == 0 then ImageCount - 1 else current - 1
  {
    JsRem(current - 1 + ImageCount, ImageCount)
  }

  /** The image arrows are inverse, and three steps (also the auto-rotation's
      three ticks) come back to the same image. */
  lemma ImageArrowsCycle(current: int)
    requires InRange(current, ImageCount)
    ensures PrevImage(NextImage(current)) == current
    ensures NextImage(PrevImage(current)) == current
    ensures NextImage(NextImage(NextImage(current))) == current
    ensures PrevImage(current) != current && NextImage(current) != current
  {
  }
}

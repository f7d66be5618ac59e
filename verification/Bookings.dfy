/** The published schedule of demo slots: local working hours cut into slots, each converted to
    a UTC instant. Instants and lengths are in microseconds, dates in days since 1970-01-01. */
module BookingGrid {
  import opened Clock

  /** Local wall clock to instant, and instant to local date. */
  datatype Zone = Zone(utc: int -> int, date: int -> int)

  datatype Window = Window(
    zone: Zone, opens: int, closes: int, slotMinutes: int, bufferMinutes: int, leadMinutes: int,
    horizonDays: int, weekdays: set<int>, blackouts: set<int>)

  /** What times of day and the settings' bounds guarantee. */
  predicate Configured(w: Window) {
    0 <= w.opens < Day && 0 <= w.closes < Day && w.slotMinutes >= 5 && w.bufferMinutes >= 0 && w.leadMinutes >= 0
  }

  function Slot(w: Window): int { w.slotMinutes * Minute }
  function Step(w: Window): int { (w.slotMinutes + w.bufferMinutes) * Minute }

  function Wall(w: Window, day: int, k: int): int { day * Day + w.opens + k * Step(w) }

  /** The k-th slot of the day ends by closing time. */
  predicate Fits(w: Window, day: int, k: int) { k >= 0 && Wall(w, day, k) + Slot(w) <= day * Day + w.closes }

  function Start(w: Window, day: int, k: int): int { w.zone.utc(Wall(w, day, k)) }

  ghost predicate InGrid(w: Window, day: int, x: int) { exists k :: Fits(w, day, k) && x == Start(w, day, k) }

  ghost predicate OnGrid(w: Window, x: int) { InGrid(w, w.zone.date(x), x) }

  ghost predicate Bookable(w: Window, x: int, now: int) {
    var day := w.zone.date(x);
    && OnGrid(w, x)
    && Weekday(day) in w.weekdays && day !in w.blackouts
    && w.zone.date(now) <= day <= w.zone.date(now) + w.horizonDays
    && x > now && x - now >= w.leadMinutes * Minute
  }

  lemma StepPositive(w: Window)
    requires Configured(w)
    ensures Slot(w) > 0 && Step(w) >= Slot(w)
  {
  }

  lemma WallNext(w: Window, day: int, k: int)
    ensures Wall(w, day, k + 1) == Wall(w, day, k) + Step(w)
  {
  }

  lemma WallApart(w: Window, day: int, k: int, l: int)
    requires Configured(w) && k < l
    ensures Wall(w, day, k) + Step(w) <= Wall(w, day, l)
  {
    StepPositive(w);
    Multiples(Step(w), k, l);
  }

  lemma {:induction false} Multiples(step: int, k: int, l: int)
    requires step > 0 && k < l
    ensures k * step + step <= l * step
    decreases l - k
  {
    assert l * step == (l - 1) * step + step;
    if k < l - 1 {
      Multiples(step, k, l - 1);
    }
  }

  ghost predicate NoRepeats(s: seq<int>) { forall i, j :: 0 <= i < j < |s| ==> s[i] != s[j] }

  ghost predicate Ascending(s: seq<int>) { forall i, j :: 0 <= i < j < |s| ==> s[i] < s[j] }

  /** How far the clocks were put forward between two slots. */
  function Moved(w: Window, d: int, k: int, e: int, l: int): int {
    (Start(w, d, k) - Wall(w, d, k)) - (Start(w, e, l) - Wall(w, e, l))
  }

  /** The clocks moved forward by exactly the distance from some earlier slot, so that this one
      repeats its instant. */
  ghost predicate Repeats(w: Window, day: int, l: int) {
    exists k :: 0 <= k < l && Moved(w, day, k, day, l) == Wall(w, day, l) - Wall(w, day, k)
  }

  /** From no earlier slot did they move forward by as much as the distance. */
  ghost predicate Advances(w: Window, day: int, l: int) {
    forall k :: 0 <= k < l ==> Moved(w, day, k, day, l) < Wall(w, day, l) - Wall(w, day, k)
  }

  /** The clocks are put forward by `shift` between a day's slots `at - 1` and `at`. */
  datatype Change = Change(at: int, shift: int)

  /** This is all that happens to the clocks between the day's slots; `shift` is 0 for nothing. */
  ghost predicate ChangesOnce(w: Window, d: int, c: Change) {
    && (c.shift == 0 || (c.at > 0 && Fits(w, d, c.at)))
    && forall k, l :: 0 <= k < l && Fits(w, d, l) ==> Moved(w, d, k, d, l) == if k < c.at <= l then c.shift else 0
  }

  /** From one slot start to the one `q` further on. */
  function Distance(w: Window, q: int): int { q * Step(w) }

  /** The change is shorter than a step, or a whole number of steps that reaches back to a slot
      of the day. */
  ghost predicate KeepsOrder(w: Window, c: Change) {
    c.shift < Step(w) || exists q :: 1 <= q <= c.at && c.shift == Distance(w, q)
  }

  /** Every slot start of the day, once each. With at most one clock change in the day they
      ascend, as documented, exactly when the change keeps the order; with any number, exactly
      when each slot repeats an earlier instant or comes after all of them. */
  method DayGrid(w: Window, day: int) returns (starts: seq<int>)
    requires Configured(w)
    ensures forall x :: x in starts <==> InGrid(w, day, x)
    ensures NoRepeats(starts)
    ensures Ascending(starts) <==> forall l :: Fits(w, day, l) ==> Repeats(w, day, l) || Advances(w, day, l)
    ensures forall c :: ChangesOnce(w, day, c) ==> (Ascending(starts) <==> KeepsOrder(w, c))
  {
    StepPositive(w);
    var cursor := day * Day + w.opens;
    var closing := day * Day + w.closes;
    starts := [];
    var seen: set<int> := {};
    ghost var k := 0;
    while cursor + Slot(w) <= closing
      invariant k >= 0 && cursor == Wall(w, day, k)
      invariant forall x :: x in starts <==> x in seen
      invariant forall x :: x in starts <==> Among(w, day, k, x)
      invariant NoRepeats(starts)
      invariant forall l :: 0 <= l < k ==> Fits(w, day, l)
      invariant Ascending(starts) <==> forall l :: 0 <= l < k ==> Repeats(w, day, l) || Advances(w, day, l)
      decreases closing - cursor
    {
      var instant := w.zone.utc(cursor);
      AmongNext(w, day, k);
      PlaceInGrid(w, day, k, starts);
      if instant !in seen {
        seen := seen + {instant};
        starts := starts + [instant];
      }
      WallNext(w, day, k);
      cursor := cursor + Step(w);
      k := k + 1;
    }
    forall l | l >= k
      ensures !Fits(w, day, l)
    {
      if l > k {
        WallApart(w, day, k, l);
      }
    }
    AmongIsInGrid(w, day, k);
    forall c | ChangesOnce(w, day, c)
      ensures Ascending(starts) <==> KeepsOrder(w, c)
    {
      OrderKeptExactlyWhen(w, day, c);
    }
  }

  /** What listing the next slot does to the order. */
  lemma PlaceInGrid(w: Window, day: int, n: int, starts: seq<int>)
    requires n >= 0 && forall x :: x in starts <==> Among(w, day, n, x)
    ensures Repeats(w, day, n) <==> Start(w, day, n) in starts
    ensures Start(w, day, n) !in starts ==>
              (Ascending(starts + [Start(w, day, n)]) <==> Ascending(starts) && Advances(w, day, n))
  {
    RepeatsMeans(w, day, n);
    AdvancesMeans(w, day, n);
    var x := Start(w, day, n);
    if x !in starts {
      AscendingAppend(starts, x);
      if Advances(w, day, n) {
        forall i | 0 <= i < |starts|
          ensures starts[i] < x
        {
          assert starts[i] in starts;
        }
      } else {
        var y :| Among(w, day, n, y) && y >= x;
        assert y in starts;
      }
    }
  }

  lemma AscendingAppend(s: seq<int>, x: int)
    ensures Ascending(s + [x]) <==> Ascending(s) && forall i :: 0 <= i < |s| ==> s[i] < x
  {
    if Ascending(s + [x]) {
      forall i, j | 0 <= i < j < |s|
        ensures s[i] < s[j]
      {
        assert (s + [x])[i] < (s + [x])[j];
      }
      forall i | 0 <= i < |s|
        ensures s[i] < x
      {
        assert (s + [x])[i] < (s + [x])[|s|];
      }
    }
  }

  lemma RepeatsMeans(w: Window, day: int, n: int)
    ensures Repeats(w, day, n) <==> Among(w, day, n, Start(w, day, n))
  {
    if Repeats(w, day, n) {
      var k :| 0 <= k < n && Moved(w, day, k, day, n) == Wall(w, day, n) - Wall(w, day, k);
      assert Start(w, day, n) == Start(w, day, k);
    }
    if Among(w, day, n, Start(w, day, n)) {
      var k :| 0 <= k < n && Start(w, day, n) == Start(w, day, k);
      assert Moved(w, day, k, day, n) == Wall(w, day, n) - Wall(w, day, k);
    }
  }

  lemma AdvancesMeans(w: Window, day: int, n: int)
    ensures Advances(w, day, n) <==> forall x :: Among(w, day, n, x) ==> x < Start(w, day, n)
  {
    if !Advances(w, day, n) {
      var k :| 0 <= k < n && Moved(w, day, k, day, n) >= Wall(w, day, n) - Wall(w, day, k);
      assert Among(w, day, n, Start(w, day, k));
    }
    if Advances(w, day, n) {
      forall x | Among(w, day, n, x)
        ensures x < Start(w, day, n)
      {
        var k :| 0 <= k < n && x == Start(w, day, k);
        assert Moved(w, day, k, day, n) < Wall(w, day, n) - Wall(w, day, k);
      }
    }
  }

  ghost predicate Among(w: Window, day: int, n: int, x: int) { exists k :: 0 <= k < n && x == Start(w, day, k) }

  lemma AmongNext(w: Window, day: int, n: int)
    requires n >= 0
    ensures forall x :: Among(w, day, n + 1, x) <==> Among(w, day, n, x) || x == Start(w, day, n)
  {
    forall x
      ensures Among(w, day, n + 1, x) <==> Among(w, day, n, x) || x == Start(w, day, n)
    {
      if Among(w, day, n, x) {
        var k :| 0 <= k < n && x == Start(w, day, k);
        assert 0 <= k < n + 1;
      }
    }
  }

  lemma AmongIsInGrid(w: Window, day: int, n: int)
    requires n >= 0 && (forall l :: 0 <= l < n ==> Fits(w, day, l)) && forall l :: l >= n ==> !Fits(w, day, l)
    ensures forall x :: Among(w, day, n, x) <==> InGrid(w, day, x)
  {
  }

  // ----- when "same start" and "overlapping" are the same question -----

  predicate Overlap(a: int, aEnd: int, b: int, bEnd: int) { a < bEnd && b < aEnd }

  /** Slots of the schedule, on any dates, overlap only if they start together. */
  ghost predicate Distinguishes(w: Window) {
    forall d, e, a, b :: InGrid(w, d, a) && InGrid(w, e, b) && Overlap(a, a + Slot(w), b, b + Slot(w)) ==> a == b
  }

  /** Between any two slots, on any dates, the clocks moved forward by exactly the distance on
      the wall, or by something at least a slot length away from it. */
  ghost predicate Separated(w: Window) {
    forall d, k, e, l :: Fits(w, d, k) && Fits(w, e, l) && Wall(w, d, k) < Wall(w, e, l) ==> Apart(w, d, k, e, l)
  }

  predicate Apart(w: Window, d: int, k: int, e: int, l: int) {
    var distance, moved := Wall(w, e, l) - Wall(w, d, k), Moved(w, d, k, e, l);
    moved == distance || moved <= distance - Slot(w) || moved >= distance + Slot(w)
  }

  lemma ApartMeans(w: Window, d: int, k: int, e: int, l: int)
    ensures
      var a, b := Start(w, d, k), Start(w, e, l);
      Apart(w, d, k, e, l) <==> (Overlap(a, a + Slot(w), b, b + Slot(w)) ==> a == b)
  {
  }

  lemma SeparatedDistinguishes(w: Window)
    ensures Distinguishes(w) <==> Separated(w)
  {
    if Distinguishes(w) {
      forall d, k, e, l | Fits(w, d, k) && Fits(w, e, l) && Wall(w, d, k) < Wall(w, e, l)
        ensures Apart(w, d, k, e, l)
      {
        assert InGrid(w, d, Start(w, d, k)) && InGrid(w, e, Start(w, e, l));
        ApartMeans(w, d, k, e, l);
      }
    }
    if Separated(w) {
      forall d, e, a, b | InGrid(w, d, a) && InGrid(w, e, b) && Overlap(a, a + Slot(w), b, b + Slot(w))
        ensures a == b
      {
        var k :| Fits(w, d, k) && a == Start(w, d, k);
        var l :| Fits(w, e, l) && b == Start(w, e, l);
        ApartMeans(w, d, k, e, l);
        ApartMeans(w, e, l, d, k);
      }
    }
  }

  /** Then overlapping and starting together are one question. */
  lemma OverlapIsSameStart(w: Window, d: int, e: int, a: int, b: int)
    requires Configured(w) && Distinguishes(w) && InGrid(w, d, a) && InGrid(w, e, b)
    ensures Overlap(a, a + Slot(w), b, b + Slot(w)) <==> a == b
  {
    StepPositive(w);
  }

  /** One working day is over before the next begins. */
  ghost predicate DaysApart(w: Window) {
    forall d, e, k, l :: d < e && Fits(w, d, k) && Fits(w, e, l) ==> Start(w, d, k) + Slot(w) <= Start(w, e, l)
  }

  /** The clocks never move forward during a working day by more than the buffer. */
  ghost predicate BufferAbsorbs(w: Window) {
    forall d, k, l :: Fits(w, d, k) && Fits(w, d, l) && k < l ==> Moved(w, d, k, d, l) <= Step(w) - Slot(w)
  }

  /** With back-to-back slots, they move by whole slots, as an hour is for 30-minute ones. */
  ghost predicate WholeSlots(w: Window) {
    && w.bufferMinutes == 0 && w.slotMinutes > 0
    && forall d, k, l :: Fits(w, d, k) && Fits(w, d, l) && k < l ==> Moved(w, d, k, d, l) % Slot(w) == 0
  }

  /** Either is enough; so the offset may move within the working day, and going back, which a
      buffer of zero already absorbs, never does harm. */
  lemma AbsorbedChangesAreHarmless(w: Window)
    requires Configured(w) && DaysApart(w) && (BufferAbsorbs(w) || WholeSlots(w))
    ensures Distinguishes(w)
  {
    forall d, k, e, l | Fits(w, d, k) && Fits(w, e, l) && Wall(w, d, k) < Wall(w, e, l)
      ensures Apart(w, d, k, e, l)
    {
      WallOrder(w, d, k, e, l);
      if d < e {
        assert Start(w, d, k) + Slot(w) <= Start(w, e, l);
      } else if BufferAbsorbs(w) {
        WallApart(w, d, k, l);
      } else {
        WholeSlotsApart(w, d, k, l);
      }
    }
    SeparatedDistinguishes(w);
  }

  lemma WallOrder(w: Window, d: int, k: int, e: int, l: int)
    requires Configured(w) && Fits(w, d, k) && Fits(w, e, l) && Wall(w, d, k) < Wall(w, e, l)
    ensures d < e || (d == e && k < l)
  {
    StepPositive(w);
    InItsDay(w, d, k);
    InItsDay(w, e, l);
    if d == e && l < k {
      WallApart(w, d, l, k);
    }
  }

  /** Slots lie within their own local day. */
  lemma InItsDay(w: Window, d: int, k: int)
    requires Configured(w) && Fits(w, d, k)
    ensures d * Day <= Wall(w, d, k) && Wall(w, d, k) + Slot(w) < (d + 1) * Day
  {
    StepPositive(w);
    NotNegative(k, Step(w));
  }

  lemma NotNegative(k: int, step: int)
    requires k >= 0 && step >= 0
    ensures k * step >= 0
  {
  }

  lemma WholeSlotsApart(w: Window, d: int, k: int, l: int)
    requires Configured(w) && WholeSlots(w) && Fits(w, d, k) && Fits(w, d, l) && k < l
    ensures Apart(w, d, k, d, l)
  {
    StepPositive(w);
    var s, distance, moved := Slot(w), Wall(w, d, l) - Wall(w, d, k), Moved(w, d, k, d, l);
    assert Step(w) == s;
    DistanceIs(w, d, k, l);
    var n := moved / s;
    assert moved == n * s;
    if n < l - k {
      Multiples(s, n, l - k);
    } else if n > l - k {
      Multiples(s, l - k, n);
    }
  }

  lemma DistanceIs(w: Window, d: int, k: int, l: int)
    ensures Wall(w, d, l) - Wall(w, d, k) == Distance(w, l - k)
  {
  }

  // ----- a day with one clock change -----

  lemma FurtherIsMore(w: Window, q: int, r: int)
    requires Configured(w) && q < r
    ensures Distance(w, q) + Step(w) <= Distance(w, r)
  {
    StepPositive(w);
    Multiples(Step(w), q, r);
  }

  /** What fits on one day fits on any, and so does any earlier slot. */
  lemma FitsToo(w: Window, d: int, l: int, e: int, k: int)
    requires Configured(w) && Fits(w, d, l) && 0 <= k <= l
    ensures Fits(w, e, k)
  {
    if k < l {
      WallApart(w, d, k, l);
    }
    DistanceIs(w, d, 0, k);
    DistanceIs(w, e, 0, k);
  }

  lemma InOrder(w: Window, d: int, c: Change, l: int)
    requires Configured(w) && ChangesOnce(w, d, c) && KeepsOrder(w, c) && Fits(w, d, l)
    ensures Repeats(w, d, l) || Advances(w, d, l)
  {
    StepPositive(w);
    forall k | 0 <= k < l
      ensures Wall(w, d, l) - Wall(w, d, k) == Distance(w, l - k) >= Step(w)
    {
      DistanceIs(w, d, k, l);
      WallApart(w, d, k, l);
    }
    if c.shift >= Step(w) && c.at <= l {
      var q :| 1 <= q <= c.at && c.shift == Distance(w, q);
      if l - q < c.at {
        DistanceIs(w, d, l - q, l);
        assert Moved(w, d, l - q, d, l) == c.shift;
      } else {
        forall k | 0 <= k < c.at
          ensures Moved(w, d, k, d, l) < Wall(w, d, l) - Wall(w, d, k)
        {
          FurtherIsMore(w, q, l - k);
        }
      }
    }
  }

  lemma OutOfOrder(w: Window, d: int, c: Change)
    requires Configured(w) && ChangesOnce(w, d, c) && !KeepsOrder(w, c)
    ensures Fits(w, d, c.at) && !Repeats(w, d, c.at) && !Advances(w, d, c.at)
  {
    StepPositive(w);
    forall k | 0 <= k < c.at
      ensures Wall(w, d, c.at) - Wall(w, d, k) == Distance(w, c.at - k) != Moved(w, d, k, d, c.at)
    {
      DistanceIs(w, d, k, c.at);
    }
    assert Distance(w, 1) == Step(w);
    assert Moved(w, d, c.at - 1, d, c.at) == c.shift;
  }

  /** Where one change leaves the starts in order, in terms of the change alone. */
  lemma OrderKeptExactlyWhen(w: Window, d: int, c: Change)
    requires Configured(w) && ChangesOnce(w, d, c)
    ensures (forall l :: Fits(w, d, l) ==> Repeats(w, d, l) || Advances(w, d, l)) <==> KeepsOrder(w, c)
  {
    if KeepsOrder(w, c) {
      forall l | Fits(w, d, l)
        ensures Repeats(w, d, l) || Advances(w, d, l)
      {
        InOrder(w, d, c, l);
      }
    } else {
      OutOfOrder(w, d, c);
    }
  }

  /** For every number of steps the day has room for, the change is exactly that, or at least a
      slot length off. */
  ghost predicate KeepsApart(w: Window, shift: int) {
    forall q :: q >= 1 && Fits(w, 0, q) ==>
      shift == Distance(w, q) || shift <= Distance(w, q) - Slot(w) || shift >= Distance(w, q) + Slot(w)
  }

  /** Where one change leaves all slots of the day apart or together. */
  lemma DayApartExactlyWhen(w: Window, d: int, c: Change)
    requires Configured(w) && ChangesOnce(w, d, c)
    ensures (forall k, l :: 0 <= k < l && Fits(w, d, l) ==> Apart(w, d, k, d, l)) <==> KeepsApart(w, c.shift)
  {
    StepPositive(w);
    if KeepsApart(w, c.shift) {
      forall k, l | 0 <= k < l && Fits(w, d, l)
        ensures Apart(w, d, k, d, l)
      {
        FitsToo(w, d, l, 0, l - k);
        DistanceIs(w, d, k, l);
        WallApart(w, d, k, l);
      }
    }
    if forall k, l :: 0 <= k < l && Fits(w, d, l) ==> Apart(w, d, k, d, l) {
      forall q | q >= 1 && Fits(w, 0, q)
        ensures c.shift == Distance(w, q) || c.shift <= Distance(w, q) - Slot(w) || c.shift >= Distance(w, q) + Slot(w)
      {
        SomePairStraddles(w, d, c, q);
      }
    }
  }

  /** Two slots `q` apart, one on each side of the change. */
  lemma SomePairStraddles(w: Window, d: int, c: Change, q: int)
    requires Configured(w) && ChangesOnce(w, d, c) && q >= 1 && Fits(w, 0, q)
    requires forall k, l :: 0 <= k < l && Fits(w, d, l) ==> Apart(w, d, k, d, l)
    ensures c.shift == Distance(w, q) || c.shift <= Distance(w, q) - Slot(w) || c.shift >= Distance(w, q) + Slot(w)
  {
    if c.shift == 0 {
      StepPositive(w);
      FurtherIsMore(w, 0, q);
    } else {
      var k := if q >= c.at then 0 else c.at - q;
      FitsToo(w, 0, q, d, q);
      DistanceIs(w, d, k, k + q);
      assert Apart(w, d, k, d, k + q);
    }
  }

  /** The claim behind the single-column index, in a zone whose clocks change at most once in a
      working day: slots overlap only if they start together exactly when every day's change
      keeps them apart, which is arithmetic on the change, the slot and the buffer. */
  lemma DistinguishesExactlyWhen(w: Window, changes: int -> Change)
    requires Configured(w) && DaysApart(w) && forall d :: ChangesOnce(w, d, changes(d))
    ensures Distinguishes(w) <==> forall d :: KeepsApart(w, changes(d).shift)
  {
    SeparatedDistinguishes(w);
    if Separated(w) {
      forall d
        ensures KeepsApart(w, changes(d).shift)
      {
        SeparatedDay(w, d);
        DayApartExactlyWhen(w, d, changes(d));
      }
    }
    if forall d :: KeepsApart(w, changes(d).shift) {
      forall d, k, e, l | Fits(w, d, k) && Fits(w, e, l) && Wall(w, d, k) < Wall(w, e, l)
        ensures Apart(w, d, k, e, l)
      {
        WallOrder(w, d, k, e, l);
        if d < e {
          assert Start(w, d, k) + Slot(w) <= Start(w, e, l);
        } else {
          assert KeepsApart(w, changes(d).shift);
          DayApartExactlyWhen(w, d, changes(d));
        }
      }
    }
  }

  lemma SeparatedDay(w: Window, d: int)
    requires Configured(w) && Separated(w)
    ensures forall k, l :: 0 <= k < l && Fits(w, d, l) ==> Apart(w, d, k, d, l)
  {
    forall k, l | 0 <= k < l && Fits(w, d, l)
      ensures Apart(w, d, k, d, l)
    {
      StepPositive(w);
      FitsToo(w, d, l, d, k);
      WallApart(w, d, k, l);
    }
  }

  /** The same by division: in a day with room for it, a change does no harm exactly when it is
      within the buffer, or what is left of it after whole steps is nothing, or is at least a
      slot and leaves at least a slot. */
  lemma KeepsApartByRemainder(w: Window, shift: int)
    requires Configured(w) && (shift > 0 ==> Fits(w, 0, shift / Step(w) + 1))
    ensures
      var buffer := Step(w) - Slot(w);
      KeepsApart(w, shift) <==> shift <= buffer || shift % Step(w) == 0 || Slot(w) <= shift % Step(w) <= buffer
  {
    StepPositive(w);
    var step, n, r := Step(w), shift / Step(w), shift % Step(w);
    assert shift == Distance(w, n) + r;
    assert Distance(w, n + 1) == Distance(w, n) + step;
    forall q
      ensures q < n ==> shift >= Distance(w, q) + step
      ensures q > n + 1 ==> shift <= Distance(w, q) - step
      ensures q >= 1 ==> Distance(w, q) >= step
    {
      if q < n {
        FurtherIsMore(w, q, n);
      }
      if q > n + 1 {
        FurtherIsMore(w, n + 1, q);
      }
      if q >= 1 {
        FurtherIsMore(w, 0, q);
      }
    }
    if shift > 0 && n >= 1 {
      FitsToo(w, 0, n + 1, 0, n);
    }
  }

  /** A slot's instant falls on the slot's own local date. */
  ghost predicate DatesAgree(w: Window) {
    forall d, k :: Fits(w, d, k) ==> w.zone.date(Start(w, d, k)) == d
  }

  /** `is_on_grid` looks only at the instant's own date, and that misses nothing. */
  lemma OnGridIsSomeGrid(w: Window, x: int)
    requires DatesAgree(w)
    ensures OnGrid(w, x) <==> exists d :: InGrid(w, d, x)
  {
  }

  function FixedZone(offset: int): Zone { Zone(l => l - offset, x => (x + offset) / Day) }

  /** In a zone with one offset, such as Asia/Kolkata, nothing above can go wrong. */
  lemma FixedZoneIsRegular(w: Window, offset: int)
    requires Configured(w) && w.zone == FixedZone(offset)
    ensures DatesAgree(w) && DaysApart(w) && BufferAbsorbs(w) && Distinguishes(w)
    ensures forall d, l :: Fits(w, d, l) ==> Advances(w, d, l)
    ensures forall d :: ChangesOnce(w, d, Change(0, 0))
  {
    StepPositive(w);
    forall d, k | Fits(w, d, k)
      ensures w.zone.date(Start(w, d, k)) == d
    {
      InItsDay(w, d, k);
      assert Start(w, d, k) + offset == Wall(w, d, k);
    }
    forall d, e, k, l | d < e && Fits(w, d, k) && Fits(w, e, l)
      ensures Start(w, d, k) + Slot(w) <= Start(w, e, l)
    {
      InItsDay(w, d, k);
      InItsDay(w, e, l);
      assert (d + 1) * Day <= e * Day;
    }
    forall d, k, l | 0 <= k < l && Fits(w, d, l)
      ensures Moved(w, d, k, d, l) < Wall(w, d, l) - Wall(w, d, k)
    {
      WallApart(w, d, k, l);
    }
    AbsorbedChangesAreHarmless(w);
  }

  /** A zone whose clocks go forward by an hour at 02:00 of day 0. */
  function SpringForward(): Zone {
    Zone(l => if l < 180 * Minute then l else l - 60 * Minute,
         x => (if x < 120 * Minute then x else x + 60 * Minute) / Day)
  }

  /** Open around the clock change, on Thursdays, in 45-minute slots. */
  function NightShift(): Window { Window(SpringForward(), 0, 1080 * Minute, 45, 0, 0, 60, {3}, {}) }

  lemma NightShiftWall(k: int)
    ensures Wall(NightShift(), 0, k) == k * (45 * Minute) && Slot(NightShift()) == Step(NightShift()) == 45 * Minute
  {
  }

  lemma NightShiftChanges()
    ensures Configured(NightShift()) && ChangesOnce(NightShift(), 0, Change(4, 60 * Minute))
  {
    var w := NightShift();
    NightShiftWall(4);
    forall k, l | 0 <= k < l && Fits(w, 0, l)
      ensures Moved(w, 0, k, 0, l) == if k < 4 <= l then 60 * Minute else 0
    {
      NightShiftWall(k);
      NightShiftWall(l);
    }
  }

  /** There an hour is neither less than a step nor whole steps: the slot at 03:00 comes before
      the one at 02:15 it is listed after, and overlaps it. */
  lemma ClockChangeOverlaps()
    ensures
      var w, c := NightShift(), Change(4, 60 * Minute);
      && Configured(w) && ChangesOnce(w, 0, c) && !KeepsOrder(w, c) && !KeepsApart(w, c.shift)
      && InGrid(w, 0, 135 * Minute) && InGrid(w, 0, 120 * Minute)
      && Overlap(120 * Minute, 120 * Minute + Slot(w), 135 * Minute, 135 * Minute + Slot(w))
      && !Distinguishes(w)
  {
    var w := NightShift();
    NightShiftChanges();
    NightShiftWall(3);
    NightShiftWall(4);
    assert Fits(w, 0, 3) && Start(w, 0, 3) == 135 * Minute;
    assert Fits(w, 0, 4) && Start(w, 0, 4) == 120 * Minute;
    forall q | 1 <= q <= 4
      ensures Distance(w, q) == q * (45 * Minute) != 60 * Minute
    {
    }
    assert Fits(w, 0, 1) && Distance(w, 1) == 45 * Minute;
    var a, b := 120 * Minute, 135 * Minute;
    assert InGrid(w, 0, a) && InGrid(w, 0, b) && Overlap(a, a + Slot(w), b, b + Slot(w));
  }
}

/** The demo_bookings table under its partial unique index, and every run of the operations
    that write it. */
module Bookings {
  import opened Clock
  import opened BookingGrid

  datatype Status = Confirmed | Cancelled | Completed | NoShow

  datatype Booking = Booking(startsAt: int, endsAt: int, status: Status, deleted: bool)

  /** The index predicate: status = 'confirmed' AND is_deleted = false. */
  predicate Active(b: Booking) { b.status == Confirmed && !b.deleted }

  predicate Conflict(a: Booking, b: Booking) { Active(a) && Active(b) && a.startsAt == b.startsAt }

  /** At most one active booking per start. */
  ghost predicate Exclusive(rows: seq<Booking>) {
    forall i, j :: 0 <= i < j < |rows| ==> !Conflict(rows[i], rows[j])
  }

  ghost predicate Held(rows: seq<Booking>, at: int) {
    exists i :: 0 <= i < |rows| && Active(rows[i]) && rows[i].startsAt == at
  }

  /** Some row other than `i` conflicts with `b`. */
  ghost predicate Blocked(rows: seq<Booking>, i: int, b: Booking) {
    exists j :: 0 <= j < |rows| && j != i && Conflict(rows[j], b)
  }

  datatype Outcome = Outcome(rows: seq<Booking>, ok: bool)

  ghost function Insert(rows: seq<Booking>, b: Booking): Outcome {
    if Blocked(rows, |rows|, b) then Outcome(rows, false) else Outcome(rows + [b], true)
  }

  ghost function Update(rows: seq<Booking>, i: nat, b: Booking): Outcome
    requires i < |rows|
  {
    if Blocked(rows, i, b) then Outcome(rows, false) else Outcome(rows[i := b], true)
  }

  datatype Operation =
    | Book(startsAt: int, now: int)
    | Cancel(row: nat)
    | Reschedule(row: nat, startsAt: int, now: int)
    | Record(row: nat, status: Status)
    | SoftDelete(row: nat)

  function NewBooking(w: Window, x: int): Booking { Booking(x, x + Slot(w), Confirmed, false) }

  ghost function Apply(w: Window, rows: seq<Booking>, op: Operation): Outcome {
    match op
    case Book(x, now) => if Bookable(w, x, now) then Insert(rows, NewBooking(w, x)) else Outcome(rows, false)
    case Cancel(i) =>
      if i < |rows| && Active(rows[i]) then Update(rows, i, rows[i].(status := Cancelled)) else Outcome(rows, false)
    case Reschedule(i, x, now) =>
      if i < |rows| && Active(rows[i]) && Bookable(w, x, now) then
        if x == rows[i].startsAt then Outcome(rows, true)
        else Update(rows, i, rows[i].(startsAt := x, endsAt := x + Slot(w)))
      else Outcome(rows, false)
    case Record(i, status) =>
      if i < |rows| && !rows[i].deleted then Update(rows, i, rows[i].(status := status)) else Outcome(rows, false)
    case SoftDelete(i) =>
      if i < |rows| && !rows[i].deleted then Update(rows, i, rows[i].(deleted := true)) else Outcome(rows, false)
  }

  ghost function Run(w: Window, rows: seq<Booking>, ops: seq<Operation>): seq<Booking>
    decreases ops
  {
    if ops == [] then rows else Run(w, Apply(w, rows, ops[0]).rows, ops[1..])
  }

  // ----- the index -----

  lemma ApplyExclusive(w: Window, rows: seq<Booking>, op: Operation)
    requires Exclusive(rows)
    ensures Exclusive(Apply(w, rows, op).rows)
  {
  }

  /** In every interleaving of every operation, with the schedule changing as it likes between
      them, at most one active booking exists per start. */
  lemma {:induction false} AlwaysExclusive(windows: seq<Window>, rows: seq<Booking>, ops: seq<Operation>)
    requires Exclusive(rows) && |windows| == |ops|
    ensures Exclusive(RunWith(windows, rows, ops))
    decreases ops
  {
    if ops != [] {
      ApplyExclusive(windows[0], rows, ops[0]);
      AlwaysExclusive(windows[1..], Apply(windows[0], rows, ops[0]).rows, ops[1..]);
    }
  }

  /** Each operation under its own schedule. */
  ghost function RunWith(windows: seq<Window>, rows: seq<Booking>, ops: seq<Operation>): seq<Booking>
    requires |windows| == |ops|
    decreases ops
  {
    if ops == [] then rows else RunWith(windows[1..], Apply(windows[0], rows, ops[0]).rows, ops[1..])
  }

  /** A booking is accepted exactly when the time is bookable and nobody holds it. */
  lemma BookSucceedsExactlyWhen(w: Window, rows: seq<Booking>, x: int, now: int)
    ensures Apply(w, rows, Book(x, now)).ok <==> Bookable(w, x, now) && !Held(rows, x)
    ensures Apply(w, rows, Book(x, now)).rows ==
            if Apply(w, rows, Book(x, now)).ok then rows + [NewBooking(w, x)] else rows
    ensures NewBooking(w, x) == Booking(x, x + w.slotMinutes * 60_000_000, Confirmed, false)
  {
  }

  /** The k-th slot of a local day, from the settings. */
  predicate SlotAt(w: Window, day: int, k: int, x: int) {
    var into := k * ((w.slotMinutes + w.bufferMinutes) * 60_000_000);
    && k >= 0 && w.opens + into + w.slotMinutes * 60_000_000 <= w.closes
    && x == w.zone.utc(day * 86_400_000_000 + w.opens + into)
  }

  /** What the settings publish, limit by limit: a slot of an open day, not a blackout date, from
      today to the horizon, with at least the notice asked for. */
  ghost predicate Published(w: Window, x: int, now: int) {
    var day := w.zone.date(x);
    && (day + 3) % 7 in w.weekdays && day !in w.blackouts
    && 0 <= day - w.zone.date(now) <= w.horizonDays
    && x > now && x - now >= w.leadMinutes * 60_000_000
    && exists k :: SlotAt(w, day, k, x)
  }

  lemma SlotAtIsGrid(w: Window, day: int, k: int, x: int)
    ensures SlotAt(w, day, k, x) <==> Fits(w, day, k) && x == Start(w, day, k)
  {
  }

  lemma BookableIsPublished(w: Window, x: int, now: int)
    ensures Bookable(w, x, now) <==> Published(w, x, now)
  {
    forall k
      ensures SlotAt(w, w.zone.date(x), k, x) <==> Fits(w, w.zone.date(x), k) && x == Start(w, w.zone.date(x), k)
    {
      SlotAtIsGrid(w, w.zone.date(x), k, x);
    }
  }

  /** The row takes a time that was asked for, on offer under the settings then in force, and
      ends one slot later. */
  ghost predicate TakenFrom(windows: seq<Window>, ops: seq<Operation>, k: nat, b: Booking)
    requires |windows| == |ops| && k < |ops|
  {
    && (ops[k].Book? || ops[k].Reschedule?) && ops[k].startsAt == b.startsAt
    && Published(windows[k], b.startsAt, ops[k].now)
    && b.endsAt == b.startsAt + windows[k].slotMinutes * 60_000_000
  }

  /** The row still has the times it had, or took them in the run. */
  ghost predicate Accounted(windows: seq<Window>, rows: seq<Booking>, ops: seq<Operation>, i: nat, b: Booking)
    requires |windows| == |ops|
  {
    || (i < |rows| && b.startsAt == rows[i].startsAt && b.endsAt == rows[i].endsAt)
    || exists k :: 0 <= k < |ops| && TakenFrom(windows, ops, k, b)
  }

  lemma ApplyAccounted(w: Window, rows: seq<Booking>, op: Operation, i: nat)
    requires i < |Apply(w, rows, op).rows|
    ensures |Apply(w, rows, op).rows| >= |rows|
    ensures Accounted([w], rows, [op], i, Apply(w, rows, op).rows[i])
  {
    if op.Book? || op.Reschedule? {
      BookableIsPublished(w, op.startsAt, op.now);
      assert [w][0] == w && [op][0] == op;
      var b := Apply(w, rows, op).rows[i];
      if !(i < |rows| && b.startsAt == rows[i].startsAt && b.endsAt == rows[i].endsAt) {
        assert TakenFrom([w], [op], 0, b);
      }
    }
  }

  /** Over any run, each operation under the schedule of its moment: no row ever carries times
      but those it began with or a slot that was published, notice, horizon, weekday and blackout
      limits included, when it was taken. */
  lemma {:induction false} TimesAreAccounted(windows: seq<Window>, rows: seq<Booking>, ops: seq<Operation>, i: nat)
    requires |windows| == |ops| && i < |RunWith(windows, rows, ops)|
    ensures Accounted(windows, rows, ops, i, RunWith(windows, rows, ops)[i])
    decreases ops
  {
    if ops != [] {
      var mid := Apply(windows[0], rows, ops[0]).rows;
      var b := RunWith(windows, rows, ops)[i];
      TimesAreAccounted(windows[1..], mid, ops[1..], i);
      if i < |mid| && b.startsAt == mid[i].startsAt && b.endsAt == mid[i].endsAt {
        ApplyAccounted(windows[0], rows, ops[0], i);
        FirstAccounts(windows, rows, ops, i, mid[i], b);
      } else {
        var k :| 0 <= k < |ops[1..]| && TakenFrom(windows[1..], ops[1..], k, b);
        assert TakenFrom(windows, ops, k + 1, b);
      }
    }
  }

  lemma FirstAccounts(windows: seq<Window>, rows: seq<Booking>, ops: seq<Operation>, i: nat, a: Booking, b: Booking)
    requires |windows| == |ops| && ops != [] && a.startsAt == b.startsAt && a.endsAt == b.endsAt
    requires Accounted([windows[0]], rows, [ops[0]], i, a)
    ensures Accounted(windows, rows, ops, i, b)
  {
    if !(i < |rows| && a.startsAt == rows[i].startsAt && a.endsAt == rows[i].endsAt) {
      var k :| 0 <= k < |[ops[0]]| && TakenFrom([windows[0]], [ops[0]], k, a);
      assert TakenFrom(windows, ops, 0, b);
    }
  }

  /** Ending a booking never fails, frees its own start and no other. */
  lemma EndingFrees(w: Window, rows: seq<Booking>, i: nat, op: Operation, x: int, now: int)
    requires Exclusive(rows) && i < |rows| && Active(rows[i])
    requires op == Cancel(i) || op == SoftDelete(i) || (op.Record? && op.row == i && op.status != Confirmed)
    ensures Apply(w, rows, op).ok
    ensures
      var after := Apply(w, rows, op).rows;
      && |after| == |rows| && (forall j :: 0 <= j < |rows| && j != i ==> after[j] == rows[j])
      && !Held(after, rows[i].startsAt)
      && (x != rows[i].startsAt ==> (Held(after, x) <==> Held(rows, x)))
      && (Bookable(w, rows[i].startsAt, now) ==> Apply(w, after, Book(rows[i].startsAt, now)).ok)
      && after[i].startsAt == rows[i].startsAt && after[i].endsAt == rows[i].endsAt
      && after[i].status == (if op.Cancel? then Cancelled else if op.Record? then op.status else Confirmed)
      && after[i].deleted == op.SoftDelete?
  {
  }

  /** A move is accepted exactly when nobody else holds the target; refused, it changes nothing,
      accepted, it moves the booking, freeing the old start. */
  lemma RescheduleExactlyWhen(w: Window, rows: seq<Booking>, i: nat, x: int, now: int)
    requires Exclusive(rows) && i < |rows| && Active(rows[i]) && Bookable(w, x, now) && x != rows[i].startsAt
    ensures
      var moved := Apply(w, rows, Reschedule(i, x, now));
      && (moved.ok <==> !Held(rows, x))
      && (!moved.ok ==> moved.rows == rows)
      && (moved.ok ==> Held(moved.rows, x) && !Held(moved.rows, rows[i].startsAt))
      && (moved.ok ==>
            && |moved.rows| == |rows| && (forall j :: 0 <= j < |rows| && j != i ==> moved.rows[j] == rows[j])
            && moved.rows[i] == Booking(x, x + w.slotMinutes * 60_000_000, Confirmed, false))
  {
    var b := rows[i].(startsAt := x, endsAt := x + Slot(w));
    var moved := Apply(w, rows, Reschedule(i, x, now));
    if Held(rows, x) {
      var j :| 0 <= j < |rows| && Active(rows[j]) && rows[j].startsAt == x;
      assert j != i && Conflict(rows[j], b);
    } else {
      assert moved.rows[i] == b;
      forall j | 0 <= j < |rows| && Active(moved.rows[j])
        ensures moved.rows[j].startsAt != rows[i].startsAt
      {
        if j != i {
          assert !Conflict(rows[i], rows[j]) && !Conflict(rows[j], rows[i]);
        }
      }
    }
  }

  /** Confirming a booking again that was cancelled, completed or missed is refused exactly when
      someone else has taken its start meanwhile. */
  lemma ReconfirmingExactlyWhen(w: Window, rows: seq<Booking>, i: nat)
    requires i < |rows| && !rows[i].deleted && rows[i].status != Confirmed
    ensures
      var again := Apply(w, rows, Record(i, Confirmed));
      && (again.ok <==> !Held(rows, rows[i].startsAt))
      && (!again.ok ==> again.rows == rows)
      && (again.ok ==> again.rows == rows[i := Booking(rows[i].startsAt, rows[i].endsAt, Confirmed, false)])
  {
    var b := rows[i].(status := Confirmed);
    if Held(rows, rows[i].startsAt) {
      var j :| 0 <= j < |rows| && Active(rows[j]) && rows[j].startsAt == rows[i].startsAt;
      assert j != i && Conflict(rows[j], b);
    }
  }

  /** However many visitors race for one free time, exactly the first gets it. */
  lemma {:induction false} FirstVisitorWins(w: Window, rows: seq<Booking>, x: int, clocks: seq<int>)
    requires !Held(rows, x) && clocks != [] && forall i :: 0 <= i < |clocks| ==> Bookable(w, x, clocks[i])
    ensures Run(w, rows, Race(x, clocks)) == rows + [NewBooking(w, x)]
  {
    BookSucceedsExactlyWhen(w, rows, x, clocks[0]);
    var won := rows + [NewBooking(w, x)];
    assert won[|rows|] == NewBooking(w, x);
    assert Held(won, x);
    assert Race(x, clocks)[1..] == Race(x, clocks[1..]);
    LateVisitorsLose(w, won, x, clocks[1..]);
  }

  function Race(x: int, clocks: seq<int>): seq<Operation> {
    if clocks == [] then [] else [Book(x, clocks[0])] + Race(x, clocks[1..])
  }

  lemma {:induction false} LateVisitorsLose(w: Window, rows: seq<Booking>, x: int, clocks: seq<int>)
    requires Held(rows, x)
    ensures Run(w, rows, Race(x, clocks)) == rows
    decreases clocks
  {
    if clocks != [] {
      BookSucceedsExactlyWhen(w, rows, x, clocks[0]);
      assert Race(x, clocks)[1..] == Race(x, clocks[1..]);
      LateVisitorsLose(w, rows, x, clocks[1..]);
    }
  }

  // ----- overlap -----

  predicate Overlaps(a: Booking, b: Booking) { Overlap(a.startsAt, a.endsAt, b.startsAt, b.endsAt) }

  ghost predicate NoOverlap(rows: seq<Booking>) {
    forall i, j :: 0 <= i < j < |rows| && Active(rows[i]) && Active(rows[j]) ==> !Overlaps(rows[i], rows[j])
  }

  predicate Harmless(a: Booking, b: Booking) { Overlaps(a, b) ==> a.startsAt == b.startsAt }

  /** No undeleted row overlaps another, or any time the schedule offers, with a different start. */
  ghost predicate Compatible(w: Window, rows: seq<Booking>) {
    && (forall i, j :: 0 <= i < |rows| && 0 <= j < |rows| && i != j && !rows[i].deleted && !rows[j].deleted ==>
        Harmless(rows[i], rows[j]))
    && forall i, x, now :: 0 <= i < |rows| && !rows[i].deleted && Bookable(w, x, now) ==>
        Harmless(rows[i], NewBooking(w, x))
  }

  /** Times the schedule lets be booked overlap only if they start together. */
  ghost predicate OffersHarmless(w: Window) {
    forall x, now, y, later :: Bookable(w, x, now) && Bookable(w, y, later) ==>
        Harmless(NewBooking(w, x), NewBooking(w, y))
  }

  lemma DistinguishingOffers(w: Window)
    requires Distinguishes(w)
    ensures OffersHarmless(w)
  {
    forall x, now, y, later | Bookable(w, x, now) && Bookable(w, y, later)
      ensures Harmless(NewBooking(w, x), NewBooking(w, y))
    {
      assert InGrid(w, w.zone.date(x), x) && InGrid(w, w.zone.date(y), y);
    }
  }

  lemma OfferedHarmless(w: Window, x: int, y: int, now: int, later: int)
    requires OffersHarmless(w) && Bookable(w, x, now) && Bookable(w, y, later)
    ensures Harmless(NewBooking(w, x), NewBooking(w, y)) && Harmless(NewBooking(w, y), NewBooking(w, x))
  {
  }

  /** Two bookings occupy the same time and the deleted one is not needed. */
  predicate SameTimes(a: Booking, b: Booking) { a.startsAt == b.startsAt && a.endsAt == b.endsAt }

  /** Rows may change status, be deleted, or take a time on offer. */
  ghost predicate Evolves(w: Window, before: Booking, after: Booking) {
    (before.deleted ==> after.deleted) && (SameTimes(before, after) || exists now :: OffersNow(w, after, now))
  }

  ghost predicate OffersNow(w: Window, b: Booking, now: int) {
    Bookable(w, b.startsAt, now) && SameTimes(b, NewBooking(w, b.startsAt))
  }

  lemma UpdateCompatible(w: Window, rows: seq<Booking>, k: nat, b: Booking)
    requires OffersHarmless(w) && Compatible(w, rows) && k < |rows| && Evolves(w, rows[k], b)
    ensures Compatible(w, rows[k := b])
  {
    var out := rows[k := b];
    forall i, x, now | 0 <= i < |out| && !out[i].deleted && Bookable(w, x, now)
      ensures Harmless(out[i], NewBooking(w, x))
    {
      HarmlessToOffered(w, rows, k, b, i, x, now);
    }
    forall i, j | 0 <= i < |out| && 0 <= j < |out| && i != j && !out[i].deleted && !out[j].deleted
      ensures Harmless(out[i], out[j])
    {
      if i == k {
        HarmlessToRow(w, rows, k, b, j);
      } else if j == k {
        HarmlessToRow(w, rows, k, b, i);
      } else {
        assert Harmless(rows[i], rows[j]);
      }
    }
  }

  lemma HarmlessToOffered(w: Window, rows: seq<Booking>, k: nat, b: Booking, i: nat, x: int, now: int)
    requires OffersHarmless(w) && Compatible(w, rows) && k < |rows| && Evolves(w, rows[k], b) && i < |rows|
    requires !rows[k := b][i].deleted && Bookable(w, x, now)
    ensures Harmless(rows[k := b][i], NewBooking(w, x))
  {
    if i != k || SameTimes(rows[k], b) {
      assert Harmless(rows[i], NewBooking(w, x));
    } else {
      var moment :| OffersNow(w, b, moment);
      OfferedHarmless(w, b.startsAt, x, moment, now);
    }
  }

  lemma HarmlessToRow(w: Window, rows: seq<Booking>, k: nat, b: Booking, j: nat)
    requires Compatible(w, rows) && k < |rows| && j < |rows| && j != k && Evolves(w, rows[k], b) && !b.deleted
             && !rows[j].deleted
    ensures Harmless(b, rows[j]) && Harmless(rows[j], b)
  {
  }

  lemma InsertCompatible(w: Window, rows: seq<Booking>, x: int, now: int)
    requires OffersHarmless(w) && Compatible(w, rows) && Bookable(w, x, now)
    ensures Compatible(w, rows + [NewBooking(w, x)])
  {
    var out := rows + [NewBooking(w, x)];
    forall i, y, later | 0 <= i < |out| && !out[i].deleted && Bookable(w, y, later)
      ensures Harmless(out[i], NewBooking(w, y))
    {
      if i < |rows| {
        assert Harmless(rows[i], NewBooking(w, y));
      } else {
        OfferedHarmless(w, x, y, now, later);
      }
    }
    forall i, j | 0 <= i < |out| && 0 <= j < |out| && i != j && !out[i].deleted && !out[j].deleted
      ensures Harmless(out[i], out[j])
    {
      if i < |rows| && j < |rows| {
        assert Harmless(rows[i], rows[j]);
      } else if i < |rows| {
        assert Harmless(rows[i], NewBooking(w, x));
      } else {
        assert Harmless(rows[j], NewBooking(w, x));
      }
    }
  }

  lemma ApplyCompatible(w: Window, rows: seq<Booking>, op: Operation)
    requires OffersHarmless(w) && Compatible(w, rows)
    ensures Compatible(w, Apply(w, rows, op).rows)
  {
    var after := Apply(w, rows, op).rows;
    match op {
      case Book(x, now) =>
        if Bookable(w, x, now) {
          InsertCompatible(w, rows, x, now);
        }
      case Reschedule(i, x, now) =>
        if after != rows {
          assert OffersNow(w, after[i], now);
          UpdateCompatible(w, rows, i, after[i]);
        }
      case Cancel(i) => if after != rows { UpdateCompatible(w, rows, i, after[i]); }
      case Record(i, _) => if after != rows { UpdateCompatible(w, rows, i, after[i]); }
      case SoftDelete(i) => if after != rows { UpdateCompatible(w, rows, i, after[i]); }
    }
  }

  lemma CompatibleNoOverlap(w: Window, rows: seq<Booking>)
    requires Exclusive(rows) && Compatible(w, rows)
    ensures NoOverlap(rows)
  {
  }

  lemma {:induction false} RunStaysClear(w: Window, rows: seq<Booking>, ops: seq<Operation>)
    requires OffersHarmless(w) && Exclusive(rows) && Compatible(w, rows)
    ensures NoOverlap(Run(w, rows, ops))
    decreases ops
  {
    if ops == [] {
      CompatibleNoOverlap(w, rows);
    } else {
      ApplyExclusive(w, rows, ops[0]);
      ApplyCompatible(w, rows, ops[0]);
      RunStaysClear(w, Apply(w, rows, ops[0]).rows, ops[1..]);
    }
  }

  /** The single-column index keeps bookings from overlapping: while the schedule stays the
      same and its slots overlap only if they start together, no two active bookings overlap in
      any reachable state. */
  lemma NeverOverlap(w: Window, ops: seq<Operation>)
    requires Distinguishes(w)
    ensures NoOverlap(Run(w, [], ops)) && Exclusive(Run(w, [], ops))
  {
    DistinguishingOffers(w);
    RunStaysClear(w, [], ops);
    AlwaysExclusive(Repeat(w, |ops|), [], ops);
    RunIsRunWith(w, [], ops);
  }

  function Repeat(w: Window, n: nat): (ws: seq<Window>)
    ensures |ws| == n
  {
    if n == 0 then [] else [w] + Repeat(w, n - 1)
  }

  lemma {:induction false} RunIsRunWith(w: Window, rows: seq<Booking>, ops: seq<Operation>)
    ensures Run(w, rows, ops) == RunWith(Repeat(w, |ops|), rows, ops)
    decreases ops
  {
    if ops != [] {
      assert Repeat(w, |ops|)[1..] == Repeat(w, |ops| - 1);
      RunIsRunWith(w, Apply(w, rows, ops[0]).rows, ops[1..]);
    }
  }

  // ----- changing the schedule under existing bookings -----

  lemma {:induction false} RunConcat(w: Window, rows: seq<Booking>, a: seq<Operation>, b: seq<Operation>)
    ensures Run(w, rows, a + b) == Run(w, Run(w, rows, a), b)
    decreases a
  {
    if a == [] {
      assert a + b == b;
    } else {
      assert (a + b)[1..] == a[1..] + b;
      RunConcat(w, Apply(w, rows, a[0]).rows, a[1..], b);
    }
  }

  lemma RunOne(w: Window, rows: seq<Booking>, op: Operation)
    ensures Run(w, rows, [op]) == Apply(w, rows, op).rows
  {
  }

  /** Delete every row below `n` except two. */
  function Clearing(n: nat, i: nat, j: nat): seq<Operation> {
    if n == 0 then []
    else Clearing(n - 1, i, j) + if n - 1 == i || n - 1 == j then [] else [SoftDelete(n - 1)]
  }

  ghost predicate Cleared(rows: seq<Booking>, out: seq<Booking>, n: nat, i: nat, j: nat) {
    && |out| == |rows|
    && forall k :: 0 <= k < |rows| ==> if k == i || k == j || k >= n then out[k] == rows[k] else out[k].deleted
  }

  lemma {:induction false} ClearingClears(w: Window, rows: seq<Booking>, n: nat, i: nat, j: nat)
    requires n <= |rows|
    ensures Cleared(rows, Run(w, rows, Clearing(n, i, j)), n, i, j)
    decreases n
  {
    if n > 0 {
      ClearingClears(w, rows, n - 1, i, j);
      var mid := Run(w, rows, Clearing(n - 1, i, j));
      if n - 1 == i || n - 1 == j {
        assert Clearing(n, i, j) == Clearing(n - 1, i, j);
      } else {
        RunConcat(w, rows, Clearing(n - 1, i, j), [SoftDelete(n - 1)]);
        RunOne(w, mid, SoftDelete(n - 1));
        SoftDeleteDeletes(w, mid, n - 1);
      }
    }
  }

  lemma SoftDeleteDeletes(w: Window, rows: seq<Booking>, i: nat)
    requires i < |rows|
    ensures
      var out := Apply(w, rows, SoftDelete(i)).rows;
      |out| == |rows| && out[i].deleted && forall k :: 0 <= k < |rows| && k != i ==> out[k] == rows[k]
  {
  }

  /** With everything else deleted, an undeleted row can be confirmed again. */
  lemma Reconfirm(w: Window, rows: seq<Booking>, i: nat, j: nat)
    requires i < |rows| && j < |rows| && !rows[i].deleted && (i != j ==> rows[j].startsAt != rows[i].startsAt)
    requires forall k :: 0 <= k < |rows| && k != i && k != j ==> rows[k].deleted
    ensures Apply(w, rows, Record(i, Confirmed)).rows == rows[i := rows[i].(status := Confirmed)]
  {
  }

  /** Two undeleted rows that overlap with different starts can both be made active. */
  lemma RowsCanClash(w: Window, rows: seq<Booking>, i: nat, j: nat) returns (ops: seq<Operation>)
    requires i < |rows| && j < |rows| && i != j && !rows[i].deleted && !rows[j].deleted && !Harmless(rows[i], rows[j])
    ensures !NoOverlap(Run(w, rows, ops))
  {
    var n := |rows|;
    ClearingClears(w, rows, n, i, j);
    var alone := Run(w, rows, Clearing(n, i, j));
    Reconfirm(w, alone, i, j);
    var one := alone[i := alone[i].(status := Confirmed)];
    Reconfirm(w, one, j, i);
    var two := one[j := one[j].(status := Confirmed)];
    ops := Clearing(n, i, j) + [Record(i, Confirmed)] + [Record(j, Confirmed)];
    RunConcat(w, rows, Clearing(n, i, j), [Record(i, Confirmed)]);
    RunConcat(w, rows, Clearing(n, i, j) + [Record(i, Confirmed)], [Record(j, Confirmed)]);
    RunOne(w, alone, Record(i, Confirmed));
    RunOne(w, one, Record(j, Confirmed));
    assert two == Run(w, rows, ops);
    ActiveClash(two, i, j);
  }

  lemma ActiveClash(rows: seq<Booking>, i: nat, j: nat)
    requires i < |rows| && j < |rows| && i != j && Active(rows[i]) && Active(rows[j]) && Overlaps(rows[i], rows[j])
    ensures !NoOverlap(rows)
  {
  }

  /** A time on offer that overlaps an undeleted row with a different start can be booked. */
  lemma OfferCanClash(w: Window, rows: seq<Booking>, i: nat, x: int, now: int) returns (ops: seq<Operation>)
    requires i < |rows| && !rows[i].deleted && Bookable(w, x, now) && !Harmless(rows[i], NewBooking(w, x))
    ensures !NoOverlap(Run(w, rows, ops))
  {
    var n := |rows|;
    ClearingClears(w, rows, n, i, i);
    var alone := Run(w, rows, Clearing(n, i, i));
    Reconfirm(w, alone, i, i);
    var one := alone[i := alone[i].(status := Confirmed)];
    assert !Held(one, x);
    BookSucceedsExactlyWhen(w, one, x, now);
    ops := Clearing(n, i, i) + [Record(i, Confirmed)] + [Book(x, now)];
    RunConcat(w, rows, Clearing(n, i, i), [Record(i, Confirmed)]);
    RunConcat(w, rows, Clearing(n, i, i) + [Record(i, Confirmed)], [Book(x, now)]);
    RunOne(w, alone, Record(i, Confirmed));
    RunOne(w, one, Book(x, now));
    var two := one + [NewBooking(w, x)];
    assert two == Run(w, rows, ops);
    ActiveClash(two, i, n);
  }

  /** Two times on offer that overlap with different starts can both be booked. */
  lemma OffersCanClash(w: Window, rows: seq<Booking>, x: int, now: int, y: int, later: int)
    returns (ops: seq<Operation>)
    requires Bookable(w, x, now) && Bookable(w, y, later) && !Harmless(NewBooking(w, x), NewBooking(w, y))
    ensures !NoOverlap(Run(w, rows, ops))
  {
    var n := |rows|;
    ClearingClears(w, rows, n, n, n);
    var none := Run(w, rows, Clearing(n, n, n));
    assert !Held(none, x);
    BookSucceedsExactlyWhen(w, none, x, now);
    var one := none + [NewBooking(w, x)];
    assert !Held(one, y);
    BookSucceedsExactlyWhen(w, one, y, later);
    ops := Clearing(n, n, n) + [Book(x, now)] + [Book(y, later)];
    RunConcat(w, rows, Clearing(n, n, n), [Book(x, now)]);
    RunConcat(w, rows, Clearing(n, n, n) + [Book(x, now)], [Book(y, later)]);
    RunOne(w, none, Book(x, now));
    RunOne(w, one, Book(y, later));
    var two := one + [NewBooking(w, y)];
    assert two == Run(w, rows, ops);
    ActiveClash(two, n, n + 1);
  }

  /** Which tables a schedule can be put in force over: bookings can never come to overlap, in
      any run from here, exactly when the times on offer overlap only if they start together
      and the table is compatible with them. From the empty table it is the former alone. */
  lemma ScheduleSafeExactlyWhen(w: Window, rows: seq<Booking>)
    requires Exclusive(rows)
    ensures (forall ops :: NoOverlap(Run(w, rows, ops))) <==> OffersHarmless(w) && Compatible(w, rows)
    ensures rows == [] ==> Compatible(w, rows)
  {
    if OffersHarmless(w) && Compatible(w, rows) {
      forall ops
        ensures NoOverlap(Run(w, rows, ops))
      {
        RunStaysClear(w, rows, ops);
      }
    } else {
      var ops := SomeRunClashes(w, rows);
    }
  }

  lemma SomeRunClashes(w: Window, rows: seq<Booking>) returns (ops: seq<Operation>)
    requires !OffersHarmless(w) || !Compatible(w, rows)
    ensures !NoOverlap(Run(w, rows, ops))
  {
    if !OffersHarmless(w) {
      var x, now, y, later :| Bookable(w, x, now) && Bookable(w, y, later)
          && !Harmless(NewBooking(w, x), NewBooking(w, y));
      ops := OffersCanClash(w, rows, x, now, y, later);
    } else if i, j :| 0 <= i < |rows| && 0 <= j < |rows| && i != j && !rows[i].deleted && !rows[j].deleted
                      && !Harmless(rows[i], rows[j]) {
      ops := RowsCanClash(w, rows, i, j);
    } else {
      var i, x, now :| 0 <= i < |rows| && !rows[i].deleted && Bookable(w, x, now)
          && !Harmless(rows[i], NewBooking(w, x));
      ops := OfferCanClash(w, rows, i, x, now);
    }
  }

  /** On that night the promise of a complete double-booking guard is broken by a run: both slots
      are on offer, both are accepted, and they overlap. */
  lemma ClockChangeDoubleBooks()
    ensures !NoOverlap(Run(NightShift(), [], [Book(135 * Minute, -Day), Book(120 * Minute, -Day)]))
  {
    var w, x, y := NightShift(), 135 * Minute, 120 * Minute;
    ClockChangeOverlaps();
    assert Bookable(w, x, -Day) && Bookable(w, y, -Day);
    BookSucceedsExactlyWhen(w, [], x, -Day);
    var one := [NewBooking(w, x)];
    assert [] + one == one;
    BookSucceedsExactlyWhen(w, one, y, -Day);
    var two := one + [NewBooking(w, y)];
    var ops := [Book(x, -Day), Book(y, -Day)];
    assert ops[1..] == [ops[1]];
    RunOne(w, one, ops[1]);
    assert Run(w, [], ops) == two;
    ActiveClash(two, 0, 1);
  }

  /** The documented gap: after the slot length changes from an hour to half an hour, a time of
      the new schedule overlaps a booking of the old one and is accepted. */
  lemma SlotChangeOverlaps(zone: Zone)
    requires zone == FixedZone(0)
    ensures
      var hourly := Window(zone, 600 * Minute, 1080 * Minute, 60, 0, 120, 60, {0, 1, 2, 3, 4}, {});
      var halfHourly := hourly.(slotMinutes := 30);
      && Distinguishes(hourly) && Distinguishes(halfHourly)
      && !NoOverlap(RunWith([hourly, halfHourly], [], [Book(600 * Minute, 0), Book(630 * Minute, 0)]))
  {
    var hourly := Window(zone, 600 * Minute, 1080 * Minute, 60, 0, 120, 60, {0, 1, 2, 3, 4}, {});
    var halfHourly := hourly.(slotMinutes := 30);
    FixedZoneIsRegular(hourly, 0);
    FixedZoneIsRegular(halfHourly, 0);
    assert Fits(hourly, 0, 0) && Start(hourly, 0, 0) == 600 * Minute;
    assert Fits(halfHourly, 0, 1) && Start(halfHourly, 0, 1) == 630 * Minute;
    assert InGrid(hourly, 0, 600 * Minute) && InGrid(halfHourly, 0, 630 * Minute);
    assert Bookable(hourly, 600 * Minute, 0) && Bookable(halfHourly, 630 * Minute, 0);
    var ops := [Book(600 * Minute, 0), Book(630 * Minute, 0)];
    BookSucceedsExactlyWhen(hourly, [], 600 * Minute, 0);
    var one := [NewBooking(hourly, 600 * Minute)];
    assert [] + one == one;
    BookSucceedsExactlyWhen(halfHourly, one, 630 * Minute, 0);
    var two := one + [NewBooking(halfHourly, 630 * Minute)];
    assert [hourly, halfHourly][1..] == [halfHourly] && ops[1..] == [ops[1]];
    assert RunWith([halfHourly], one, [ops[1]]) == two by {
      assert [halfHourly][1..] == [] && [ops[1]][1..] == [];
    }
    ActiveClash(two, 0, 1);
  }
}

/** The booking service over the table: what it writes, and what it shows as free. */
module BookingService {
  import opened Clock
  import opened BookingGrid
  import opened Bookings

  method IsBookable(w: Window, x: int, now: int) returns (yes: bool)
    requires Configured(w)
    ensures yes <==> Bookable(w, x, now)
  {
    var day := w.zone.date(x);
    var grid := DayGrid(w, day);
    if x !in grid { return false; }
    if !(Weekday(day) in w.weekdays && day !in w.blackouts) { return false; }
    if !(w.zone.date(now) <= day <= w.zone.date(now) + w.horizonDays) { return false; }
    return x > now && x - now >= w.leadMinutes * Minute;
  }

  datatype DayStatus = OutsideWindow | Blackout | NonWorkingDay | Available | NoRemainingSlots | FullyBooked

  /** The date itself can be booked on. */
  predicate OpenDay(w: Window, day: int, now: int) {
    && w.zone.date(now) <= day <= w.zone.date(now) + w.horizonDays
    && day !in w.blackouts && Weekday(day) in w.weekdays
  }

  /** A time of the day's grid that may be booked now, whoever holds it. */
  ghost predicate Offered(w: Window, day: int, now: int, x: int) { InGrid(w, day, x) && Bookable(w, x, now) }

  method DayAvailability(w: Window, day: int, now: int, taken: seq<int>) returns (status: DayStatus, free: seq<int>)
    requires Configured(w)
    ensures status in {OutsideWindow, Blackout, NonWorkingDay} <==> !OpenDay(w, day, now)
    ensures forall x :: x in free <==> OpenDay(w, day, now) && Offered(w, day, now, x) && x !in taken
    ensures status == Available <==> free != []
    ensures status == NoRemainingSlots ==> forall x :: !Offered(w, day, now, x)
    ensures status == FullyBooked ==>
            (exists x :: Offered(w, day, now, x)) && forall x :: Offered(w, day, now, x) ==> x in taken
  {
    free := [];
    if !(w.zone.date(now) <= day <= w.zone.date(now) + w.horizonDays) { return OutsideWindow, free; }
    if day in w.blackouts { return Blackout, free; }
    if Weekday(day) !in w.weekdays { return NonWorkingDay, free; }
    var grid := DayGrid(w, day);
    var bookable: seq<int> := [];
    var i := 0;
    while i < |grid|
      invariant 0 <= i <= |grid|
      invariant forall x :: x in bookable <==> x in grid[..i] && Bookable(w, x, now)
      invariant forall x :: x in free <==> x in bookable && x !in taken
    {
      var yes := IsBookable(w, grid[i], now);
      assert grid[..i + 1] == grid[..i] + [grid[i]];
      if yes {
        bookable := bookable + [grid[i]];
        if grid[i] !in taken {
          free := free + [grid[i]];
        }
      }
      i := i + 1;
    }
    assert grid[..|grid|] == grid;
    assert forall x :: x in bookable <==> Offered(w, day, now, x);
    if free != [] {
      assert free[0] in free;
      return Available, free;
    }
    if bookable == [] { return NoRemainingSlots, free; }
    assert bookable[0] in bookable && Offered(w, day, now, bookable[0]);
    return FullyBooked, free;
  }

  class Calendar {
    var rows: seq<Booking>

    constructor ()
      ensures rows == []
    {
      rows := [];
    }

    /** The unique index: does a row other than `i` conflict with `b`? */
    method Conflicts(i: int, b: Booking) returns (found: bool)
      ensures found <==> Blocked(rows, i, b)
    {
      var j := 0;
      while j < |rows|
        invariant 0 <= j <= |rows|
        invariant forall k :: 0 <= k < j && k != i ==> !Conflict(rows[k], b)
      {
        if j != i && Conflict(rows[j], b) { return true; }
        j := j + 1;
      }
      return false;
    }

    /** Write row `i` unless the index refuses. */
    method Write(i: nat, b: Booking) returns (ok: bool)
      requires i < |rows|
      modifies this
      ensures Outcome(rows, ok) == Update(old(rows), i, b)
    {
      var found := Conflicts(i, b);
      if !found { rows := rows[i := b]; }
      return !found;
    }

    method BookSlot(w: Window, x: int, now: int) returns (ok: bool)
      requires Configured(w)
      modifies this
      ensures Outcome(rows, ok) == Apply(w, old(rows), Book(x, now))
    {
      var may := IsBookable(w, x, now);
      if !may { return false; }
      var found := Conflicts(|rows|, NewBooking(w, x));
      if !found { rows := rows + [NewBooking(w, x)]; }
      return !found;
    }

    method CancelBooking(w: Window, i: nat) returns (ok: bool)
      modifies this
      ensures Outcome(rows, ok) == Apply(w, old(rows), Cancel(i))
    {
      if i >= |rows| || !Active(rows[i]) { return false; }
      ok := Write(i, rows[i].(status := Cancelled));
    }

    method RescheduleBooking(w: Window, i: nat, x: int, now: int) returns (ok: bool)
      requires Configured(w)
      modifies this
      ensures Outcome(rows, ok) == Apply(w, old(rows), Reschedule(i, x, now))
    {
      if i >= |rows| || !Active(rows[i]) { return false; }
      var may := IsBookable(w, x, now);
      if !may { return false; }
      if x == rows[i].startsAt { return true; }
      ok := Write(i, rows[i].(startsAt := x, endsAt := x + Slot(w)));
    }

    method AdminUpdate(w: Window, i: nat, status: Status) returns (ok: bool)
      modifies this
      ensures Outcome(rows, ok) == Apply(w, old(rows), Record(i, status))
    {
      if i >= |rows| || rows[i].deleted { return false; }
      ok := Write(i, rows[i].(status := status));
    }

    method SoftDeleteBooking(w: Window, i: nat) returns (ok: bool)
      modifies this
      ensures Outcome(rows, ok) == Apply(w, old(rows), SoftDelete(i))
    {
      if i >= |rows| || rows[i].deleted { return false; }
      ok := Write(i, rows[i].(deleted := true));
    }

    /** The instants held in [lo, hi). */
    method ConfirmedStartsBetween(lo: int, hi: int) returns (taken: seq<int>)
      ensures forall x :: x in taken <==> lo <= x < hi && Held(rows, x)
    {
      taken := [];
      var i := 0;
      while i < |rows|
        invariant 0 <= i <= |rows|
        invariant forall x :: x in taken <==> lo <= x < hi && HeldBelow(rows, i, x)
      {
        HeldNext(rows, i);
        if Active(rows[i]) && lo <= rows[i].startsAt < hi { taken := taken + [rows[i].startsAt]; }
        i := i + 1;
      }
      assert forall x :: HeldBelow(rows, |rows|, x) <==> Held(rows, x);
    }

    /** The availability response, date by date. What it shows as free is what is offered and
        not seen as taken; where slots carry their own date and lie within the span that was
        queried, that is exactly what would be accepted. */
    method GetAvailability(w: Window, first: int, last: int, now: int) returns (days: seq<DayShown>)
      requires Configured(w)
      ensures |days| == if first <= last then last - first + 1 else 0
      ensures forall k :: 0 <= k < |days| ==> Shows(w, rows, first, last, now, first + k, days[k])
      ensures Covered(w, first, last) ==> forall k :: 0 <= k < |days| ==> Honest(w, rows, now, first + k, days[k])
    {
      var taken := ConfirmedStartsBetween(w.zone.utc(first * Day), w.zone.utc((last + 1) * Day));
      days := [];
      var day := first;
      while day <= last
        invariant |days| == day - first && (first <= last ==> day <= last + 1) && (first > last ==> day == first)
        invariant forall k :: 0 <= k < |days| ==> Shows(w, rows, first, last, now, first + k, days[k])
        decreases last - day
      {
        var status, free := DayAvailability(w, day, now, taken);
        var shown := DayShown(day, status, free);
        assert Shows(w, rows, first, last, now, day, shown);
        days := days + [shown];
        day := day + 1;
      }
      if Covered(w, first, last) {
        forall k | 0 <= k < |days|
          ensures Honest(w, rows, now, first + k, days[k])
        {
          CoveredIsHonest(w, rows, first, last, now, first + k, days[k]);
        }
      }
    }
  }

  datatype DayShown = DayShown(day: int, status: DayStatus, free: seq<int>)

  /** The slot is held by a row the query over the span returns. */
  ghost predicate SeenTaken(w: Window, rows: seq<Booking>, first: int, last: int, x: int) {
    w.zone.utc(first * Day) <= x < w.zone.utc((last + 1) * Day) && Held(rows, x)
  }

  /** What is shown for a date, in any zone. */
  ghost predicate Shows(w: Window, rows: seq<Booking>, first: int, last: int, now: int, day: int, shown: DayShown) {
    && shown.day == day
    && (shown.status in {OutsideWindow, Blackout, NonWorkingDay} <==> !OpenDay(w, day, now))
    && (forall x :: x in shown.free <==>
          OpenDay(w, day, now) && Offered(w, day, now, x) && !SeenTaken(w, rows, first, last, x))
    && (shown.status == Available <==> shown.free != [])
    && (shown.status == NoRemainingSlots ==> forall x :: !Offered(w, day, now, x))
    && (shown.status == FullyBooked ==>
          (exists x :: Offered(w, day, now, x)) && forall x :: Offered(w, day, now, x) ==>
              SeenTaken(w, rows, first, last, x))
  }

  /** Every slot of these dates carries its own date and lies between the span's midnights. */
  ghost predicate Covered(w: Window, first: int, last: int) {
    forall d, k :: first <= d <= last && Fits(w, d, k) ==>
      w.zone.date(Start(w, d, k)) == d && w.zone.utc(first * Day) <= Start(w, d, k) < w.zone.utc((last + 1) * Day)
  }

  /** Shown as free exactly when booking it would be accepted; fully booked exactly when there
      is something on offer and all of it is held. */
  ghost predicate Honest(w: Window, rows: seq<Booking>, now: int, day: int, shown: DayShown) {
    && (forall x :: x in shown.free <==> InGrid(w, day, x) && Apply(w, rows, Book(x, now)).ok)
    && (shown.status == FullyBooked <==>
          (exists x :: Offered(w, day, now, x)) && forall x :: Offered(w, day, now, x) ==> Held(rows, x))
  }

  lemma CoveredIsHonest(w: Window, rows: seq<Booking>, first: int, last: int, now: int, day: int, shown: DayShown)
    requires Covered(w, first, last) && first <= day <= last && Shows(w, rows, first, last, now, day, shown)
    ensures Honest(w, rows, now, day, shown)
  {
    forall x
      ensures Offered(w, day, now, x) ==>
              OpenDay(w, day, now) && (SeenTaken(w, rows, first, last, x) <==> Held(rows, x))
      ensures Apply(w, rows, Book(x, now)).ok <==> Bookable(w, x, now) && !Held(rows, x)
    {
      BookSucceedsExactlyWhen(w, rows, x, now);
      if Offered(w, day, now, x) {
        var k :| Fits(w, day, k) && x == Start(w, day, k);
        assert w.zone.date(Start(w, day, k)) == day;
      }
    }
    if shown.status == Available {
      assert shown.free[0] in shown.free;
      assert Offered(w, day, now, shown.free[0]) && !Held(rows, shown.free[0]);
    }
  }

  /** In a zone with one offset every span of dates is covered. */
  lemma FixedZoneIsCovered(w: Window, offset: int, first: int, last: int)
    requires Configured(w) && w.zone == FixedZone(offset)
    ensures Covered(w, first, last)
  {
    FixedZoneIsRegular(w, offset);
    forall d, k | first <= d <= last && Fits(w, d, k)
      ensures w.zone.utc(first * Day) <= Start(w, d, k) < w.zone.utc((last + 1) * Day)
    {
      StepPositive(w);
      InItsDay(w, d, k);
      assert first * Day <= d * Day && (d + 1) * Day <= (last + 1) * Day;
    }
  }

  ghost predicate HeldBelow(rows: seq<Booking>, n: int, x: int) {
    exists i :: 0 <= i < n <= |rows| && Active(rows[i]) && rows[i].startsAt == x
  }

  lemma HeldNext(rows: seq<Booking>, n: nat)
    requires n < |rows|
    ensures forall x :: HeldBelow(rows, n + 1, x) <==>
            HeldBelow(rows, n, x) || (Active(rows[n]) && rows[n].startsAt == x)
  {
  }
}

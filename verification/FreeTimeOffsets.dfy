/** A listing whose events carry different UTC offsets: text order is not time order, and a
    slot lies over an event. */
module FreeTimeOffsets {
  import opened Text
  import opened Sorting
  import opened FreeTime
  import opened IsoTime

  // -------------------------------------------------------------------- the listing

  const PARIS := "+02:00"
  const CHICAGO := "-05:00"

  /** From eight to nine in Chicago, and from nine to ten in Paris: six hours apart, the later
      one first in the order of the texts. */
  const CHICAGO_EVENT := Event(Stamp("08:00:00", CHICAGO), Stamp("09:00:00", CHICAGO))
  const PARIS_EVENT := Event(Stamp("09:00:00", PARIS), Stamp("10:00:00", PARIS))

  function At(hour: int): int {
    DayNumber(2024, 5, 1) * DAY + hour * HOUR
  }

  lemma Clocks()
    ensures ReadClock("08:00:00") == Some(8 * HOUR) && ReadClock("09:00:00") == Some(9 * HOUR)
            && ReadClock("10:00:00") == Some(10 * HOUR)
    ensures ReadOffset(PARIS) == Some(2 * HOUR) && ReadOffset(CHICAGO) == Some(-5 * HOUR)
  {
  }

  lemma Instants()
    ensures ReadIso(CHICAGO_EVENT.start) == Some(At(13)) && ReadIso(CHICAGO_EVENT.end) == Some(At(14))
    ensures ReadIso(PARIS_EVENT.start) == Some(At(7)) && ReadIso(PARIS_EVENT.end) == Some(At(8))
  {
    hide ReadIso, ReadDate, ReadClock, ReadOffset, DayNumber;
    MayDay();
    Clocks();
    ReadParts(MAY_DAY, "08:00:00", CHICAGO);
    ReadParts(MAY_DAY, "09:00:00", CHICAGO);
    ReadParts(MAY_DAY, "09:00:00", PARIS);
    ReadParts(MAY_DAY, "10:00:00", PARIS);
  }

  lemma {:induction false} SamePrefix(p: string, a: string, b: string)
    ensures StringLe(p + a, p + b) == StringLe(a, b)
  {
    if p == "" {
      assert p + a == a && p + b == b;
    } else {
      assert (p + a)[1..] == p[1..] + a && (p + b)[1..] == p[1..] + b;
      SamePrefix(p[1..], a, b);
    }
  }

  lemma TextOrder()
    ensures StringLe(CHICAGO_EVENT.start, PARIS_EVENT.start)
  {
    hide StringLe;
    var a, b := "08:00:00" + CHICAGO, "09:00:00" + PARIS;
    SamePrefix(MAY_DAY, "T" + a, "T" + b);
    SamePrefix("T", a, b);
    assert a == "0" + ("8:00:00" + CHICAGO) && b == "0" + ("9:00:00" + PARIS);
    SamePrefix("0", "8:00:00" + CHICAGO, "9:00:00" + PARIS);
    FirstDecides("8:00:00" + CHICAGO, "9:00:00" + PARIS);
  }

  lemma FirstDecides(a: string, b: string)
    requires a != "" && b != "" && a[0] < b[0]
    ensures StringLe(a, b)
  {
  }

  /** Every event is readable, ends after it starts and starts in the window; still a slot of
      the sweep lies over one of them. */
  lemma MisorderedTexts()
    ensures var w := Window(At(6), At(20), [CHICAGO_EVENT, PARIS_EVENT], ReadIso);
            && (forall e | e in w.events :: w.Readable(e) && w.start <= w.From(e) < w.To(e) <= w.limit)
            && exists s, e :: s in Sweep(w, 30 * MINUTE) && e in w.events && w.Clashes(e, s.from, s.to)
  {
    hide ReadIso, DayNumber, StringLe, Sweep;
    var w := Window(At(6), At(20), [CHICAGO_EVENT, PARIS_EVENT], ReadIso);
    Instants();
    TextOrder();
    Apart();
    SortOfSorted([CHICAGO_EVENT, PARIS_EVENT], ByStart);
    var sorted := InTextOrder(w);
    assert sorted == [CHICAGO_EVENT, PARIS_EVENT];
    assert CursorAt(w, sorted, 0) == At(6);
    assert Opens(w, 30 * MINUTE, sorted, 0) && w.Clashes(sorted[1], CursorAt(w, sorted, 0), w.From(sorted[0]));
    ClashExactlyWhen(w, 30 * MINUTE);
  }

  /** The event starts behind the window: the slot before it reaches out of the window. */
  lemma LateEvent()
    ensures var w := Window(At(6), At(9), [CHICAGO_EVENT], ReadIso);
            exists s :: s in Sweep(w, 30 * MINUTE) && s.to > w.limit
  {
    hide ReadIso, DayNumber, StringLe, Sweep;
    var w := Window(At(6), At(9), [CHICAGO_EVENT], ReadIso);
    Instants();
    Apart();
    SortOfSorted([CHICAGO_EVENT], ByStart);
    var sorted := InTextOrder(w);
    assert sorted == [CHICAGO_EVENT];
    assert CursorAt(w, sorted, 0) == At(6);
    assert Opens(w, 30 * MINUTE, sorted, 0) && w.From(sorted[0]) > w.limit;
    SweepSlots(w, 30 * MINUTE, Gap(w, sorted, 0));
  }

  lemma Apart()
    ensures At(6) < At(7) < At(8) < At(9) < At(13) < At(14) < At(20) && At(13) - At(6) >= 30 * MINUTE
  {
    hide DayNumber;
  }
}

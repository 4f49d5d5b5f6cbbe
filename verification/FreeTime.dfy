/** The calendar's free-time sweep. */
module FreeTime {
  import opened Text
  import opened Sorting
  import opened IsoTime

  /** An event as listed: its start and end texts. */
  datatype Event = Event(start: string, end: string)

  datatype Slot = Slot(from: int, to: int)

  datatype Result = Slots(slots: seq<Slot>) | BadWindow

  /** A window with its listed events; `parse` reads a time text, or refuses it. */
  datatype Window = Window(start: int, limit: int, events: seq<Event>, parse: string -> Option<int>) {

    predicate Readable(e: Event) { parse(e.start).Some? && parse(e.end).Some? }

    function From(e: Event): int requires Readable(e) { parse(e.start).value }

    function To(e: Event): int requires Readable(e) { parse(e.end).value }

    /** `e` takes up some time between `a` and `b`. */
    predicate Clashes(e: Event, a: int, b: int) {
      Readable(e) && From(e) < b && a < To(e)
    }

    predicate Free(a: int, b: int) {
      start <= a < b <= limit && forall e | e in events :: !Clashes(e, a, b)
    }

    /** A free interval inside no longer one. */
    ghost predicate Maximal(a: int, b: int) {
      Free(a, b) && forall x, y :: Free(x, y) && x <= a && b <= y ==> x == a && y == b
    }

    /** What the calendar service promises of a listing. */
    predicate WellListed() {
      && (forall e | e in events && Readable(e) :: From(e) < To(e) && From(e) <= limit)
      && (forall e, g | e in events && g in events && Readable(e) && Readable(g) && StringLe(e.start, g.start) ::
          From(e) <= From(g))
    }
  }

  predicate ByStart(a: Event, b: Event) { StringLe(a.start, b.start) }

  function Later(a: int, b: int): int { if a < b then b else a }

  /** The gaps the sweep finds from `cursor` on, given the events still to come. */
  function SweepFrom(w: Window, length: int, events: seq<Event>, cursor: int): seq<Slot> {
    if events == [] then
      if w.limit - cursor >= length then [Slot(cursor, w.limit)] else []
    else
      var e := events[0];
      if !w.Readable(e) then SweepFrom(w, length, events[1..], cursor)
      else if w.From(e) - cursor >= length && cursor < w.From(e) then
        [Slot(cursor, w.From(e))] + SweepFrom(w, length, events[1..], Later(cursor, w.To(e)))
      else SweepFrom(w, length, events[1..], Later(cursor, w.To(e)))
  }

  function Sweep(w: Window, length: int): seq<Slot> {
    SweepFrom(w, length, Sort(w.events, ByStart), w.start)
  }

  predicate InOrder(slots: seq<Slot>) {
    && (forall i | 0 <= i < |slots| :: slots[i].from < slots[i].to)
    && (forall i, j | 0 <= i < j < |slots| :: slots[i].to < slots[j].from)
  }

  /** Everything the window allows up to `cursor`, and nothing else, is in `slots`. */
  ghost predicate Swept(w: Window, length: int, slots: seq<Slot>, cursor: int) {
    && (forall s | s in slots :: w.Maximal(s.from, s.to) && s.to - s.from >= length && s.to < cursor)
    && (forall a, b | w.Maximal(a, b) && b - a >= length && a < cursor :: Slot(a, b) in slots)
  }

  /** The sweep has passed exactly the events of `done`. */
  predicate Passed(w: Window, done: seq<Event>, cursor: int) {
    && w.start <= cursor
    && (forall e | e in done && w.Readable(e) :: w.To(e) <= cursor)
    && (cursor == w.start || exists e :: e in done && w.Readable(e) && w.To(e) == cursor)
  }

  lemma AddSlot(slots: seq<Slot>, s: Slot)
    requires InOrder(slots) && s.from < s.to && forall x | x in slots :: x.to < s.from
    ensures InOrder(slots + [s])
  {
    forall i | 0 <= i < |slots| ensures slots[i].to < s.from { assert slots[i] in slots; }
  }

  /** From the cursor to `b` nothing is listed, and neither end can be moved out. */
  lemma GapMaximal(w: Window, done: seq<Event>, cursor: int, b: int)
    requires w.WellListed() && Passed(w, done, cursor) && cursor < b <= w.limit
    requires forall e | e in done :: e in w.events
    requires forall e | e in w.events && w.Readable(e) :: e in done || b <= w.From(e)
    requires b == w.limit || exists e :: e in w.events && w.Readable(e) && w.From(e) == b
    ensures w.Maximal(cursor, b)
  {
    forall x, y | w.Free(x, y) && x <= cursor && b <= y ensures x == cursor && y == b {
      CursorBlocks(w, done, cursor, x, y);
      NextBlocks(w, b, x, y);
    }
  }

  lemma CursorBlocks(w: Window, done: seq<Event>, cursor: int, x: int, y: int)
    requires w.WellListed() && Passed(w, done, cursor) && cursor < y && forall e | e in done :: e in w.events
    ensures w.start <= x < cursor ==> !w.Free(x, y)
  {
    if w.start <= x < cursor {
      var e :| e in done && w.Readable(e) && w.To(e) == cursor;
      assert w.Clashes(e, x, y);
    }
  }

  lemma NextBlocks(w: Window, b: int, x: int, y: int)
    requires w.WellListed() && x < b
    requires b == w.limit || exists e :: e in w.events && w.Readable(e) && w.From(e) == b
    ensures b < y ==> !w.Free(x, y)
  {
    if b < y <= w.limit {
      var e :| e in w.events && w.Readable(e) && w.From(e) == b;
      assert w.Clashes(e, x, y);
    }
  }

  /** Every maximal free interval from the cursor on and before `b` ends is the gap itself. */
  lemma OnlyTheGap(w: Window, cursor: int, b: int, x: int, y: int)
    requires w.Maximal(cursor, b) && w.Maximal(x, y) && cursor <= x && y <= b
    ensures x == cursor && y == b
  {
  }

  lemma PassOver(w: Window, length: int, slots: seq<Slot>, cursor: int, e: Event)
    requires Swept(w, length, slots, cursor) && e in w.events && w.Readable(e) && w.From(e) <= cursor
    ensures Swept(w, length, slots, Later(cursor, w.To(e)))
  {
    assert forall a, b | cursor <= a < w.To(e) && a < b :: w.Clashes(e, a, b);
  }

  lemma PassGap(w: Window, length: int, slots: seq<Slot>, cursor: int, e: Event)
    requires Swept(w, length, slots, cursor) && e in w.events && w.Readable(e) && cursor < w.From(e) < w.To(e)
    requires w.Maximal(cursor, w.From(e))
    ensures Swept(w, length, if w.From(e) - cursor >= length then slots + [Slot(cursor, w.From(e))] else slots, w.To(e))
  {
    var next := if w.From(e) - cursor >= length then slots + [Slot(cursor, w.From(e))] else slots;
    forall a, b | w.Maximal(a, b) && b - a >= length && a < w.To(e) ensures Slot(a, b) in next {
      if cursor <= a {
        assert !w.Clashes(e, a, b);
        OnlyTheGap(w, cursor, w.From(e), a, b);
      }
    }
  }

  lemma PassedMore(w: Window, done: seq<Event>, cursor: int, e: Event)
    requires Passed(w, done, cursor)
    ensures Passed(w, done + [e], if w.Readable(e) then Later(cursor, w.To(e)) else cursor)
  {
    assert e in done + [e];
    assert forall x | x in done :: x in done + [e];
  }

  lemma LastGap(w: Window, length: int, slots: seq<Slot>, cursor: int)
    requires Swept(w, length, slots, cursor) && w.start <= cursor
    requires cursor < w.limit ==> w.Maximal(cursor, w.limit)
    requires length > 0
    ensures var all := if w.limit - cursor >= length then slots + [Slot(cursor, w.limit)] else slots;
            forall a, b :: Slot(a, b) in all <==> w.Maximal(a, b) && b - a >= length
  {
    var all := if w.limit - cursor >= length then slots + [Slot(cursor, w.limit)] else slots;
    forall a, b | w.Maximal(a, b) && b - a >= length ensures Slot(a, b) in all {
      if cursor <= a { OnlyTheGap(w, cursor, w.limit, a, b); }
    }
    forall a, b | Slot(a, b) in all ensures w.Maximal(a, b) && b - a >= length {
      assert Slot(a, b) in slots || Slot(a, b) == Slot(cursor, w.limit);
    }
  }

  function Minutes(requested: int): (m: int)
    ensures 1 <= m <= 1440 && (m < requested ==> m == 1440) && (m > requested ==> m == 1)
  {
    if requested < 1 then 1 else if requested < 1440 then requested else 1440
  }

  /** What later events of the sorted listing start after. */
  lemma SortedFrom(w: Window, sorted: seq<Event>, i: nat)
    requires w.WellListed() && SortedBy(sorted, ByStart) && i < |sorted| && w.Readable(sorted[i])
    requires forall e :: e in sorted <==> e in w.events
    ensures forall e | e in w.events && w.Readable(e) :: e in sorted[..i] || w.From(sorted[i]) <= w.From(e)
  {
    forall e | e in w.events && w.Readable(e) ensures e in sorted[..i] || w.From(sorted[i]) <= w.From(e) {
      var j :| 0 <= j < |sorted| && sorted[j] == e;
      if i < j { assert ByStart(sorted[i], sorted[j]); }
    }
  }

  /** The sweep continued: what it has found and what it will find are together the maximal
      free intervals that are long enough, in order. */
  lemma {:induction false} SweepOn(w: Window, length: int, sorted: seq<Event>, i: nat, cursor: int, slots: seq<Slot>)
    requires w.WellListed() && length > 0 && SortedBy(sorted, ByStart) && i <= |sorted|
    requires forall e :: e in sorted <==> e in w.events
    requires Passed(w, sorted[..i], cursor) && Swept(w, length, slots, cursor) && InOrder(slots)
    ensures var all := slots + SweepFrom(w, length, sorted[i..], cursor);
            InOrder(all) && forall a, b :: Slot(a, b) in all <==> w.Maximal(a, b) && b - a >= length
    decreases |sorted| - i
  {
    hide Swept, Passed, InOrder, SortedBy, StringLe;
    if i == |sorted| {
      assert sorted[..i] == sorted && sorted[i..] == [];
      SweepEnds(w, length, sorted, cursor, slots);
    } else {
      var e := sorted[i];
      assert sorted[..i + 1] == sorted[..i] + [e];
      assert sorted[i..][1..] == sorted[i + 1..];
      assert e in sorted;
      PassedMore(w, sorted[..i], cursor, e);
      if !w.Readable(e) {
        SweepOn(w, length, sorted, i + 1, cursor, slots);
      } else if w.From(e) <= cursor {
        PassOver(w, length, slots, cursor, e);
        SweepOn(w, length, sorted, i + 1, Later(cursor, w.To(e)), slots);
      } else {
        SortedFrom(w, sorted, i);
        GapMaximal(w, sorted[..i], cursor, w.From(e));
        PassGap(w, length, slots, cursor, e);
        if w.From(e) - cursor >= length {
          SweptBefore(w, length, slots, cursor);
          AddSlot(slots, Slot(cursor, w.From(e)));
          SweepOn(w, length, sorted, i + 1, w.To(e), slots + [Slot(cursor, w.From(e))]);
          Regroup(slots, Slot(cursor, w.From(e)), SweepFrom(w, length, sorted[i + 1..], w.To(e)));
        } else {
          SweepOn(w, length, sorted, i + 1, w.To(e), slots);
        }
      }
    }
  }

  lemma Regroup(a: seq<Slot>, s: Slot, b: seq<Slot>)
    ensures (a + [s]) + b == a + ([s] + b)
  {
  }

  lemma SweepEnds(w: Window, length: int, sorted: seq<Event>, cursor: int, slots: seq<Slot>)
    requires w.WellListed() && length > 0
    requires forall e :: e in sorted <==> e in w.events
    requires Passed(w, sorted, cursor) && Swept(w, length, slots, cursor) && InOrder(slots)
    ensures var all := slots + SweepFrom(w, length, [], cursor);
            InOrder(all) && forall a, b :: Slot(a, b) in all <==> w.Maximal(a, b) && b - a >= length
  {
    hide Swept, InOrder;
    if cursor < w.limit { GapMaximal(w, sorted, cursor, w.limit); }
    LastGap(w, length, slots, cursor);
    SweptBefore(w, length, slots, cursor);
    if w.limit - cursor >= length {
      AddSlot(slots, Slot(cursor, w.limit));
    } else {
      assert slots + [] == slots;
    }
  }

  /** On a listing as promised, the sweep finds exactly the maximal free intervals that are
      long enough, in order. */
  lemma SweepExact(w: Window, length: int)
    requires w.WellListed() && length > 0
    ensures InOrder(Sweep(w, length))
    ensures forall a, b :: Slot(a, b) in Sweep(w, length) <==> w.Maximal(a, b) && b - a >= length
  {
    hide Swept, Passed, InOrder, Sort, SortedBy, StringLe;
    var sorted := Sort(w.events, ByStart);
    StartOrder();
    SortSorted(w.events, ByStart);
    SortMembers(w.events, ByStart);
    NothingSwept(w, length);
    assert sorted[..0] == [] && sorted[0..] == sorted;
    SweepOn(w, length, sorted, 0, w.start, []);
    assert [] + Sweep(w, length) == Sweep(w, length);
  }

  function FirstSlots(all: seq<Slot>): seq<Slot> {
    if |all| <= 20 then all else all[..20]
  }

  /** `find_free_time`, for any listing; on one as promised, the slots are the first twenty,
      in order, of the maximal free intervals that are long enough. */
  method FindFreeTime(w: Window, requested: int) returns (r: Result)
    ensures r == if w.limit <= w.start then BadWindow else Slots(FirstSlots(Sweep(w, Minutes(requested) * MINUTE)))
    ensures r.Slots? && w.WellListed() ==>
              var length := Minutes(requested) * MINUTE;
              && InOrder(r.slots) && |r.slots| <= 20
              && (forall s | s in r.slots :: w.Maximal(s.from, s.to) && s.to - s.from >= length)
              && (forall a, b | w.Maximal(a, b) && b - a >= length ::
                  Slot(a, b) in r.slots || (|r.slots| == 20 && r.slots[19].to < a))
  {
    hide InOrder, Sort, StringLe;
    if w.limit <= w.start {
      return BadWindow;
    }
    var length := Minutes(requested) * MINUTE;
    var sorted := Sort(w.events, ByStart);
    var points: seq<Slot> := [];
    var cursor := w.start;
    var i := 0;
    assert sorted[0..] == sorted;
    while i < |sorted|
      invariant 0 <= i <= |sorted|
      invariant points + SweepFrom(w, length, sorted[i..], cursor) == Sweep(w, length)
    {
      var e := sorted[i];
      assert sorted[i..][1..] == sorted[i + 1..];
      i := i + 1;
      if w.Readable(e) {
        var s, f := w.From(e), w.To(e);
        if s <= cursor {
          cursor := Later(cursor, f);
        } else {
          if s - cursor >= length {
            Regroup(points, Slot(cursor, s), SweepFrom(w, length, sorted[i..], Later(cursor, f)));
            points := points + [Slot(cursor, s)];
          }
          if f > cursor {
            cursor := f;
          }
        }
      }
    }
    assert sorted[i..] == [];
    if w.limit - cursor >= length {
      points := points + [Slot(cursor, w.limit)];
    } else {
      assert points + [] == points;
    }
    if w.WellListed() {
      SweepExact(w, length);
      FirstTwenty(w, length, points);
    }
    r := Slots(FirstSlots(points));
  }

  lemma FirstInOrder(all: seq<Slot>)
    requires InOrder(all)
    ensures InOrder(FirstSlots(all)) && |FirstSlots(all)| <= 20
    ensures forall s | s in all :: s in FirstSlots(all) || (|FirstSlots(all)| == 20 && FirstSlots(all)[19].to < s.from)
  {
    var slots := FirstSlots(all);
    forall s | s in all ensures s in slots || (|slots| == 20 && slots[19].to < s.from) {
      var i :| 0 <= i < |all| && all[i] == s;
      if i < |slots| {
        assert slots[i] == s;
      } else {
        assert slots[19] == all[19];
      }
    }
  }

  lemma FirstMembers(all: seq<Slot>)
    ensures forall s | s in FirstSlots(all) :: s in all
  {
  }

  lemma FirstTwenty(w: Window, length: int, all: seq<Slot>)
    requires InOrder(all) && forall a, b :: Slot(a, b) in all <==> w.Maximal(a, b) && b - a >= length
    ensures var slots := FirstSlots(all);
            && InOrder(slots) && |slots| <= 20
            && (forall s | s in slots :: w.Maximal(s.from, s.to) && s.to - s.from >= length)
            && (forall a, b | w.Maximal(a, b) && b - a >= length ::
                Slot(a, b) in slots || (|slots| == 20 && slots[19].to < a))
  {
    hide *;
    FirstInOrder(all);
    FirstMembers(all);
    forall s | s in FirstSlots(all) ensures w.Maximal(s.from, s.to) && s.to - s.from >= length {
      assert Slot(s.from, s.to) in all;
    }
  }

  lemma StartOrder()
    ensures TotalPreorder(ByStart)
  {
    hide StringLe;
    StringLeOrder();
  }

  lemma NothingSwept(w: Window, length: int)
    ensures Swept(w, length, [], w.start) && Passed(w, [], w.start) && InOrder([])
  {
  }

  lemma SweptBefore(w: Window, length: int, slots: seq<Slot>, cursor: int)
    requires Swept(w, length, slots, cursor)
    ensures forall s | s in slots :: s.to < cursor
  {
  }

  // --------------------------------------------------------------- any listing at all

  /** The running cursor before event `i` of the sorted listing. */
  function CursorAt(w: Window, sorted: seq<Event>, i: nat): int
    requires i <= |sorted|
  {
    if i == 0 then w.start
    else
      var e := sorted[i - 1];
      if w.Readable(e) then Later(CursorAt(w, sorted, i - 1), w.To(e)) else CursorAt(w, sorted, i - 1)
  }

  /** Event `i` of the sorted listing opens a gap that is long enough. */
  predicate Opens(w: Window, length: int, sorted: seq<Event>, i: nat)
    requires i < |sorted|
  {
    w.Readable(sorted[i]) && w.From(sorted[i]) - CursorAt(w, sorted, i) >= length
  }

  function Gap(w: Window, sorted: seq<Event>, i: nat): Slot
    requires i < |sorted| && w.Readable(sorted[i])
  {
    Slot(CursorAt(w, sorted, i), w.From(sorted[i]))
  }

  function LastSlot(w: Window, sorted: seq<Event>): Slot {
    Slot(CursorAt(w, sorted, |sorted|), w.limit)
  }

  /** What the sweep finds are the gaps its events open, and the one behind the last event. */
  lemma {:induction false} SweepFinds(w: Window, length: int, sorted: seq<Event>, i: nat, s: Slot)
    requires length > 0 && i <= |sorted|
    ensures s in SweepFrom(w, length, sorted[i..], CursorAt(w, sorted, i)) <==>
            || (exists j :: i <= j < |sorted| && Opens(w, length, sorted, j) && s == Gap(w, sorted, j))
            || (s == LastSlot(w, sorted) && s.to - s.from >= length)
    decreases |sorted| - i
  {
    hide CursorAt;
    if i < |sorted| {
      CursorNext(w, sorted, i);
      assert sorted[i..][1..] == sorted[i + 1..];
      SweepFinds(w, length, sorted, i + 1, s);
      assert (exists j :: i <= j < |sorted| && Opens(w, length, sorted, j) && s == Gap(w, sorted, j)) <==>
             || (Opens(w, length, sorted, i) && s == Gap(w, sorted, i))
             || (exists j :: i + 1 <= j < |sorted| && Opens(w, length, sorted, j) && s == Gap(w, sorted, j));
    } else {
      assert sorted[i..] == [];
    }
  }

  lemma CursorNext(w: Window, sorted: seq<Event>, i: nat)
    requires i < |sorted|
    ensures CursorAt(w, sorted, i + 1) ==
            if w.Readable(sorted[i]) then Later(CursorAt(w, sorted, i), w.To(sorted[i])) else CursorAt(w, sorted, i)
  {
  }

  lemma {:induction false} CursorBehind(w: Window, sorted: seq<Event>, i: nat, j: nat)
    requires j < i <= |sorted| && w.Readable(sorted[j])
    ensures w.To(sorted[j]) <= CursorAt(w, sorted, i)
  {
    if j < i - 1 { CursorBehind(w, sorted, i - 1, j); }
  }

  lemma {:induction false} CursorInside(w: Window, sorted: seq<Event>, i: nat)
    requires i <= |sorted|
    ensures w.start <= CursorAt(w, sorted, i)
  {
    if i > 0 { CursorInside(w, sorted, i - 1); }
  }

  function InTextOrder(w: Window): (sorted: seq<Event>)
    ensures multiset(sorted) == multiset(w.events)
  {
    Sort(w.events, ByStart)
  }

  lemma SweepSlots(w: Window, length: int, s: Slot)
    requires length > 0
    ensures s in Sweep(w, length) <==>
            || (exists j :: 0 <= j < |InTextOrder(w)| && Opens(w, length, InTextOrder(w), j)
                            && s == Gap(w, InTextOrder(w), j))
            || (s == LastSlot(w, InTextOrder(w)) && s.to - s.from >= length)
  {
    hide Sort, Opens, Gap, LastSlot;
    var sorted := InTextOrder(w);
    assert sorted[0..] == sorted && CursorAt(w, sorted, 0) == w.start;
    SweepFinds(w, length, sorted, 0, s);
  }

  /** A gap clashes with event `j` only if `j` comes behind the event that opens it. */
  lemma GapClash(w: Window, length: int, sorted: seq<Event>, i: nat, j: nat)
    requires length > 0 && i < |sorted| && j < |sorted| && Opens(w, length, sorted, i)
    requires w.Clashes(sorted[j], CursorAt(w, sorted, i), w.From(sorted[i]))
    ensures i < j
  {
    hide CursorAt;
    if j < i { CursorBehind(w, sorted, i, j); }
  }

  lemma LastClash(w: Window, sorted: seq<Event>, j: nat)
    requires j < |sorted|
    ensures !w.Clashes(sorted[j], LastSlot(w, sorted).from, LastSlot(w, sorted).to)
  {
    if w.Readable(sorted[j]) { CursorBehind(w, sorted, |sorted|, j); }
  }

  /** For any listing: some slot lies over a listed event exactly when an event that opens a
      long-enough gap is followed, in the order of the texts, by one that clashes with that gap. */
  lemma ClashExactlyWhen(w: Window, length: int)
    requires length > 0
    ensures var sorted := InTextOrder(w);
            (exists s, e :: s in Sweep(w, length) && e in w.events && w.Clashes(e, s.from, s.to)) <==>
            (exists i, j :: 0 <= i < j < |sorted| && Opens(w, length, sorted, i)
                            && w.Clashes(sorted[j], CursorAt(w, sorted, i), w.From(sorted[i])))
  {
    hide Sort, Sweep, CursorAt, StringLe, InTextOrder;
    var sorted := InTextOrder(w);
    MembersPermuted(sorted, w.events);
    if s, e :| s in Sweep(w, length) && e in w.events && w.Clashes(e, s.from, s.to) {
      SweepSlots(w, length, s);
      var j :| 0 <= j < |sorted| && sorted[j] == e;
      LastClash(w, sorted, j);
      var i :| 0 <= i < |sorted| && Opens(w, length, sorted, i) && s == Gap(w, sorted, i);
      GapClash(w, length, sorted, i, j);
    }
    if i, j :| 0 <= i < j < |sorted| && Opens(w, length, sorted, i)
               && w.Clashes(sorted[j], CursorAt(w, sorted, i), w.From(sorted[i])) {
      OpenIsReadable(w, length, sorted, i);
      SweepSlots(w, length, Gap(w, sorted, i));
      assert sorted[j] in w.events;
    }
  }

  lemma OpenIsReadable(w: Window, length: int, sorted: seq<Event>, i: nat)
    requires i < |sorted| && Opens(w, length, sorted, i)
    ensures w.Readable(sorted[i])
  {
  }

  /** For any listing: some slot reaches out of the window exactly when an event that starts
      behind it opens a long-enough gap. */
  lemma OutsideExactlyWhen(w: Window, length: int)
    requires length > 0
    ensures var sorted := InTextOrder(w);
            (exists s :: s in Sweep(w, length) && !(w.start <= s.from && s.to <= w.limit)) <==>
            (exists i :: 0 <= i < |sorted| && Opens(w, length, sorted, i) && w.From(sorted[i]) > w.limit)
  {
    hide Sort, Sweep, CursorAt, StringLe, InTextOrder;
    var sorted := InTextOrder(w);
    if s :| s in Sweep(w, length) && !(w.start <= s.from && s.to <= w.limit) {
      SweepSlots(w, length, s);
      CursorInside(w, sorted, |sorted|);
      var i :| 0 <= i < |sorted| && Opens(w, length, sorted, i) && s == Gap(w, sorted, i);
      CursorInside(w, sorted, i);
    }
    if i :| 0 <= i < |sorted| && Opens(w, length, sorted, i) && w.From(sorted[i]) > w.limit {
      SweepSlots(w, length, Gap(w, sorted, i));
    }
  }
}

// The economic-calendar index: events sorted by start, searched by two bisections.
module CalendarIndex {
  import opened Bisect
  import opened Options
  import opened StableSort
  import opened Text

  datatype Result<T> = Ok(value: T) | ValueError

  // Times are microseconds since the epoch; a naive datetime carries no zone.
  datatype DateTime = Aware(instant: int) | Naive

  datatype Event = Event(title: string, country: string, start: int, impact: string, symbols: seq<string>)

  /* ----------------------------------------------------------------- matching events */

  function Canonical(s: string): string {
    Upper(Strip(s))
  }

  function Canonicals(symbols: seq<string>): seq<string> {
    if symbols == [] then []
    else
      var last := symbols[|symbols| - 1];
      Canonicals(symbols[..|symbols| - 1]) + if Strip(last) == "" then [] else [Canonical(last)]
  }

  predicate At(text: string, i: nat, part: string) {
    i + |part| <= |text| && text[i..i + |part|] == part
  }

  predicate Contains(text: string, part: string) {
    exists i | 0 <= i <= |text| :: At(text, i, part)
  }

  function NewEvent(title: string, country: string, start: DateTime, impact: string, symbols: seq<string>): Result<Event> {
    if start.Naive? then ValueError
    else Ok(Event(title, country, start.instant, Each(Strip(impact), LowerChar), Canonicals(symbols)))
  }

  predicate AffectsSymbol(e: Event, symbol: string) {
    && symbol != ""
    && if e.symbols != [] then Canonical(symbol) in e.symbols else Contains(Canonical(symbol), Canonical(e.country))
  }

  lemma {:induction false} CanonicalsKeepNonBlank(symbols: seq<string>)
    ensures forall t :: t in Canonicals(symbols) <==> exists s :: s in symbols && Strip(s) != "" && Canonical(s) == t
  {
    if symbols != [] {
      var init, last := symbols[..|symbols| - 1], symbols[|symbols| - 1];
      CanonicalsKeepNonBlank(init);
      assert symbols == init + [last];
      assert forall s :: s in symbols <==> s in init || s == last;
    }
  }

  // The code, in any letter case, stands somewhere in the text.
  ghost predicate HoldsCode(text: string, code: string) {
    exists i :: IsCodeAt(text, i, code)
  }

  predicate IsCodeAt(text: string, i: nat, code: string) {
    i + |code| <= |text| && SameLetters(text[i..i + |code|], code)
  }

  lemma CodeInUpperCase(text: string, code: string)
    ensures Contains(Upper(text), Upper(code)) <==> HoldsCode(text, code)
  {
    forall i: nat
      ensures At(Upper(text), i, Upper(code)) <==> IsCodeAt(text, i, code)
    {
      if i + |code| <= |text| {
        UpperIs(text[i..i + |code|], code);
        assert Upper(text)[i..i + |code|] == Upper(text[i..i + |code|]);
      }
    }
    if i: nat :| IsCodeAt(text, i, code) {
      assert At(Upper(text), i, Upper(code));
    }
  }

  // An event made with at least one non-blank symbol affects exactly the symbols it was made with,
  // whatever their case and outer blanks; otherwise those that contain its country code.
  lemma AffectsAsConstructed(title: string, country: string, instant: int, impact: string, symbols: seq<string>, symbol: string)
    ensures var listed := exists s :: s in symbols && Strip(s) != "";
            AffectsSymbol(NewEvent(title, country, Aware(instant), impact, symbols).value, symbol) <==>
              && symbol != ""
              && (listed ==> exists s :: s in symbols && Strip(s) != "" && SameLetters(Strip(s), Strip(symbol)))
              && (!listed ==> HoldsCode(Strip(symbol), Strip(country)))
  {
    CanonicalsKeepNonBlank(symbols);
    CodeInUpperCase(Strip(symbol), Strip(country));
    var kept := Canonicals(symbols);
    forall s
      ensures Canonical(s) == Canonical(symbol) <==> SameLetters(Strip(s), Strip(symbol))
    {
      UpperIs(Strip(s), Strip(symbol));
    }
    if s :| s in symbols && Strip(s) != "" {
      assert Canonical(s) in kept;
    } else {
      assert forall t :: t !in kept;
      IsEmpty(kept);
    }
  }

  // An event is made exactly of an aware start, which it keeps; its impact loses outer blanks and capitals.
  lemma NewEventKeeps(title: string, country: string, start: DateTime, impact: string, symbols: seq<string>)
    ensures var e := NewEvent(title, country, start, impact, symbols);
            && (e.ValueError? <==> start.Naive?)
            && (start.Aware? ==>
                  && e.value.title == title && e.value.country == country && e.value.start == start.instant
                  && SameLetters(e.value.impact, Strip(impact)) && forall c :: c in e.value.impact ==> !IsUpper(c))
  {
    LowerIs(Strip(impact));
  }

  /* ------------------------------------------------------------------------- queries */

  // A missing or empty impact set and a missing symbol select everything.
  predicate Selected(e: Event, levels: set<string>, symbol: Option<string>) {
    (levels == {} || e.impact in levels) && (symbol.Some? ==> AffectsSymbol(e, symbol.value))
  }

  // The blackout window of the event contains now.
  predicate InBlackout(e: Event, now: int, before: int, after: int) {
    e.start - before * 60_000_000 <= now <= e.start + after * 60_000_000
  }

  function Active(now: int, before: int, after: int, levels: set<string>, symbol: Option<string>): Event -> bool {
    (e: Event) => InBlackout(e, now, before, after) && Selected(e, levels, symbol)
  }

  function Upcoming(ts: int, levels: set<string>): Event -> bool {
    (e: Event) => ts < e.start && Selected(e, levels, None)
  }

  function ByStart(): (Event, Event) -> bool {
    (a: Event, b: Event) => a.start <= b.start
  }

  function Starts(events: seq<Event>): seq<int> {
    seq(|events|, i requires 0 <= i < |events| => events[i].start)
  }

  function Chosen(levels: set<string>, symbol: Option<string>): Event -> bool {
    (e: Event) => Selected(e, levels, symbol)
  }

  lemma StartsAscend(events: seq<Event>)
    requires Ordered(events, ByStart())
    ensures Sorted(Starts(events))
  {
    forall i, j | 0 <= i < j < |events|
      ensures Starts(events)[i] <= Starts(events)[j]
    {
      assert ByStart()(events[i], events[j]);
    }
  }

  lemma SliceIsScan(events: seq<Event>, now: int, before: nat, after: nat, levels: set<string>, symbol: Option<string>,
                    lo: int, hi: int, l: nat, r: nat)
    requires Ordered(events, ByStart())
    requires lo == now - after * 60_000_000 && hi == now + before * 60_000_000
    requires l == Left(Starts(events), lo) && r == Right(Starts(events), hi)
    ensures l <= r <= |events|
    ensures Filter(events[l..r], Chosen(levels, symbol)) == Filter(events, Active(now, before, after, levels, symbol))
  {
    StartsAscend(events);
    Between(Starts(events), lo, hi, l, r);
    var p, q := Active(now, before, after, levels, symbol), Chosen(levels, symbol);
    forall i | 0 <= i < |events|
      ensures p(events[i]) == (l <= i < r && q(events[i]))
    {
      assert Starts(events)[i] == events[i].start;
    }
    ScanStretch(events, l, r, p, q);
  }

  lemma StartsBeyond(starts: seq<int>, ts: int, idx: nat, i: nat)
    requires Sorted(starts) && idx == Right(starts, ts) && i < |starts|
    ensures ts < starts[i] <==> idx <= i
  {
    assert i < idx ==> starts[i] <= starts[idx - 1];
  }

  lemma TailIsScan(events: seq<Event>, ts: int, levels: set<string>, idx: nat)
    requires Ordered(events, ByStart()) && idx == Right(Starts(events), ts)
    ensures Filter(events[idx..], Chosen(levels, None)) == Filter(events, Upcoming(ts, levels))
  {
    StartsAscend(events);
    var p, q := Upcoming(ts, levels), Chosen(levels, None);
    forall i | 0 <= i < |events|
      ensures p(events[i]) == (idx <= i < |events| && q(events[i]))
    {
      StartsBeyond(Starts(events), ts, idx, i);
      assert Starts(events)[i] == events[i].start;
    }
    ScanStretch(events, idx, |events|, p, q);
    assert events[idx..|events|] == events[idx..];
  }

  /* ----------------------------------------------------------------------- the index */

  class EventIndex {
    var events: seq<Event>
    var starts: seq<int>

    ghost predicate Valid()
      reads this
    {
      Ordered(events, ByStart()) && starts == Starts(events)
    }

    constructor (events: seq<Event>)
      ensures Valid() && this.events == Sort(events, ByStart())
    {
      var sorted := Sort(events, ByStart());
      SortSorts(events, ByStart());
      this.events := sorted;
      this.starts := Starts(sorted);
    }

    // The two bisections and the walk between them find, in order, what a scan of all events finds.
    method ActiveEventsAt(now: DateTime, minutesBefore: int, minutesAfter: int, levels: set<string>, symbol: Option<string>)
      returns (r: Result<seq<Event>>)
      requires Valid()
      ensures r.ValueError? <==> now.Naive? || minutesBefore < 0 || minutesAfter < 0
      ensures r.Ok? ==> r.value == Filter(events, Active(now.instant, minutesBefore, minutesAfter, levels, symbol))
    {
      if now.Naive? {
        return ValueError;
      }
      if minutesBefore < 0 || minutesAfter < 0 {
        return ValueError;
      }
      var beforeDelta := minutesBefore * 60_000_000;
      var afterDelta := minutesAfter * 60_000_000;
      var loStart := now.instant - afterDelta;
      var hiStart := now.instant + beforeDelta;
      var lo := Left(starts, loStart);
      var hi := Right(starts, hiStart);
      SliceIsScan(events, now.instant, minutesBefore, minutesAfter, levels, symbol, loStart, hiStart, lo, hi);
      var candidates := events[lo..hi];
      var out := [];
      var i := 0;
      while i < |candidates|
        invariant i <= |candidates|
        invariant out == Filter(candidates[..i], Chosen(levels, symbol))
      {
        var event := candidates[i];
        FilterStep(candidates, i, Chosen(levels, symbol));
        i := i + 1;
        if levels != {} && event.impact !in levels {
          continue;
        }
        if symbol.Some? && !AffectsSymbol(event, symbol.value) {
          continue;
        }
        out := out + [event];
      }
      assert candidates[..i] == candidates;
      return Ok(out);
    }

    method NextEventAfter(ts: DateTime, levels: set<string>) returns (r: Result<Option<Event>>)
      requires Valid()
      ensures r.ValueError? <==> ts.Naive?
      ensures r.Ok? ==>
        var upcoming := Filter(events, Upcoming(ts.instant, levels));
        r.value == if upcoming == [] then None else Some(upcoming[0])
    {
      if ts.Naive? {
        return ValueError;
      }
      var idx := Right(starts, ts.instant);
      var later := events[idx..];
      TailIsScan(events, ts.instant, levels, idx);
      var i := 0;
      while i < |later|
        invariant i <= |later|
        invariant Filter(later[..i], Chosen(levels, None)) == []
      {
        var event := later[i];
        FilterStep(later, i, Chosen(levels, None));
        i := i + 1;
        if levels != {} && event.impact !in levels {
          continue;
        }
        FilterHead(later, i, Chosen(levels, None));
        return Ok(Some(event));
      }
      assert later[..i] == later;
      return Ok(None);
    }
  }

  /* ------------------------------------------------- the index against the raw events */

  lemma ByStartIsTotal()
    ensures TotalPreorder(ByStart())
  {
  }

  // What the index answers is the linear filter of the events it was built from, put in start order
  // with events of the same start in the order they were given.
  lemma ActiveIsLinearScan(given: seq<Event>, now: int, before: nat, after: nat, levels: set<string>, symbol: Option<string>)
    ensures var p := Active(now, before, after, levels, symbol);
            var active := Filter(Sort(given, ByStart()), p);
            && active == Sort(Filter(given, p), ByStart())
            && Ordered(active, ByStart())
            && (forall e :: e in active <==>
                  && e in given
                  && e.start - now <= before * 60_000_000 && now - e.start <= after * 60_000_000
                  && (levels == {} || e.impact in levels) && (symbol.None? || AffectsSymbol(e, symbol.value)))
            && multiset(active) == multiset(Filter(given, p))
  {
    var p := Active(now, before, after, levels, symbol);
    ByStartIsTotal();
    FilterSort(given, ByStart(), p);
    SortSorts(Filter(given, p), ByStart());
    FilterHolds(given, p);
  }

  // An empty set of impacts asks for all of them.
  predicate HasImpact(e: Event, levels: set<string>) {
    levels != {} ==> e.impact in levels
  }

  // The next event is the earliest selected event strictly after ts, and of several the first given.
  lemma NextIsEarliest(given: seq<Event>, ts: int, levels: set<string>)
    ensures var upcoming := Filter(Sort(given, ByStart()), Upcoming(ts, levels));
            && (upcoming == [] <==> forall e :: e in given ==> e.start <= ts || !HasImpact(e, levels))
            && (upcoming != [] ==>
                  && upcoming[0] in given && ts < upcoming[0].start && HasImpact(upcoming[0], levels)
                  && (forall e :: e in given && ts < e.start && HasImpact(e, levels) ==> upcoming[0].start <= e.start)
                  && exists k: nat ::
                       FirstLeast(Filter(given, Upcoming(ts, levels)), ByStart(), k)
                       && upcoming[0] == Filter(given, Upcoming(ts, levels))[k])
  {
    var p := Upcoming(ts, levels);
    var scanned := Filter(given, p);
    ByStartIsTotal();
    FilterSort(given, ByStart(), p);
    FilterHolds(given, p);
    if scanned == [] {
      assert forall e :: e in given ==> !p(e);
    } else {
      var k := HeadIsFirstLeast(scanned, ByStart());
      assert scanned[k] in scanned;
    }
  }
}

// Fetching a window of bars from a server that caps every answer, by paging the anchor backward,
// and stitching the overlapping chunks into one table.
module FetchStitch {
  import opened Options
  import S = StableSort

  datatype Bar = Bar(time: int, ohlcv: seq<real>)

  datatype Outcome = Stopped | TooManyAnchors

  datatype Fetched = Fetched(chunks: seq<seq<Bar>>, outcome: Outcome)

  // The driver's safety ceiling on anchors; the theorems below hold for any limit.
  const MAX_ANCHORS: nat := 200

  ghost predicate Ascending(bars: seq<Bar>) {
    forall i, j :: 0 <= i < j < |bars| ==> bars[i].time < bars[j].time
  }

  /* ------------------------------------------------------------------ the server */

  // The number of the first n bars that are not after the anchor.
  function UpTo(bars: seq<Bar>, anchor: int, n: nat): (p: nat)
    requires n <= |bars|
    ensures p <= n
    ensures 0 < p ==> bars[p - 1].time <= anchor
    ensures p < n ==> anchor < bars[p].time
  {
    if n == 0 || bars[n - 1].time <= anchor then n else UpTo(bars, anchor, n - 1)
  }

  // Index of the oldest bar in an answer that ends before index p.
  function Oldest(p: nat, cap: nat): nat {
    if p < cap then 0 else p - cap
  }

  // The newest `cap` bars at or before the anchor, whatever start the caller asks for.
  function Serve(history: seq<Bar>, cap: nat, anchor: int): seq<Bar> {
    var p := UpTo(history, anchor, |history|);
    history[Oldest(p, cap)..p]
  }

  lemma UpToIs(bars: seq<Bar>, anchor: int, p: nat)
    requires Ascending(bars) && p <= |bars|
    requires 0 < p ==> bars[p - 1].time <= anchor
    requires p < |bars| ==> anchor < bars[p].time
    ensures UpTo(bars, anchor, |bars|) == p
  {
  }

  /* ------------------------------------------------------------------- the paging */

  // A page that begins at t is the last: it meets the window start, or is no older than the one before.
  predicate StopsAt(t: int, start: int, prevMin: Option<int>) {
    t <= start || (prevMin.Some? && t >= prevMin.value)
  }

  function Prepended(chunk: seq<Bar>, rest: Fetched): Fetched {
    Fetched([chunk] + rest.chunks, rest.outcome)
  }

  // The remaining pages: `left` more anchors are allowed, `prevMin` is the previous chunk's minimum.
  function Pages(history: seq<Bar>, cap: nat, start: int, anchor: int, prevMin: Option<int>, left: nat): Fetched
    requires 0 < cap
    decreases left
  {
    if left == 0 then Fetched([], TooManyAnchors) else
    var chunk := Serve(history, cap, anchor);
    if chunk == [] then Fetched([], Stopped)
    else if StopsAt(chunk[0].time, start, prevMin) then Fetched([chunk], Stopped)
    else Prepended(chunk, Pages(history, cap, start, chunk[0].time, Some(chunk[0].time), left - 1))
  }

  function Campaign(history: seq<Bar>, cap: nat, start: int, end: int, limit: nat): Fetched
    requires 0 < cap
  {
    Pages(history, cap, start, end, None, limit)
  }

  // The anchor loop; the chunk files it leaves behind are `chunks`.
  method FetchShard(history: seq<Bar>, cap: nat, start: int, end: int, limit: nat := MAX_ANCHORS) returns (chunks: seq<seq<Bar>>, outcome: Outcome)
    requires 0 < cap
    ensures Fetched(chunks, outcome) == Campaign(history, cap, start, end, limit)
  {
    chunks := [];
    var anchor := end;
    var prevMin: Option<int> := None;
    ghost var rest := Campaign(history, cap, start, end, limit);
    for idx := 0 to limit
      invariant rest == Pages(history, cap, start, anchor, prevMin, limit - idx)
      invariant Campaign(history, cap, start, end, limit) == Fetched(chunks + rest.chunks, rest.outcome)
    {
      var chunk := Serve(history, cap, anchor);
      if chunk == [] {
        return chunks, Stopped;
      }
      ghost var before := chunks;
      chunks := chunks + [chunk];
      var minTime := chunk[0].time;
      if minTime <= start {
        return chunks, Stopped;
      }
      if prevMin.Some? && minTime >= prevMin.value {
        return chunks, Stopped;
      }
      rest := Pages(history, cap, start, minTime, Some(minTime), limit - idx - 1);
      assert before + ([chunk] + rest.chunks) == chunks + rest.chunks;
      prevMin := Some(minTime);
      anchor := minTime;
    }
    return chunks, TooManyAnchors;
  }

  /* --------------------------------------------------------------------- coverage */

  // What holds before every page: the anchor is the end of the window or the bar before index p.
  ghost predicate At(history: seq<Bar>, anchor: int, prevMin: Option<int>, p: nat) {
    && p == UpTo(history, anchor, |history|)
    && (prevMin.Some? ==> prevMin.value == anchor && 0 < p && history[p - 1].time == anchor)
  }

  ghost predicate InSome(chunks: seq<seq<Bar>>, bar: Bar) {
    exists j :: 0 <= j < |chunks| && bar in chunks[j]
  }

  // The chunks hold exactly the bars m .. p of the server's history.
  ghost predicate Hold(chunks: seq<seq<Bar>>, history: seq<Bar>, m: nat, p: nat)
    requires m <= p <= |history|
  {
    forall bar :: InSome(chunks, bar) <==> bar in history[m..p]
  }

  lemma HoldOne(chunk: seq<Bar>, history: seq<Bar>, m: nat, p: nat)
    requires m <= p <= |history| && chunk == history[m..p]
    ensures Hold([chunk], history, m, p)
  {
    forall bar ensures InSome([chunk], bar) <==> bar in history[m..p] {
      if bar in chunk { assert bar in [chunk][0]; }
    }
  }

  lemma HoldMore(chunks: seq<seq<Bar>>, history: seq<Bar>, m: nat, o: nat, p: nat)
    requires m <= o < p <= |history| && Hold(chunks, history, m, o + 1)
    ensures Hold([history[o..p]] + chunks, history, m, p)
  {
    var all := [history[o..p]] + chunks;
    forall bar ensures InSome(all, bar) <==> bar in history[m..p] {
      if InSome(all, bar) {
        var j :| 0 <= j < |all| && bar in all[j];
        if 0 < j {
          assert bar in chunks[j - 1];
          assert InSome(chunks, bar) && bar in history[m..o + 1];
          var i :| m <= i < o + 1 && history[i] == bar;
          assert history[m..p][i - m] == bar;
        }
      }
      if bar in history[m..p] {
        var i :| m <= i < p && history[i] == bar;
        if o <= i {
          assert history[o..p][i - o] == bar;
          assert bar in all[0];
        } else {
          assert history[m..o + 1][i - m] == bar;
          assert bar in history[m..o + 1] && InSome(chunks, bar);
          var j :| 0 <= j < |chunks| && bar in chunks[j];
          assert bar in all[j + 1];
        }
      }
    }
  }

  ghost predicate AnchorsAt(history: seq<Bar>, o: nat) {
    o < |history| ==> UpTo(history, history[o].time, |history|) == o + 1
  }

  // Anchored at the time of a bar, an answer ends with that bar.
  ghost predicate Anchored(history: seq<Bar>) {
    forall o: nat :: AnchorsAt(history, o)
  }

  lemma AscendingIsAnchored(history: seq<Bar>)
    requires Ascending(history)
    ensures Anchored(history)
  {
    forall o: nat | o < |history|
      ensures AnchorsAt(history, o)
    {
      UpToIs(history, history[o].time, o + 1);
    }
  }

  // One page and what follows it, with the page named by its oldest index.
  lemma PageStep(history: seq<Bar>, cap: nat, start: int, anchor: int, prevMin: Option<int>, left: nat, p: nat)
    returns (o: nat, chunk: seq<Bar>, t: int)
    requires 0 < cap && 0 < left && 0 < p == UpTo(history, anchor, |history|)
    ensures o == Oldest(p, cap) && o < p <= |history| && chunk == history[o..p] && t == history[o].time
    ensures Pages(history, cap, start, anchor, prevMin, left) ==
            if StopsAt(t, start, prevMin) then Fetched([chunk], Stopped)
            else Prepended(chunk, Pages(history, cap, start, t, Some(t), left - 1))
  {
    o := Oldest(p, cap);
    chunk := Serve(history, cap, anchor);
    t := chunk[0].time;
  }

  // A page that is no older than the one before holds the very first bar only.
  lemma NoProgressIsFloor(history: seq<Bar>, cap: nat, prevMin: Option<int>, p: nat)
    requires Ascending(history) && 2 <= cap && 0 < p <= |history|
    requires prevMin.Some? ==> prevMin.value == history[p - 1].time
    ensures prevMin.Some? && history[Oldest(p, cap)].time >= prevMin.value ==> Oldest(p, cap) == 0
  {
  }

  // Index of the oldest bar on the last page, or none when the anchors run out first.
  function Bottom(history: seq<Bar>, cap: nat, start: int, prevMin: Option<int>, left: nat, p: nat): (m: Option<nat>)
    requires 0 < cap && 0 < p <= |history|
    ensures m.Some? ==> m.value < p
    decreases left
  {
    if left == 0 then None
    else
      var o := Oldest(p, cap);
      var t := history[o].time;
      if StopsAt(t, start, prevMin) then Some(o) else Bottom(history, cap, start, Some(t), left - 1, o + 1)
  }

  // What one page decides, by index.
  lemma PageOutcome(history: seq<Bar>, cap: nat, start: int, anchor: int, prevMin: Option<int>, left: nat, p: nat)
    returns (o: nat, t: int)
    requires Anchored(history) && 0 < cap && 0 < left && 0 < p == UpTo(history, anchor, |history|)
    ensures o == Oldest(p, cap) && o < p <= |history| && t == history[o].time && o + 1 == UpTo(history, t, |history|)
    ensures Pages(history, cap, start, anchor, prevMin, left).outcome ==
            if StopsAt(t, start, prevMin) then Stopped else Pages(history, cap, start, t, Some(t), left - 1).outcome
  {
    var chunk;
    o, chunk, t := PageStep(history, cap, start, anchor, prevMin, left, p);
    assert AnchorsAt(history, o);
  }

  lemma {:induction false} StopsIffBottom(history: seq<Bar>, cap: nat, start: int, anchor: int, prevMin: Option<int>, left: nat, p: nat)
    requires Anchored(history) && 0 < cap && 0 < p == UpTo(history, anchor, |history|)
    ensures Pages(history, cap, start, anchor, prevMin, left).outcome.Stopped? <==> Bottom(history, cap, start, prevMin, left, p).Some?
    decreases left
  {
    if left != 0 {
      var o, t := PageOutcome(history, cap, start, anchor, prevMin, left, p);
      if !StopsAt(t, start, prevMin) {
        StopsIffBottom(history, cap, start, t, Some(t), left - 1, o + 1);
      }
    }
  }

  lemma {:induction false} HoldsToBottom(history: seq<Bar>, cap: nat, start: int, anchor: int, prevMin: Option<int>, left: nat, p: nat, m: nat)
    requires Anchored(history) && 0 < cap && 0 < p == UpTo(history, anchor, |history|)
    requires m < p && Bottom(history, cap, start, prevMin, left, p) == Some(m)
    ensures Hold(Pages(history, cap, start, anchor, prevMin, left).chunks, history, m, p)
    decreases left
  {
    var o, chunk, t := PageStep(history, cap, start, anchor, prevMin, left, p);
    var chunks := Pages(history, cap, start, anchor, prevMin, left).chunks;
    if StopsAt(t, start, prevMin) {
      HoldOne(chunk, history, o, p);
      assert chunks == [chunk];
    } else {
      var rest := Pages(history, cap, start, t, Some(t), left - 1).chunks;
      assert AnchorsAt(history, o);
      HoldsToBottom(history, cap, start, t, Some(t), left - 1, o + 1, m);
      HoldMore(rest, history, m, o, p);
      assert chunks == [chunk] + rest;
    }
  }

  // The paging stops at the window start or at the oldest bar of all.
  lemma {:induction false} BottomReaches(history: seq<Bar>, cap: nat, start: int, prevMin: Option<int>, left: nat, p: nat)
    requires Ascending(history) && 2 <= cap && 0 < p <= |history|
    requires prevMin.Some? ==> prevMin.value == history[p - 1].time
    ensures var m := Bottom(history, cap, start, prevMin, left, p); m.Some? ==> m.value == 0 || history[m.value].time <= start
    decreases left
  {
    var o := Oldest(p, cap);
    var t := history[o].time;
    if left == 0 {
    } else if StopsAt(t, start, prevMin) {
      NoProgressIsFloor(history, cap, prevMin, p);
    } else {
      BottomReaches(history, cap, start, Some(t), left - 1, o + 1);
    }
  }

  // Whenever the paging stops by itself, its chunks hold one gapless stretch of the history that
  // reaches from the anchor down to the window start or to the oldest bar there is.
  lemma StoppedCovers(history: seq<Bar>, cap: nat, start: int, anchor: int, prevMin: Option<int>, left: nat, p: nat)
    returns (m: nat)
    requires Ascending(history) && 2 <= cap && At(history, anchor, prevMin, p) && 0 < p
    requires Pages(history, cap, start, anchor, prevMin, left).outcome.Stopped?
    ensures m < p && Hold(Pages(history, cap, start, anchor, prevMin, left).chunks, history, m, p)
    ensures m == 0 || history[m].time <= start
  {
    AscendingIsAnchored(history);
    StopsIffBottom(history, cap, start, anchor, prevMin, left, p);
    m := Bottom(history, cap, start, prevMin, left, p).value;
    HoldsToBottom(history, cap, start, anchor, prevMin, left, p, m);
    BottomReaches(history, cap, start, prevMin, left, p);
  }

  ghost predicate Covers(f: Fetched, history: seq<Bar>, start: int, end: int) {
    f.outcome.Stopped? ==> forall bar :: bar in history && start <= bar.time <= end ==> InSome(f.chunks, bar)
  }

  lemma HeldAt(chunks: seq<seq<Bar>>, history: seq<Bar>, m: nat, p: nat, i: nat)
    requires m <= i < p <= |history| && Hold(chunks, history, m, p)
    ensures InSome(chunks, history[i])
  {
    assert history[m..p][i - m] == history[i];
  }

  lemma WindowWithin(history: seq<Bar>, start: int, end: int, m: nat, i: nat)
    requires Ascending(history) && m < |history| && i < |history| && start <= history[i].time <= end
    requires m == 0 || history[m].time <= start
    ensures m <= i < UpTo(history, end, |history|)
  {
  }

  lemma CampaignCovers(history: seq<Bar>, cap: nat, start: int, end: int, limit: nat)
    requires Ascending(history) && 2 <= cap
    ensures Covers(Campaign(history, cap, start, end, limit), history, start, end)
  {
    var f := Campaign(history, cap, start, end, limit);
    var p := UpTo(history, end, |history|);
    if f.outcome.Stopped? && 0 < p {
      var m := StoppedCovers(history, cap, start, end, None, limit, p);
      forall bar | bar in history && start <= bar.time <= end ensures InSome(f.chunks, bar) {
        var i :| 0 <= i < |history| && history[i] == bar;
        WindowWithin(history, start, end, m, i);
        HeldAt(f.chunks, history, m, p, i);
      }
    }
  }

  // With one bar an answer the first page is taken for the history floor.
  lemma OneBarPagesMissBars()
    ensures var history := [Bar(0, []), Bar(60, [])];
            Ascending(history) && !Covers(Campaign(history, 1, 0, 60, 2), history, 0, 60)
  {
    var history := [Bar(0, []), Bar(60, [])];
    UpToIs(history, 60, 2);
    var chunk := Serve(history, 1, 60);
    assert chunk == [Bar(60, [])];
    var f := Campaign(history, 1, 0, 60, 2);
    assert Pages(history, 1, 0, 60, Some(60), 1) == Fetched([chunk], Stopped);
    assert f == Fetched([chunk] + [chunk], Stopped);
    assert Bar(0, []) in history && !InSome(f.chunks, Bar(0, []));
  }

  // The paging is complete on every history and window exactly for servers answering two bars or more.
  lemma CoversIffTwoBarAnswers(cap: nat)
    requires 0 < cap
    ensures (forall history, start, end, limit :: Ascending(history) ==> Covers(Campaign(history, cap, start, end, limit), history, start, end))
            <==> 2 <= cap
  {
    if 2 <= cap {
      forall history, start, end, limit | Ascending(history)
        ensures Covers(Campaign(history, cap, start, end, limit), history, start, end)
      {
        CampaignCovers(history, cap, start, end, limit);
      }
    } else {
      OneBarPagesMissBars();
    }
  }

  /* ------------------------------------------------------------ progress and limit */

  ghost predicate AllFull(chunks: seq<seq<Bar>>) {
    forall j :: 0 <= j < |chunks| ==> chunks[j] != []
  }

  lemma {:induction false} PagesAreFull(history: seq<Bar>, cap: nat, start: int, anchor: int, prevMin: Option<int>, left: nat)
    requires 0 < cap
    ensures AllFull(Pages(history, cap, start, anchor, prevMin, left).chunks)
    decreases left
  {
    if left != 0 {
      var chunk := Serve(history, cap, anchor);
      if chunk != [] { PagesAreFull(history, cap, start, chunk[0].time, Some(chunk[0].time), left - 1); }
    }
  }

  // On every page but the last, the oldest bar is strictly older than on the page before.
  ghost predicate MinimaDecrease(chunks: seq<seq<Bar>>)
    requires AllFull(chunks)
  {
    forall j :: 0 < j < |chunks| - 1 ==> chunks[j][0].time < chunks[j - 1][0].time
  }

  lemma {:induction false} AnchorsMoveBack(history: seq<Bar>, cap: nat, start: int, anchor: int, prevMin: Option<int>, left: nat)
    requires 0 < cap
    ensures var chunks := Pages(history, cap, start, anchor, prevMin, left).chunks;
            && AllFull(chunks)
            && MinimaDecrease(chunks)
            && (1 < |chunks| && prevMin.Some? ==> chunks[0][0].time < prevMin.value)
    decreases left
  {
    PagesAreFull(history, cap, start, anchor, prevMin, left);
    var chunks: seq<seq<Bar>> := Pages(history, cap, start, anchor, prevMin, left).chunks;
    if 1 < |chunks| {
      var t := chunks[0][0].time;
      AnchorsMoveBack(history, cap, start, t, Some(t), left - 1);
      var rest := Pages(history, cap, start, t, Some(t), left - 1).chunks;
      assert chunks == [chunks[0]] + rest;
      forall j | 0 < j < |chunks| - 1 ensures chunks[j][0].time < chunks[j - 1][0].time {
        assert chunks[j] == rest[j - 1];
        assert 1 < j ==> chunks[j - 1] == rest[j - 2];
      }
    }
  }

  // Bars a run can page through with n anchors at full pages.
  function Reach(cap: nat, n: nat): nat
    requires 0 < cap
  {
    if n == 0 then 0 else cap - 1 + Reach(cap, n - 1)
  }

  lemma {:induction false} ReachIsProduct(cap: nat, n: nat)
    requires 0 < cap
    ensures Reach(cap, n) == n * (cap - 1)
  {
    if n != 0 {
      ReachIsProduct(cap, n - 1);
      assert n * (cap - 1) == (n - 1) * (cap - 1) + (cap - 1);
    }
  }

  // More bars lie ahead of index p than the given number of anchors can page through: s bars are at
  // or before the window start, and without any the floor itself takes one more page to recognise.
  ghost predicate OutOfReach(cap: nat, left: nat, p: nat, s: nat)
    requires 0 < cap
  {
    left == 0 || if 0 < s then Reach(cap, left) + s < p else Reach(cap, left - 1) + 1 < p
  }

  lemma OutOfReachLater(cap: nat, left: nat, p: nat, s: nat)
    requires 2 <= cap && 0 < left && 0 < p && s <= p
    ensures s <= Oldest(p, cap) && p != 1 ==> (OutOfReach(cap, left, p, s) <==> OutOfReach(cap, left - 1, Oldest(p, cap) + 1, s))
    ensures !(s <= Oldest(p, cap) && p != 1) ==> !OutOfReach(cap, left, p, s)
  {
    assert Reach(cap, left) == cap - 1 + Reach(cap, left - 1);
    if 1 < left { assert Reach(cap, left - 1) == cap - 1 + Reach(cap, left - 2); }
  }

  lemma {:induction false} ExceedsLimitLater(history: seq<Bar>, cap: nat, start: int, left: nat, p: nat, s: nat)
    requires Ascending(history) && 2 <= cap && 0 < p <= |history|
    requires s == UpTo(history, start, |history|) && s <= p
    ensures Bottom(history, cap, start, Some(history[p - 1].time), left, p).None? <==> OutOfReach(cap, left, p, s)
    decreases left
  {
    if left != 0 {
      var o := Oldest(p, cap);
      PageStops(history, cap, start, p, s);
      OutOfReachLater(cap, left, p, s);
      if s <= o && p != 1 {
        ExceedsLimitLater(history, cap, start, left - 1, o + 1, s);
      }
    }
  }

  // When a page meets the window start, and when it makes no progress.
  lemma PageStops(history: seq<Bar>, cap: nat, start: int, p: nat, s: nat)
    requires Ascending(history) && 2 <= cap && 0 < p <= |history|
    requires s == UpTo(history, start, |history|)
    ensures var t := history[Oldest(p, cap)].time;
            && (t <= start <==> Oldest(p, cap) < s)
            && (t >= history[p - 1].time <==> p == 1)
  {
  }

  lemma ExceedsLimit(history: seq<Bar>, cap: nat, start: int, limit: nat, p: nat, s: nat)
    requires Ascending(history) && 2 <= cap && 0 < p <= |history| && 2 <= limit
    requires s == UpTo(history, start, |history|) && s <= p
    ensures Bottom(history, cap, start, None, limit, p).None? <==> OutOfReach(cap, limit, p, s)
  {
    var o := Oldest(p, cap);
    PageStops(history, cap, start, p, s);
    OutOfReachLater(cap, limit, p, s);
    if s <= o {
      ExceedsLimitLater(history, cap, start, limit - 1, o + 1, s);
    }
  }

  // A campaign raises for too many anchors exactly when the window holds more bars than its anchors
  // can reach; with the driver's 200, more than 200 or 199 full answers less their overlaps.
  lemma CampaignExceedsLimit(history: seq<Bar>, cap: nat, start: int, end: int, limit: nat)
    requires Ascending(history) && 2 <= cap && start <= end && 2 <= limit
    ensures var p, s := UpTo(history, end, |history|), UpTo(history, start, |history|);
            Campaign(history, cap, start, end, limit).outcome.TooManyAnchors?
            <==> if 0 < s then limit * (cap - 1) < p - s else (limit - 1) * (cap - 1) + 1 < p
  {
    var p, s := UpTo(history, end, |history|), UpTo(history, start, |history|);
    UpToIsMonotone(history, start, end);
    ReachIsProduct(cap, limit);
    ReachIsProduct(cap, limit - 1);
    if 0 < p {
      AscendingIsAnchored(history);
      StopsIffBottom(history, cap, start, end, None, limit, p);
      ExceedsLimit(history, cap, start, limit, p, s);
    } else {
      assert Serve(history, cap, end) == [];
      assert Reach(cap, limit - 1) >= 0;
    }
  }

  lemma UpToIsMonotone(bars: seq<Bar>, a: int, b: int)
    requires Ascending(bars) && a <= b
    ensures UpTo(bars, a, |bars|) <= UpTo(bars, b, |bars|)
  {
  }

  /* -------------------------------------------------------------------- stitching */

  function Concat(frames: seq<seq<Bar>>): seq<Bar> {
    if frames == [] then [] else Concat(frames[..|frames| - 1]) + frames[|frames| - 1]
  }

  predicate HasTime(bars: seq<Bar>, t: int) {
    exists i :: 0 <= i < |bars| && bars[i].time == t
  }

  // drop_duplicates(subset=["time"], keep="first")
  function DropDuplicates(raw: seq<Bar>): seq<Bar> {
    if raw == [] then [] else
    var kept, last := DropDuplicates(raw[..|raw| - 1]), raw[|raw| - 1];
    if HasTime(kept, last.time) then kept else kept + [last]
  }

  function ByTime(): (Bar, Bar) -> bool {
    (a: Bar, b: Bar) => a.time <= b.time
  }

  function SortByTime(bars: seq<Bar>): seq<Bar> {
    S.Sort(bars, ByTime())
  }

  // None is the error for a directory without chunks.
  function LoadAndDedupe(frames: seq<seq<Bar>>): Option<seq<Bar>> {
    if frames == [] then None else Some(SortByTime(DropDuplicates(Concat(frames))))
  }

  // The row that comes first among those with time t.
  ghost predicate FirstWithTime(raw: seq<Bar>, bar: Bar) {
    exists i :: 0 <= i < |raw| && raw[i] == bar && forall j :: 0 <= j < i ==> raw[j].time != bar.time
  }

  ghost predicate DistinctTimes(bars: seq<Bar>) {
    forall i, j :: 0 <= i < j < |bars| ==> bars[i].time != bars[j].time
  }

  lemma {:induction false} DropDuplicatesKeepsFirsts(raw: seq<Bar>)
    ensures var kept := DropDuplicates(raw);
            DistinctTimes(kept) && forall bar :: bar in kept <==> FirstWithTime(raw, bar)
  {
    if raw != [] {
      var n := |raw| - 1;
      var init, kept, last := raw[..n], DropDuplicates(raw[..n]), raw[n];
      DropDuplicatesKeepsFirsts(init);
      FirstsHaveAllTimes(init, last.time);
      assert HasTime(kept, last.time) <==> HasTime(init, last.time) by {
        if HasTime(init, last.time) {
          var bar: Bar :| bar.time == last.time && FirstWithTime(init, bar);
          assert bar in kept;
        }
        if HasTime(kept, last.time) {
          var i :| 0 <= i < |kept| && kept[i].time == last.time;
          assert kept[i] in kept;
        }
      }
      forall bar ensures bar in DropDuplicates(raw) <==> FirstWithTime(raw, bar) {
        FirstWithTimeAppend(init, last, bar);
        assert raw == init + [last];
      }
    }
  }

  lemma {:induction false} FirstsHaveAllTimes(raw: seq<Bar>, t: int)
    ensures HasTime(raw, t) <==> exists bar: Bar :: bar.time == t && FirstWithTime(raw, bar)
  {
    if HasTime(raw, t) {
      var n := |raw| - 1;
      if HasTime(raw[..n], t) {
        FirstsHaveAllTimes(raw[..n], t);
        var bar: Bar :| bar.time == t && FirstWithTime(raw[..n], bar);
        FirstWithTimeAppend(raw[..n], raw[n], bar);
        assert raw == raw[..n] + [raw[n]];
      } else {
        forall j | 0 <= j < n ensures raw[j].time != t { assert raw[..n][j] == raw[j]; }
        assert FirstWithTime(raw, raw[n]);
      }
    }
  }

  lemma FirstWithTimeAppend(raw: seq<Bar>, last: Bar, bar: Bar)
    ensures FirstWithTime(raw + [last], bar) <==> FirstWithTime(raw, bar) || (bar == last && !HasTime(raw, last.time))
  {
    var all := raw + [last];
    assert forall j :: 0 <= j < |raw| ==> all[j] == raw[j];
    if FirstWithTime(raw, bar) {
      var i :| 0 <= i < |raw| && raw[i] == bar && forall j :: 0 <= j < i ==> raw[j].time != bar.time;
      assert all[i] == bar;
    }
    if FirstWithTime(all, bar) {
      var i :| 0 <= i < |all| && all[i] == bar && forall j :: 0 <= j < i ==> all[j].time != bar.time;
      if i < |raw| { assert raw[i] == bar && forall j :: 0 <= j < i ==> raw[j].time != bar.time; }
    }
    if bar == last && !HasTime(raw, last.time) {
      assert all[|raw|] == bar && forall j :: 0 <= j < |raw| ==> all[j].time != bar.time;
    }
  }

  lemma OrderedAscends(bars: seq<Bar>)
    requires S.Ordered(bars, ByTime()) && DistinctTimes(bars)
    ensures Ascending(bars)
  {
    forall i, j | 0 <= i < j < |bars|
      ensures bars[i].time < bars[j].time
    {
      assert ByTime()(bars[i], bars[j]);
    }
  }

  lemma SameTimesDistinct(a: seq<Bar>, b: seq<Bar>)
    requires DistinctTimes(a) && multiset(a) == multiset(b)
    ensures DistinctTimes(b)
  {
    forall i, j | 0 <= i < j < |b|
      ensures b[i].time != b[j].time
    {
      TwoPlaces(b, i, j);
      assert multiset(a)[b[i]] > 0 && multiset(a)[b[j]] > 0;
      assert b[i] in a && b[j] in a;
      var k :| 0 <= k < |a| && a[k] == b[i];
      var m :| 0 <= m < |a| && a[m] == b[j];
      if b[i] == b[j] {
        OnePlace(a, k);
      }
    }
  }

  lemma TwoPlaces(b: seq<Bar>, i: nat, j: nat)
    requires i < j < |b|
    ensures b[i] == b[j] ==> multiset(b)[b[i]] >= 2
  {
    assert b == b[..j] + [b[j]] + b[j + 1..];
    assert b[..j][i] == b[i];
    assert b[i] in multiset(b[..j]);
  }

  lemma {:induction false} OnePlace(a: seq<Bar>, k: nat)
    requires DistinctTimes(a) && k < |a|
    ensures multiset(a)[a[k]] == 1
  {
    assert a == a[..k] + [a[k]] + a[k + 1..];
    assert a[k] !in a[..k] && a[k] !in a[k + 1..];
  }

  lemma SortSorts(bars: seq<Bar>)
    requires DistinctTimes(bars)
    ensures Ascending(SortByTime(bars)) && |SortByTime(bars)| == |bars|
    ensures forall b :: b in SortByTime(bars) <==> b in bars
  {
    assert S.TotalPreorder(ByTime());
    S.SortSorts(bars, ByTime());
    SameTimesDistinct(bars, SortByTime(bars));
    OrderedAscends(SortByTime(bars));
  }

  // The row comes first among those with its time in its chunk, and no chunk before has one.
  ghost predicate ReadFirst(frames: seq<seq<Bar>>, bar: Bar) {
    exists i :: 0 <= i < |frames| && FirstWithTime(frames[i], bar) && forall k :: 0 <= k < i ==> !HasTime(frames[k], bar.time)
  }

  lemma HasTimeAppend(a: seq<Bar>, b: seq<Bar>, t: int)
    ensures HasTime(a + b, t) <==> HasTime(a, t) || HasTime(b, t)
  {
    assert forall j :: 0 <= j < |b| ==> (a + b)[|a| + j] == b[j];
    assert forall j :: 0 <= j < |a| ==> (a + b)[j] == a[j];
  }

  lemma FirstInEither(a: seq<Bar>, b: seq<Bar>, bar: Bar)
    ensures FirstWithTime(a + b, bar) <==> FirstWithTime(a, bar) || (FirstWithTime(b, bar) && !HasTime(a, bar.time))
  {
    var all := a + b;
    assert forall j :: 0 <= j < |a| ==> all[j] == a[j];
    assert forall j :: 0 <= j < |b| ==> all[|a| + j] == b[j];
    if FirstWithTime(all, bar) {
      var i :| 0 <= i < |all| && all[i] == bar && forall j :: 0 <= j < i ==> all[j].time != bar.time;
      if |a| <= i {
        assert forall j :: 0 <= j < i - |a| ==> b[j] == all[|a| + j];
        assert b[i - |a|] == bar;
      } else {
        assert a[i] == bar && forall j :: 0 <= j < i ==> a[j].time != bar.time;
      }
    }
    if i :| 0 <= i < |a| && a[i] == bar && forall j :: 0 <= j < i ==> a[j].time != bar.time {
      assert all[i] == bar;
    } else if FirstWithTime(b, bar) && !HasTime(a, bar.time) {
      var i :| 0 <= i < |b| && b[i] == bar && forall j :: 0 <= j < i ==> b[j].time != bar.time;
      assert all[|a| + i] == bar && forall j :: |a| <= j < |a| + i ==> all[j] == b[j - |a|];
    }
  }

  lemma {:induction false} HasTimeConcat(frames: seq<seq<Bar>>, t: int)
    ensures HasTime(Concat(frames), t) <==> exists i :: 0 <= i < |frames| && HasTime(frames[i], t)
  {
    if frames != [] {
      var n := |frames| - 1;
      HasTimeConcat(frames[..n], t);
      HasTimeAppend(Concat(frames[..n]), frames[n], t);
      assert forall i :: 0 <= i < n ==> frames[..n][i] == frames[i];
    }
  }

  lemma ReadFirstPush(frames: seq<seq<Bar>>, last: seq<Bar>, bar: Bar)
    ensures ReadFirst(frames + [last], bar) <==>
              ReadFirst(frames, bar) || (FirstWithTime(last, bar) && forall k :: 0 <= k < |frames| ==> !HasTime(frames[k], bar.time))
  {
    var all := frames + [last];
    assert all[|frames|] == last && forall k :: 0 <= k < |frames| ==> all[k] == frames[k];
  }

  lemma {:induction false} FirstIsReadFirst(frames: seq<seq<Bar>>, bar: Bar)
    ensures FirstWithTime(Concat(frames), bar) <==> ReadFirst(frames, bar)
  {
    if frames != [] {
      var init, last := frames[..|frames| - 1], frames[|frames| - 1];
      FirstIsReadFirst(init, bar);
      HasTimeConcat(init, bar.time);
      FirstInEither(Concat(init), last, bar);
      ReadFirstPush(init, last, bar);
      assert frames == init + [last];
    }
  }

  lemma StitchedIs(frames: seq<seq<Bar>>)
    requires frames != []
    ensures var table := LoadAndDedupe(frames).value;
            Ascending(table) && forall bar :: bar in table <==> FirstWithTime(Concat(frames), bar)
  {
    DropDuplicatesKeepsFirsts(Concat(frames));
    SortSorts(DropDuplicates(Concat(frames)));
  }

  // The stitched table has strictly increasing times and holds, for every time in any chunk, exactly
  // the first row with that time of the first chunk that has one; without chunks there is an error.
  lemma StitchedIsExact(frames: seq<seq<Bar>>)
    ensures LoadAndDedupe(frames).None? <==> frames == []
    ensures frames != [] ==>
              var table := LoadAndDedupe(frames).value;
              Ascending(table) && forall bar :: bar in table <==> ReadFirst(frames, bar)
  {
    if frames != [] {
      StitchedIs(frames);
      forall bar
        ensures FirstWithTime(Concat(frames), bar) <==> ReadFirst(frames, bar)
      {
        FirstIsReadFirst(frames, bar);
      }
    }
  }

  lemma {:induction false} ConcatHolds(frames: seq<seq<Bar>>, bar: Bar)
    ensures bar in Concat(frames) <==> InSome(frames, bar)
  {
    if frames != [] {
      var n := |frames| - 1;
      ConcatHolds(frames[..n], bar);
      if InSome(frames, bar) && bar !in frames[n] {
        var j :| 0 <= j < |frames| && bar in frames[j];
        assert bar in frames[..n][j];
      }
    }
  }

  lemma {:induction false} SameBarsSameTable(a: seq<Bar>, b: seq<Bar>)
    requires Ascending(a) && Ascending(b)
    requires forall bar :: bar in a <==> bar in b
    ensures a == b
  {
    assert a != [] ==> a[0] in a;
    assert b != [] ==> b[0] in b;
    if a != [] {
      assert a[0] in b && b[0] in a;
      assert a[0] == b[0];
      forall bar ensures bar in a[1..] <==> bar in b[1..] {
        assert bar in a[1..] <==> bar in a && bar != a[0];
        assert bar in b[1..] <==> bar in b && bar != b[0];
      }
      SameBarsSameTable(a[1..], b[1..]);
      assert a == [a[0]] + a[1..] && b == [b[0]] + b[1..];
    }
  }

  // Fetch, then stitch: the table is a stretch of the server's own history, row for row, ending at
  // the window end and reaching back to the window start or to the oldest bar.
  lemma FetchThenStitch(history: seq<Bar>, cap: nat, start: int, end: int, limit: nat) returns (m: nat, p: nat)
    requires Ascending(history) && 2 <= cap
    requires Campaign(history, cap, start, end, limit).outcome.Stopped?
    ensures p == UpTo(history, end, |history|) && m <= p && (0 < p ==> m < p)
    ensures LoadAndDedupe(Campaign(history, cap, start, end, limit).chunks) == if p == 0 then None else Some(history[m..p])
    ensures m == 0 || history[m].time <= start
  {
    p := UpTo(history, end, |history|);
    m := 0;
    if 0 < p {
      m := StoppedCovers(history, cap, start, end, None, limit, p);
      var frames := Campaign(history, cap, start, end, limit).chunks;
      StitchesHistory(history, frames, m, p);
    }
  }

  // The first row with a time of the stretch is the server's row.
  lemma FirstsAreHistory(history: seq<Bar>, raw: seq<Bar>, m: nat, p: nat, bar: Bar)
    requires Ascending(history) && m < p <= |history|
    requires forall b :: b in raw <==> b in history[m..p]
    ensures FirstWithTime(raw, bar) <==> bar in history[m..p]
  {
    assert FirstWithTime(raw, bar) ==> bar in raw;
    if bar in history[m..p] {
      var i :| 0 <= i < |raw| && raw[i] == bar;
      FirstsHaveAllTimes(raw, bar.time);
      var first: Bar :| first.time == bar.time && FirstWithTime(raw, first);
      assert first in raw;
      SameTimeSameBar(history, m, p, first, bar);
    }
  }

  lemma SameTimeSameBar(history: seq<Bar>, m: nat, p: nat, a: Bar, b: Bar)
    requires Ascending(history) && m < p <= |history| && a in history[m..p] && b in history[m..p] && a.time == b.time
    ensures a == b
  {
    var i :| m <= i < p && history[i] == a;
    var j :| m <= j < p && history[j] == b;
  }

  lemma RawIsStretch(history: seq<Bar>, frames: seq<seq<Bar>>, m: nat, p: nat)
    requires m <= p <= |history| && Hold(frames, history, m, p)
    ensures forall bar :: bar in Concat(frames) <==> bar in history[m..p]
  {
    forall bar
      ensures bar in Concat(frames) <==> bar in history[m..p]
    {
      ConcatHolds(frames, bar);
    }
  }

  lemma FirstsAreStretch(history: seq<Bar>, raw: seq<Bar>, m: nat, p: nat)
    requires Ascending(history) && m < p <= |history|
    requires forall b :: b in raw <==> b in history[m..p]
    ensures forall bar :: FirstWithTime(raw, bar) <==> bar in history[m..p]
  {
    forall bar
      ensures FirstWithTime(raw, bar) <==> bar in history[m..p]
    {
      FirstsAreHistory(history, raw, m, p, bar);
    }
  }

  lemma FirstsMakeTable(raw: seq<Bar>, table: seq<Bar>, stretch: seq<Bar>)
    requires Ascending(table) && Ascending(stretch)
    requires forall bar :: bar in table <==> FirstWithTime(raw, bar)
    requires forall bar :: FirstWithTime(raw, bar) <==> bar in stretch
    ensures table == stretch
  {
    forall bar
      ensures bar in table <==> bar in stretch
    {
      assert bar in table <==> FirstWithTime(raw, bar);
    }
    SameBarsSameTable(table, stretch);
  }

  lemma StretchIsRead(history: seq<Bar>, frames: seq<seq<Bar>>, m: nat, p: nat, stretch: seq<Bar>)
    requires m < p <= |history| && Hold(frames, history, m, p) && stretch == history[m..p]
    ensures frames != [] && (Ascending(history) ==> Ascending(stretch))
  {
    HeldAt(frames, history, m, p, m);
  }

  lemma StitchesHistory(history: seq<Bar>, frames: seq<seq<Bar>>, m: nat, p: nat)
    requires Ascending(history) && m < p <= |history| && Hold(frames, history, m, p)
    ensures LoadAndDedupe(frames) == Some(history[m..p])
  {
    var raw, stretch := Concat(frames), history[m..p];
    StretchIsRead(history, frames, m, p, stretch);
    RawIsStretch(history, frames, m, p);
    FirstsAreStretch(history, raw, m, p);
    StitchedIs(frames);
    FirstsMakeTable(raw, LoadAndDedupe(frames).value, stretch);
  }
}

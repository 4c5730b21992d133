// Daily reset boundaries anchored to a firm's local wall clock, across daylight-saving changes.
// An instant is a number of microseconds in UTC; a wall reading is the same number shown by a local
// clock.  Zones, folds and wall-to-UTC resolution follow PEP 495 and Python's zoneinfo.
module SessionClock {
  const DAY := 86_400_000_000
  const HOUR := 3_600_000_000
  const MINUTE := 60_000_000

  // off[0] applies before at[0], and off[i + 1] from the transition at[i] on.
  datatype Zone = Zone(at: seq<int>, off: seq<int>) {

    function Lo(i: nat): int
      requires i < |at| && i + 1 < |off|
    {
      at[i] + if off[i] <= off[i + 1] then off[i] else off[i + 1]
    }

    function Hi(i: nat): int
      requires i < |at| && i + 1 < |off|
    {
      at[i] + if off[i] <= off[i + 1] then off[i + 1] else off[i]
    }

    function Jump(i: nat): int
      requires i < |at| && i + 1 < |off|
    {
      off[i + 1] - off[i]
    }

    ghost predicate Ascending() {
      && |off| == |at| + 1
      && forall i, j :: 0 <= i < j < |at| ==> at[i] < at[j]
    }

    // The wall readings skipped or repeated by one transition lie before those of the next.
    ghost predicate Valid() {
      && Ascending()
      && forall i: nat, j: nat :: i < j < |at| ==> Hi(i) <= Lo(j)
    }

    // bisect_right over the transitions below n.
    function Reached(u: int, n: nat): (k: nat)
      requires n <= |at|
      ensures k <= n
      ensures 0 < k ==> at[k - 1] <= u
      ensures k < n ==> u < at[k]
    {
      if n == 0 || at[n - 1] <= u then n else Reached(u, n - 1)
    }

    function Segment(u: int): nat {
      Reached(u, |at|)
    }

    // What a local clock shows at instant u.
    function Wall(u: int): int
      requires |off| == |at| + 1
    {
      u + off[Segment(u)]
    }

    // u is the second of two instants with the same wall reading.
    predicate Fold(u: int)
      requires |off| == |at| + 1
    {
      var k := Segment(u);
      0 < k && u - at[k - 1] < off[k - 1] - off[k]
    }

    // The wall reading from which the offset of transition i is used.
    function Switch(i: nat, fold: bool): int
      requires i < |at| && i + 1 < |off|
    {
      if fold then Lo(i) else Hi(i)
    }

    // bisect_right over the switches below n.
    function Passed(wall: int, fold: bool, n: nat): (k: nat)
      requires n <= |at| && |off| == |at| + 1
      ensures k <= n
      ensures 0 < k ==> Switch(k - 1, fold) <= wall
      ensures k < n ==> wall < Switch(k, fold)
    {
      if n == 0 || Switch(n - 1, fold) <= wall then n else Passed(wall, fold, n - 1)
    }

    // The instant meant by a wall reading, as astimezone(utc) computes it.
    function Resolve(wall: int, fold: bool): int
      requires |off| == |at| + 1
    {
      wall - off[Passed(wall, fold, |at|)]
    }
  }

  function ResetTime(hour: nat, minute: nat): (r: nat)
    requires hour < 24 && minute < 60
    ensures r < DAY
  {
    hour * 3_600_000_000 + minute * 60_000_000
  }

  // local_now.replace(hour, minute, 0, 0)
  function OnDayOf(local: int, reset: nat): int {
    local - local % 86_400_000_000 + reset
  }

  function NextReset(z: Zone, reset: nat, now: int): int
    requires |z.off| == |z.at| + 1
  {
    var candidate := OnDayOf(z.Wall(now), reset);
    if candidate <= z.Wall(now) then z.Resolve(candidate + DAY, false) // adding a timedelta clears the fold
    else z.Resolve(candidate, z.Fold(now))
  }

  function PreviousReset(z: Zone, reset: nat, now: int): int
    requires |z.off| == |z.at| + 1
  {
    var candidate := OnDayOf(z.Wall(now), reset);
    if candidate > z.Wall(now) then z.Resolve(candidate - DAY, false)
    else z.Resolve(candidate, z.Fold(now))
  }

  /* ------------------------------------------------------------- what is promised */

  predicate ShowsReset(wall: int, reset: nat) {
    (wall - reset) % 86_400_000_000 == 0
  }

  // The local clock shows the reset time.
  predicate IsReset(z: Zone, reset: nat, u: int)
    requires |z.off| == |z.at| + 1
  {
    ShowsReset(z.Wall(u), reset)
  }

  // The two functions return the resets that enclose `now`, with none in between.
  ghost predicate Exact(z: Zone, reset: nat, now: int)
    requires |z.off| == |z.at| + 1
  {
    var p, n := PreviousReset(z, reset, now), NextReset(z, reset, now);
    && IsReset(z, reset, p) && IsReset(z, reset, n)
    && p <= now < n
    && forall u :: p < u < n ==> !IsReset(z, reset, u)
  }

  // The wall reading is neither skipped nor repeated by any transition.
  ghost predicate Clean(z: Zone, wall: int)
    requires z.Valid()
  {
    forall i: nat :: i < |z.at| ==> !(z.Lo(i) <= wall < z.Hi(i))
  }

  ghost predicate CleanResets(z: Zone, reset: nat)
    requires z.Valid()
  {
    forall wall: int :: ShowsReset(wall, reset) ==> Clean(z, wall)
  }

  /* ----------------------------------------- wall-clock order agrees with UTC order */

  // The wall reading is past the first k transitions and before all others.
  ghost predicate Between(z: Zone, wall: int, k: nat)
    requires z.Valid()
  {
    && k <= |z.at|
    && (forall i: nat :: i < k ==> z.Hi(i) <= wall)
    && (forall i: nat :: k <= i < |z.at| ==> wall < z.Lo(i))
  }

  lemma SegmentIs(z: Zone, u: int, k: nat)
    requires z.Ascending() && k <= |z.at|
    requires 0 < k ==> z.at[k - 1] <= u
    requires k < |z.at| ==> u < z.at[k]
    ensures z.Segment(u) == k
  {
  }

  lemma SwitchesAscend(z: Zone, i: nat, j: nat)
    requires z.Valid() && i <= j < |z.at|
    ensures z.Lo(i) <= z.Lo(j) && z.Hi(i) <= z.Hi(j)
  {
    assert i < j ==> z.Hi(i) <= z.Lo(j);
  }

  lemma PassedIs(z: Zone, wall: int, fold: bool, k: nat)
    requires z.Valid() && k <= |z.at|
    requires 0 < k ==> z.Switch(k - 1, fold) <= wall
    requires k < |z.at| ==> wall < z.Switch(k, fold)
    ensures z.Resolve(wall, fold) == wall - z.off[k]
  {
    var p := z.Passed(wall, fold, |z.at|);
    if p < k { SwitchesAscend(z, p, k - 1); }
    if k < p { SwitchesAscend(z, k, p - 1); }
  }

  lemma CleanIsBetween(z: Zone, wall: int) returns (k: nat)
    requires z.Valid() && Clean(z, wall)
    ensures Between(z, wall, k)
  {
    k := z.Passed(wall, true, |z.at|);
    forall i: nat | i < k ensures z.Hi(i) <= wall {
      assert z.Lo(k - 1) <= wall;
      SwitchesAscend(z, i, k - 1);
    }
    forall i: nat | k <= i < |z.at| ensures wall < z.Lo(i) {
      SwitchesAscend(z, k, i);
    }
  }

  lemma BetweenResolves(z: Zone, wall: int, fold: bool, k: nat)
    requires z.Valid() && Between(z, wall, k)
    ensures z.Resolve(wall, fold) == wall - z.off[k]
  {
    assert k < |z.at| ==> wall < z.Lo(k);
    assert 0 < k ==> z.Hi(k - 1) <= wall;
    PassedIs(z, wall, fold, k);
  }

  lemma BetweenOrders(z: Zone, wall: int, k: nat, u: int)
    requires z.Valid() && Between(z, wall, k)
    ensures u < wall - z.off[k] <==> z.Wall(u) < wall
    ensures u > wall - z.off[k] <==> z.Wall(u) > wall
  {
    var m := z.Segment(u);
    if m < k {
      assert u < z.at[m] && z.at[m] <= z.at[k - 1];
      assert z.at[k - 1] + z.off[k] <= z.Hi(k - 1) <= wall;
      assert z.Wall(u) < z.at[m] + z.off[m] <= z.Hi(m) <= wall;
    } else if k < m {
      assert z.at[m - 1] <= u && z.at[k] <= z.at[m - 1];
      assert wall < z.Lo(k) <= z.at[k] + z.off[k];
      assert wall < z.Lo(m - 1) <= z.at[m - 1] + z.off[m] <= z.Wall(u);
    }
  }

  // For a clean wall reading the fold is irrelevant, the resolved instant shows that reading, and
  // comparing wall readings with it decides the order of instants, whatever jumps lie in between.
  lemma WallOrderIsUtcOrder(z: Zone, wall: int, fold: bool, u: int)
    requires z.Valid() && Clean(z, wall)
    ensures z.Resolve(wall, fold) == z.Resolve(wall, false)
    ensures z.Wall(z.Resolve(wall, fold)) == wall
    ensures u < z.Resolve(wall, fold) <==> z.Wall(u) < wall
    ensures u > z.Resolve(wall, fold) <==> z.Wall(u) > wall
  {
    var k := CleanIsBetween(z, wall);
    BetweenResolves(z, wall, fold, k);
    BetweenResolves(z, wall, false, k);
    BetweenOrders(z, wall, k, u);
    BetweenOrders(z, wall, k, wall - z.off[k]);
  }

  // An instant is found again from what the local clock shows at it and from its fold, through every gap
  // and every repetition.
  lemma ResolveInverts(z: Zone, u: int)
    requires z.Valid()
    ensures z.Resolve(z.Wall(u), z.Fold(u)) == u
  {
    var k, wall := z.Segment(u), z.Wall(u);
    if 0 < k && z.Fold(u) {
      assert z.Lo(k - 1) <= z.at[k - 1] + z.off[k] <= wall < z.Hi(k - 1);
    }
    PassedIs(z, wall, z.Fold(u), k);
  }

  // The fold marks exactly the instants whose reading was shown before.
  lemma FoldIsSecond(z: Zone, u: int)
    requires z.Valid()
    ensures z.Fold(u) <==> exists v :: v < u && z.Wall(v) == z.Wall(u)
  {
    var k, wall := z.Segment(u), z.Wall(u);
    if z.Fold(u) {
      var v := wall - z.off[k - 1];
      assert 1 < k ==> z.Hi(k - 2) <= z.Lo(k - 1);
      SegmentIs(z, v, k - 1);
      assert z.Wall(v) == wall;
    } else if v :| v < u && z.Wall(v) == wall {
      ShownOnce(z, u, v);
    }
  }

  lemma ShownOnce(z: Zone, u: int, v: int)
    requires z.Valid() && !z.Fold(u) && v < u
    ensures z.Wall(v) != z.Wall(u)
  {
    var k, m := z.Segment(u), z.Segment(v);
    if m < k {
      SwitchesAscend(z, m, k - 1);
      assert v < z.at[m] && z.Wall(v) < z.Hi(m) <= z.Hi(k - 1);
    }
  }

  // A reading of any day shows the reset time of the settings exactly when its hour and minute are theirs
  // and nothing is left over.
  lemma ShowsHourAndMinute(day: int, h: nat, m: nat, rest: nat, hour: nat, minute: nat)
    requires h < 24 && m < 60 && rest < MINUTE && hour < 24 && minute < 60
    ensures ShowsReset(day * DAY + h * HOUR + m * MINUTE + rest, ResetTime(hour, minute)) <==>
              h == hour && m == minute && rest == 0
  {
    var off := (h - hour) * HOUR + (m - minute) * MINUTE + rest;
    WholeDays(day, off);
  }

  lemma WholeDays(day: int, off: int)
    requires -DAY < off < DAY
    ensures (day * DAY + off) % DAY == 0 <==> off == 0
  {
  }

  /* ------------------------------------------------------------- enclosing resets */

  // The reset readings around a local reading, whichever branch the code takes.
  function ReadingBefore(local: int, reset: nat): int {
    if OnDayOf(local, reset) > local then OnDayOf(local, reset) - DAY else OnDayOf(local, reset)
  }

  lemma ReadingsEnclose(local: int, reset: nat)
    requires reset < DAY
    ensures ReadingBefore(local, reset) <= local < ReadingBefore(local, reset) + DAY
    ensures ShowsReset(ReadingBefore(local, reset), reset) && ShowsReset(ReadingBefore(local, reset) + DAY, reset)
  {
  }

  lemma NoReadingBetween(before: int, wall: int, reset: nat)
    requires ShowsReset(before, reset) && before < wall < before + DAY
    ensures !ShowsReset(wall, reset)
  {
  }

  lemma ReadingIs(local: int, reset: nat, candidate: int, before: int)
    requires candidate == OnDayOf(local, reset) && before == ReadingBefore(local, reset)
    ensures before == if candidate > local then candidate - DAY else candidate
  {
  }

  // Both functions resolve the readings around `now`; one of them keeps the fold of `now`.
  lemma ResolvedReadings(z: Zone, reset: nat, now: int, candidate: int, before: int)
    requires |z.off| == |z.at| + 1
    requires candidate == OnDayOf(z.Wall(now), reset) && before == ReadingBefore(z.Wall(now), reset)
    ensures var kept := candidate <= z.Wall(now);
            && PreviousReset(z, reset, now) == z.Resolve(before, kept && z.Fold(now))
            && NextReset(z, reset, now) == z.Resolve(before + DAY, !kept && z.Fold(now))
  {
    ReadingIs(z.Wall(now), reset, candidate, before);
    if candidate <= z.Wall(now) {
      assert before == candidate;
    } else {
      assert before + DAY == candidate;
    }
  }

  lemma FoldIsIrrelevant(z: Zone, wall: int, fold: bool)
    requires z.Valid() && Clean(z, wall)
    ensures z.Resolve(wall, fold) == z.Resolve(wall, false)
  {
    WallOrderIsUtcOrder(z, wall, fold, 0);
  }

  lemma UnfoldedReadings(z: Zone, reset: nat, now: int, before: int)
    requires |z.off| == |z.at| + 1 && before == ReadingBefore(z.Wall(now), reset)
    requires z.Resolve(before, z.Fold(now)) == z.Resolve(before, false)
    requires z.Resolve(before + DAY, z.Fold(now)) == z.Resolve(before + DAY, false)
    ensures PreviousReset(z, reset, now) == z.Resolve(before, false)
    ensures NextReset(z, reset, now) == z.Resolve(before + DAY, false)
  {
    ResolvedReadings(z, reset, now, OnDayOf(z.Wall(now), reset), before);
  }

  lemma ResolvedReadingsEnclose(z: Zone, reset: nat, before: int, u: int)
    requires z.Valid() && reset < DAY && ShowsReset(before, reset)
    requires Clean(z, before) && Clean(z, before + DAY)
    ensures var p, n := z.Resolve(before, false), z.Resolve(before + DAY, false);
            && z.Wall(p) == before && z.Wall(n) == before + DAY
            && (p <= u < n <==> before <= z.Wall(u) < before + DAY)
            && (p < u < n ==> !IsReset(z, reset, u))
  {
    WallOrderIsUtcOrder(z, before, false, u);
    WallOrderIsUtcOrder(z, before + DAY, false, u);
    if before < z.Wall(u) < before + DAY {
      NoReadingBetween(before, z.Wall(u), reset);
    }
  }

  lemma NoResetWithin(z: Zone, reset: nat, before: int, p: int, n: int)
    requires z.Valid() && reset < DAY && ShowsReset(before, reset)
    requires Clean(z, before) && Clean(z, before + DAY)
    requires p == z.Resolve(before, false) && n == z.Resolve(before + DAY, false)
    ensures forall u :: p < u < n ==> !IsReset(z, reset, u)
  {
    forall u | p < u < n
      ensures !IsReset(z, reset, u)
    {
      ResolvedReadingsEnclose(z, reset, before, u);
    }
  }

  lemma DistanceOf(z: Zone, p: int, n: int)
    requires |z.off| == |z.at| + 1 && z.Wall(n) == z.Wall(p) + DAY
    ensures n - p == DAY - (z.off[z.Segment(n)] - z.off[z.Segment(p)])
  {
  }

  lemma EnclosingIsExact(z: Zone, reset: nat, now: int, before: int, p: int, n: int)
    requires z.Valid() && reset < DAY && ShowsReset(before, reset) && ShowsReset(before + DAY, reset)
    requires Clean(z, before) && Clean(z, before + DAY) && before <= z.Wall(now) < before + DAY
    requires p == z.Resolve(before, false) == PreviousReset(z, reset, now)
    requires n == z.Resolve(before + DAY, false) == NextReset(z, reset, now)
    ensures Exact(z, reset, now) && z.Wall(n) == z.Wall(p) + DAY
  {
    ResolvedReadingsEnclose(z, reset, before, now);
    NoResetWithin(z, reset, before, p, n);
  }

  // When no day's reset time is skipped or repeated, both functions are exact, the two resets are one
  // wall-clock day apart, and so their distance is 24 hours less the change of offset.
  lemma CleanResetsAreExact(z: Zone, reset: nat, now: int)
    requires z.Valid() && reset < DAY && CleanResets(z, reset)
    ensures Exact(z, reset, now)
    ensures var p, n := PreviousReset(z, reset, now), NextReset(z, reset, now);
            && z.Wall(n) == z.Wall(p) + DAY
            && n - p == DAY - (z.off[z.Segment(n)] - z.off[z.Segment(p)])
  {
    var before := ReadingBefore(z.Wall(now), reset);
    ReadingsEnclose(z.Wall(now), reset);
    FoldIsIrrelevant(z, before, z.Fold(now));
    FoldIsIrrelevant(z, before + DAY, z.Fold(now));
    UnfoldedReadings(z, reset, now, before);
    var p, n := PreviousReset(z, reset, now), NextReset(z, reset, now);
    EnclosingIsExact(z, reset, now, before, p, n);
    DistanceOf(z, p, n);
  }

  // The trading day [previous, next) is one and the same seen from any of its instants, and so the
  // reset after the previous reset is the next reset.
  lemma TradingDayIsStable(z: Zone, reset: nat, now: int, u: int)
    requires z.Valid() && reset < DAY && CleanResets(z, reset)
    requires PreviousReset(z, reset, now) <= u < NextReset(z, reset, now)
    ensures PreviousReset(z, reset, u) == PreviousReset(z, reset, now)
    ensures NextReset(z, reset, u) == NextReset(z, reset, now)
    ensures NextReset(z, reset, PreviousReset(z, reset, now)) == NextReset(z, reset, now)
  {
    var p := PreviousReset(z, reset, now);
    CleanResetsAreExact(z, reset, now);
    CleanResetsAreExact(z, reset, u);
    CleanResetsAreExact(z, reset, p);
  }

  /* ------------------------------------------------- and only when they are clean */

  // Transitions move the clock by less than a day and are at least three days apart.
  ghost predicate Spaced(z: Zone) {
    && |z.off| == |z.at| + 1
    && (forall i: nat :: i < |z.at| ==> -DAY < z.Jump(i) < DAY)
    && (forall i, j :: 0 <= i < j < |z.at| ==> z.at[i] + 3 * DAY <= z.at[j])
  }

  lemma OneReadingADay(a: int, b: int, local: int, reset: nat)
    requires ShowsReset(a, reset) && ShowsReset(b, reset)
    requires a <= local < a + DAY && b <= local < b + DAY
    ensures a == b
  {
    if a < b { NoReadingBetween(a, b, reset); }
    if b < a { NoReadingBetween(b, a, reset); }
  }

  // At the jump over a skipped reading, that reading is the one that gets resolved.
  lemma SkippedReading(z: Zone, i: nat, wall: int) returns (u: int)
    requires z.Valid() && Spaced(z) && i < |z.at|
    requires z.off[i] < z.off[i + 1] && z.Lo(i) <= wall < z.Hi(i)
    ensures u == z.Resolve(wall, false) && wall < z.Wall(u) < wall + DAY
    ensures wall <= z.Wall(z.at[i]) < wall + DAY && !z.Fold(z.at[i])
  {
    assert 0 < z.Jump(i) < DAY;
    WallIs(z, z.at[i], i + 1);
    assert 0 < i ==> z.Hi(i - 1) <= z.Lo(i);
    PassedIs(z, wall, false, i);
    u := wall - z.off[i];
    assert i + 1 < |z.at| ==> z.at[i] + 3 * DAY <= z.at[i + 1];
    WallIs(z, u, i + 1);
  }

  // A skipped reset: previous_reset_at answers an instant that is no reset.
  lemma SkippedResetFails(z: Zone, reset: nat, now: int, wall: int, u: int)
    requires |z.off| == |z.at| + 1 && reset < DAY && ShowsReset(wall, reset)
    requires wall <= z.Wall(now) < wall + DAY && !z.Fold(now)
    requires u == z.Resolve(wall, false) && wall < z.Wall(u) < wall + DAY
    ensures PreviousReset(z, reset, now) == u && !IsReset(z, reset, u)
    ensures !Exact(z, reset, now)
  {
    ReadingsEnclose(z.Wall(now), reset);
    ResolvedReadings(z, reset, now, OnDayOf(z.Wall(now), reset), ReadingBefore(z.Wall(now), reset));
    OneReadingADay(ReadingBefore(z.Wall(now), reset), wall, z.Wall(now), reset);
    NoReadingBetween(wall, z.Wall(u), reset);
  }

  lemma WallIs(z: Zone, u: int, k: nat)
    requires z.Ascending() && k <= |z.at|
    requires 0 < k ==> z.at[k - 1] <= u
    requires k < |z.at| ==> u < z.at[k]
    ensures z.Wall(u) == u + z.off[k]
  {
    SegmentIs(z, u, k);
  }

  ghost predicate Repeats(z: Zone, i: nat, wall: int) {
    Spaced(z) && i < |z.at| && z.off[i + 1] < z.off[i] && z.Lo(i) <= wall < z.Hi(i)
  }

  // A repeated reading is shown before the transition and once more after it.
  lemma ShownBefore(z: Zone, i: nat, wall: int) returns (now: int)
    requires z.Ascending() && Repeats(z, i, wall)
    ensures now == wall - z.off[i] && z.Wall(now) == wall
  {
    now := wall - z.off[i];
    assert -DAY < z.Jump(i);
    assert 0 < i ==> z.at[i - 1] + 3 * DAY <= z.at[i];
    WallIs(z, now, i);
  }

  lemma ShownAfter(z: Zone, i: nat, wall: int) returns (again: int)
    requires z.Ascending() && Repeats(z, i, wall)
    ensures again == wall - z.off[i + 1] && z.Wall(again) == wall
  {
    again := wall - z.off[i + 1];
    assert -DAY < z.Jump(i);
    assert i + 1 < |z.at| ==> z.at[i] + 3 * DAY <= z.at[i + 1];
    WallIs(z, again, i + 1);
  }

  lemma ResolvedNextDay(z: Zone, i: nat, wall: int)
    requires z.Valid() && Repeats(z, i, wall)
    ensures z.Resolve(wall + DAY, false) == wall - z.off[i + 1] + DAY
  {
    assert -DAY < z.Jump(i);
    if i + 1 < |z.at| {
      assert -DAY < z.Jump(i + 1) < DAY && z.at[i] + 3 * DAY <= z.at[i + 1];
      assert wall + DAY < z.Lo(i + 1);
    }
    PassedIs(z, wall + DAY, false, i + 1);
  }

  lemma RepeatedReading(z: Zone, i: nat, wall: int) returns (now: int, again: int)
    requires z.Valid() && Repeats(z, i, wall)
    ensures now < again && z.Wall(now) == z.Wall(again) == wall
    ensures z.Resolve(wall + DAY, false) == again + DAY
  {
    now := ShownBefore(z, i, wall);
    again := ShownAfter(z, i, wall);
    ResolvedNextDay(z, i, wall);
  }

  // A repeated reset: from its first occurrence next_reset_at jumps over the second one.
  lemma RepeatedResetFails(z: Zone, reset: nat, now: int, again: int)
    requires |z.off| == |z.at| + 1 && reset < DAY
    requires now < again && z.Wall(now) == z.Wall(again) && IsReset(z, reset, now)
    requires z.Resolve(z.Wall(now) + DAY, false) == again + DAY
    ensures now < again < NextReset(z, reset, now) && IsReset(z, reset, again)
    ensures !Exact(z, reset, now)
  {
    assert OnDayOf(z.Wall(now), reset) == z.Wall(now);
    ResetBetweenIsInexact(z, reset, now, again);
  }

  lemma ResetBetweenIsInexact(z: Zone, reset: nat, now: int, again: int)
    requires |z.off| == |z.at| + 1
    requires now < again < NextReset(z, reset, now) && IsReset(z, reset, again)
    ensures !Exact(z, reset, now)
  {
    if PreviousReset(z, reset, now) <= now {
      assert PreviousReset(z, reset, now) < again;
    }
  }

  lemma UncleanIsInexact(z: Zone, reset: nat, i: nat, wall: int) returns (now: int)
    requires z.Valid() && Spaced(z) && reset < DAY && ShowsReset(wall, reset)
    requires i < |z.at| && z.Lo(i) <= wall < z.Hi(i)
    ensures !Exact(z, reset, now)
  {
    if z.off[i] < z.off[i + 1] {
      now := z.at[i];
      var u := SkippedReading(z, i, wall);
      SkippedResetFails(z, reset, now, wall, u);
    } else {
      var again;
      now, again := RepeatedReading(z, i, wall);
      RepeatedResetFails(z, reset, now, again);
    }
  }

  // Where the clocks skip a reset time, previous_reset_at answers at the jump an instant that is no reset.
  lemma SkippedResetIsMissed(z: Zone, reset: nat, i: nat, wall: int)
    requires z.Valid() && Spaced(z) && reset < DAY && ShowsReset(wall, reset)
    requires i < |z.at| && z.off[i] < z.off[i + 1] && z.Lo(i) <= wall < z.Hi(i)
    ensures !IsReset(z, reset, PreviousReset(z, reset, z.at[i])) && !Exact(z, reset, z.at[i])
  {
    var u := SkippedReading(z, i, wall);
    SkippedResetFails(z, reset, z.at[i], wall, u);
  }

  // Where they repeat one, next_reset_at jumps from its first occurrence over the second.
  lemma RepeatedResetIsMissed(z: Zone, reset: nat, i: nat, wall: int) returns (first: int, second: int)
    requires z.Valid() && reset < DAY && ShowsReset(wall, reset) && Repeats(z, i, wall)
    ensures IsReset(z, reset, first) && IsReset(z, reset, second) && first < second < NextReset(z, reset, first)
    ensures !Exact(z, reset, first)
  {
    first, second := RepeatedReading(z, i, wall);
    RepeatedResetFails(z, reset, first, second);
  }

  predicate OnSameDay(x: int, y: int) {
    x / DAY == y / DAY
  }

  lemma SameDayReading(local: int, reset: nat, wall: int)
    requires reset < DAY && ShowsReset(wall, reset) && OnSameDay(wall, local)
    ensures OnDayOf(local, reset) == wall
  {
    assert wall == wall / DAY * DAY + wall % DAY && local == local / DAY * DAY + local % DAY;
  }

  lemma RepeatedResolves(z: Zone, i: nat, wall: int, fold: bool)
    requires z.Valid() && Repeats(z, i, wall)
    ensures z.Resolve(wall, fold) == wall - z.off[if fold then i + 1 else i]
  {
    assert 0 < i ==> z.Hi(i - 1) <= z.Lo(i);
    assert i + 1 < |z.at| ==> z.Hi(i) <= z.Lo(i + 1) <= z.Hi(i + 1);
    PassedIs(z, wall, fold, if fold then i + 1 else i);
  }

  // What is answered for a reading of now's own day: the reset before or after now.
  function ResetOfDay(z: Zone, reset: nat, now: int, wall: int): int
    requires |z.off| == |z.at| + 1
  {
    if wall <= z.Wall(now) then PreviousReset(z, reset, now) else NextReset(z, reset, now)
  }

  lemma ResolvedOnItsDay(z: Zone, reset: nat, now: int, wall: int)
    requires |z.off| == |z.at| + 1 && OnDayOf(z.Wall(now), reset) == wall
    ensures ResetOfDay(z, reset, now, wall) == z.Resolve(wall, z.Fold(now))
  {
  }

  lemma OccurrenceShows(z: Zone, i: nat, wall: int, fold: bool, u: int)
    requires z.Valid() && Repeats(z, i, wall) && u == z.Resolve(wall, fold)
    ensures u == wall - z.off[if fold then i + 1 else i] && z.Wall(u) == wall
  {
    RepeatedResolves(z, i, wall, fold);
    if fold {
      var second := ShownAfter(z, i, wall);
      assert u == second;
    } else {
      var first := ShownBefore(z, i, wall);
      assert u == first;
    }
  }

  // When a reset of the same local day is repeated, each of its occurrences belongs to the instants of its
  // own side of the transition: there the reset before or after now is the occurrence of that side.
  lemma RepeatedResetKeepsSide(z: Zone, reset: nat, i: nat, wall: int, now: int)
    requires z.Valid() && reset < DAY && ShowsReset(wall, reset) && Repeats(z, i, wall) && OnSameDay(wall, z.Wall(now))
    ensures var u := ResetOfDay(z, reset, now, wall);
            u == wall - z.off[if z.Fold(now) then i + 1 else i] && z.Wall(u) == wall
  {
    SameDayReading(z.Wall(now), reset, wall);
    ResolvedOnItsDay(z, reset, now, wall);
    OccurrenceShows(z, i, wall, z.Fold(now), ResetOfDay(z, reset, now, wall));
  }

  // The functions keep their promise at every instant exactly when no reset is skipped or repeated.
  lemma ExactIffResetsClean(z: Zone, reset: nat)
    requires z.Valid() && Spaced(z) && reset < DAY
    ensures (forall now :: Exact(z, reset, now)) <==> CleanResets(z, reset)
  {
    if CleanResets(z, reset) {
      forall now ensures Exact(z, reset, now) { CleanResetsAreExact(z, reset, now); }
    } else {
      var wall: int :| ShowsReset(wall, reset) && !Clean(z, wall);
      var i: nat :| i < |z.at| && z.Lo(i) <= wall < z.Hi(i);
      var now := UncleanIsInexact(z, reset, i, wall);
    }
  }

  // Reset at 02:30 where clocks go from 02:00 to 03:00: at 03:10 the previous reset is in the future.
  lemma PreviousResetAfterNow()
    ensures var z := Zone([HOUR], [HOUR, 2 * HOUR]);
            z.Valid() && PreviousReset(z, ResetTime(2, 30), HOUR + 10 * MINUTE) > HOUR + 10 * MINUTE
  {
    var z := Zone([HOUR], [HOUR, 2 * HOUR]);
    assert z.Segment(HOUR + 10 * MINUTE) == 1;
    assert z.Switch(0, false) == 3 * HOUR;
  }
}

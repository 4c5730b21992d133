// The cache-aside bar loader: shards of bars keyed by range and by a fingerprint made of the first
// time, the last time and the number of bars in the range.
module BarCache {
  import opened Options
  import opened Traces

  datatype Series = Series(symbol: string, timeframe: string)

  // Times are nanoseconds; a frame is the bars of a range by time.
  type Frame = map<int, seq<real>>

  datatype Fingerprint = Fingerprint(minTs: int, maxTs: int, rowCount: nat)

  // The file name of a shard: its bounds are stamped to whole seconds.
  datatype Key = Key(series: Series, startStamp: int, endStamp: int, fingerprint: Fingerprint)

  datatype Store = Store(bars: map<Series, Frame>, shards: map<Key, Frame>)

  // Inserting at a time that has a bar corrects that bar in place.
  datatype Event =
    | Insert(series: Series, time: int, values: seq<real>)
    | Delete(series: Series, time: int)
    | Load(series: Series, start: int, end: int, fingerprint: Fingerprint, noCache: bool)

  function Bars(db: map<Series, Frame>, series: Series): Frame {
    if series in db then db[series] else map[]
  }

  function Rows(db: map<Series, Frame>, series: Series, start: int, end: int): Frame {
    map t | t in Bars(db, series) && start <= t < end :: Bars(db, series)[t]
  }

  function Stamp(t: int): int {
    t / 1_000_000_000
  }

  function CacheKey(series: Series, start: int, end: int, f: Fingerprint): Key {
    Key(series, Stamp(start), Stamp(end), f)
  }

  /* ------------------------------------------------------------------- fingerprints */

  lemma HasMember(s: set<int>)
    requires s != {}
    ensures exists x :: x in s
  {
    assert (forall x :: x !in s) ==> s == {};
  }

  ghost function Least(s: set<int>): (m: int)
    requires s != {}
    ensures m in s && forall x :: x in s ==> m <= x
  {
    HasMember(s);
    var x :| x in s;
    assert s == (s - {x}) + {x};
    if s - {x} == {} then x
    else
      var m := Least(s - {x});
      if x < m then x else m
  }

  ghost function Greatest(s: set<int>): (m: int)
    requires s != {}
    ensures m in s && forall x :: x in s ==> x <= m
  {
    HasMember(s);
    var x :| x in s;
    assert s == (s - {x}) + {x};
    if s - {x} == {} then x
    else
      var m := Greatest(s - {x});
      if m < x then x else m
  }

  // The metadata query; an empty range gives zeros.
  ghost function FingerprintOf(rows: Frame): Fingerprint {
    if rows == map[] then Fingerprint(0, 0, 0)
    else Fingerprint(Least(rows.Keys), Greatest(rows.Keys), |rows|)
  }

  lemma {:induction false} SubsetIsNoLarger(a: set<int>, b: set<int>)
    requires a <= b
    ensures |a| <= |b|
    ensures |a| == |b| ==> a == b
  {
    if a != {} {
      HasMember(a);
      var x :| x in a;
      assert a == (a - {x}) + {x} && b == (b - {x}) + {x};
      SubsetIsNoLarger(a - {x}, b - {x});
    }
  }

  ghost predicate Within(a: Frame, b: Frame) {
    a.Keys <= b.Keys && forall t :: t in a ==> a[t] == b[t]
  }

  lemma WithinSameCount(a: Frame, b: Frame)
    requires Within(a, b) && |a| >= |b|
    ensures a == b
  {
    SubsetIsNoLarger(a.Keys, b.Keys);
    assert |a| == |a.Keys| && |b| == |b.Keys|;
    assert a.Keys == b.Keys;
    assert forall t :: t in b ==> t in a.Keys && a[t] == b[t];
  }

  /* ------------------------------------------------------------------------- loading */

  function Answer(s: Store, series: Series, start: int, end: int, f: Fingerprint, noCache: bool): Frame {
    var key := CacheKey(series, start, end, f);
    if !noCache && key in s.shards then s.shards[key] else Rows(s.bars, series, start, end)
  }

  function Apply(s: Store, e: Event): Store {
    match e
    case Insert(series, time, values) => s.(bars := s.bars[series := Bars(s.bars, series)[time := values]])
    case Delete(series, time) => s.(bars := s.bars[series := Bars(s.bars, series) - {time}])
    case Load(series, start, end, f, noCache) =>
      s.(shards := s.shards[CacheKey(series, start, end, f) := Answer(s, series, start, end, f, noCache)])
  }

  function Run(h: Trace<Event>): Store {
    match h
    case Begin => Store(map[], map[])
    case Then(past, e) => Apply(Run(past), e)
  }

  // Ranges include their start and not their end: adjacent ones share no bar and miss none.
  lemma RangesTile(db: map<Series, Frame>, series: Series, start: int, middle: int, end: int)
    requires start <= middle <= end
    ensures var left, right := Rows(db, series, start, middle), Rows(db, series, middle, end);
            && left.Keys !! right.Keys && Rows(db, series, start, end) == left + right
            && (middle in Bars(db, series) ==> middle !in left && (middle < end ==> middle in right))
  {
    var left, right, all := Rows(db, series, start, middle), Rows(db, series, middle, end), Rows(db, series, start, end);
    assert (left + right).Keys == all.Keys;
    assert forall t :: t in all ==> (left + right)[t] == all[t];
  }

  // A bound is named by its second: two share a name exactly when no whole second lies between them.
  predicate InSecond(second: int, t: int) {
    second * 1_000_000_000 <= t < (second + 1) * 1_000_000_000
  }

  lemma StampsAreSeconds(t: int, u: int)
    ensures Stamp(t) == Stamp(u) <==> exists second :: InSecond(second, t) && InSecond(second, u)
  {
    assert InSecond(t / 1_000_000_000, t) && InSecond(u / 1_000_000_000, u);
  }

  // What the last load under this key that went to the database found there: one that was forced, or the
  // first of all.
  function LastQuery(h: Trace<Event>, k: Key): Option<Frame> {
    match h
    case Begin => None
    case Then(past, Load(series, start, end, f, noCache)) =>
      if CacheKey(series, start, end, f) == k && (noCache || LastQuery(past, k).None?)
        then Some(Rows(Run(past).bars, series, start, end))
      else LastQuery(past, k)
    case Then(past, _) => LastQuery(past, k)
  }

  lemma {:induction false} ShardIsLastQuery(h: Trace<Event>, k: Key)
    ensures Lookup(Run(h).shards, k) == LastQuery(h, k)
  {
    if h.Then? {
      ShardIsLastQuery(h.past, k);
    }
  }

  // Over every history, whatever its edits and fingerprints, a load answers what the last query under its
  // key found, and one that skips the cache or finds nothing there answers the rows now in the range.
  lemma LoadAnswers(h: Trace<Event>, series: Series, start: int, end: int, f: Fingerprint, noCache: bool)
    ensures var rows := Rows(Run(h).bars, series, start, end);
            var found := LastQuery(h, CacheKey(series, start, end, f));
            Answer(Run(h), series, start, end, f, noCache) == if noCache then rows else GetOr(found, rows)
  {
    ShardIsLastQuery(h, CacheKey(series, start, end, f));
  }

  predicate Follows(g: Trace<Event>, h: Trace<Event>) {
    g == h || (g.Then? && Follows(g.past, h))
  }

  // An edit elsewhere, or a load that is of this range or under another key.
  predicate Spares(e: Event, series: Series, start: int, end: int, f: Fingerprint) {
    match e
    case Load(other, from, to, fingerprint, _) =>
      CacheKey(other, from, to, fingerprint) == CacheKey(series, start, end, f) ==> (other, from, to) == (series, start, end)
    case _ => e.series != series || !(start <= e.time < end)
  }

  predicate LeavesAlone(g: Trace<Event>, h: Trace<Event>, series: Series, start: int, end: int, f: Fingerprint)
    requires Follows(g, h)
  {
    g == h || (LeavesAlone(g.past, h, series, start, end, f) && Spares(g.last, series, start, end, f))
  }

  // An event that spares the range leaves its rows and, once there is one, its last query.
  lemma SparedKeeps(h: Trace<Event>, series: Series, start: int, end: int, f: Fingerprint, rows: Frame)
    requires h.Then? && Spares(h.last, series, start, end, f)
    requires Rows(Run(h.past).bars, series, start, end) == rows
    requires LastQuery(h.past, CacheKey(series, start, end, f)) == Some(rows)
    ensures Rows(Run(h).bars, series, start, end) == rows
    ensures LastQuery(h, CacheKey(series, start, end, f)) == Some(rows)
  {
  }

  lemma {:induction false} RepairLasts(h: Trace<Event>, g: Trace<Event>, series: Series, start: int, end: int, f: Fingerprint, rows: Frame)
    requires Follows(g, h) && LeavesAlone(g, h, series, start, end, f)
    requires Rows(Run(h).bars, series, start, end) == rows
    requires LastQuery(h, CacheKey(series, start, end, f)) == Some(rows)
    ensures Rows(Run(g).bars, series, start, end) == rows
    ensures LastQuery(g, CacheKey(series, start, end, f)) == Some(rows)
  {
    if g != h {
      RepairLasts(h, g.past, series, start, end, f, rows);
      SparedKeeps(g, series, start, end, f, rows);
    }
  }

  // So one load that skips the cache repairs a stale range: it answers the rows now there, and so does
  // every later load under its key until a bar of the range is edited, whatever is loaded elsewhere.
  lemma ForcedLoadRepairs(h: Trace<Event>, g: Trace<Event>, series: Series, start: int, end: int, f: Fingerprint, noCache: bool)
    requires Follows(g, Then(h, Load(series, start, end, f, true)))
    requires LeavesAlone(g, Then(h, Load(series, start, end, f, true)), series, start, end, f)
    ensures var rows := Rows(Run(h).bars, series, start, end);
            && Answer(Run(h), series, start, end, f, true) == rows
            && Rows(Run(g).bars, series, start, end) == rows
            && Answer(Run(g), series, start, end, f, noCache) == rows
  {
    RepairLasts(Then(h, Load(series, start, end, f, true)), g, series, start, end, f, Rows(Run(h).bars, series, start, end));
    LoadAnswers(h, series, start, end, f, true);
    LoadAnswers(g, series, start, end, f, noCache);
  }

  // Bars are only ever added.
  predicate InsertOnly(h: Trace<Event>) {
    h.Then? ==>
      && InsertOnly(h.past) && !h.last.Delete?
      && (h.last.Insert? ==> h.last.time !in Bars(Run(h.past).bars, h.last.series))
  }

  predicate WholeSeconds(h: Trace<Event>) {
    h.Then? ==>
      && WholeSeconds(h.past)
      && (h.last.Load? ==> h.last.start % 1_000_000_000 == 0 && h.last.end % 1_000_000_000 == 0)
  }

  ghost predicate IsFresh(h: Trace<Event>, series: Series, start: int, end: int, f: Fingerprint) {
    f == FingerprintOf(Rows(Run(h).bars, series, start, end))
  }

  // The fingerprint was current at this or an earlier moment of the run.
  ghost predicate TakenBefore(h: Trace<Event>, series: Series, start: int, end: int, f: Fingerprint) {
    IsFresh(h, series, start, end, f) || (h.Then? && TakenBefore(h.past, series, start, end, f))
  }

  ghost predicate LoadsUseEarlierFingerprints(h: Trace<Event>) {
    h.Then? ==>
      && LoadsUseEarlierFingerprints(h.past)
      && (h.last.Load? ==> TakenBefore(h.past, h.last.series, h.last.start, h.last.end, h.last.fingerprint))
  }

  ghost predicate LoadsUseFreshFingerprints(h: Trace<Event>) {
    h.Then? ==>
      && LoadsUseFreshFingerprints(h.past)
      && (h.last.Load? ==> IsFresh(h.past, h.last.series, h.last.start, h.last.end, h.last.fingerprint))
  }

  lemma RowsGrow(h: Trace<Event>, series: Series, start: int, end: int)
    requires h.Then? && InsertOnly(h)
    ensures Within(Rows(Run(h.past).bars, series, start, end), Rows(Run(h).bars, series, start, end))
    ensures Within(Bars(Run(h.past).bars, series), Bars(Run(h).bars, series))
  {
  }

  lemma {:induction false} EarlierCountIsSmaller(h: Trace<Event>, series: Series, start: int, end: int, f: Fingerprint)
    requires InsertOnly(h) && TakenBefore(h, series, start, end, f)
    ensures f.rowCount <= |Rows(Run(h).bars, series, start, end)|
  {
    var rows := Rows(Run(h).bars, series, start, end);
    if !IsFresh(h, series, start, end, f) {
      EarlierCountIsSmaller(h.past, series, start, end, f);
      RowsGrow(h, series, start, end);
      SubsetIsNoLarger(Rows(Run(h.past).bars, series, start, end).Keys, rows.Keys);
      assert |rows| == |rows.Keys|;
    }
  }

  /* -------------------------------------------- coherence, with fingerprints that race */

  // A shard holds bars of its range, and no fewer than its fingerprint says.
  ghost predicate ShardsPlausible(s: Store) {
    forall k: Key :: k in s.shards ==>
      && Within(s.shards[k], Rows(s.bars, k.series, k.startStamp * 1_000_000_000, k.endStamp * 1_000_000_000))
      && k.fingerprint.rowCount <= |s.shards[k]|
  }

  lemma StampIsBound(t: int)
    requires t % 1_000_000_000 == 0
    ensures Stamp(t) * 1_000_000_000 == t
  {
  }

  lemma {:induction false} RunKeepsShardsPlausible(h: Trace<Event>)
    requires InsertOnly(h) && WholeSeconds(h) && LoadsUseEarlierFingerprints(h)
    ensures ShardsPlausible(Run(h))
  {
    if h.Then? {
      RunKeepsShardsPlausible(h.past);
      var s, t := Run(h.past), Run(h);
      forall k: Key | k in t.shards
        ensures Within(t.shards[k], Rows(t.bars, k.series, k.startStamp * 1_000_000_000, k.endStamp * 1_000_000_000))
        ensures k.fingerprint.rowCount <= |t.shards[k]|
      {
        RowsGrow(h, k.series, k.startStamp * 1_000_000_000, k.endStamp * 1_000_000_000);
        if h.last.Load? && k == CacheKey(h.last.series, h.last.start, h.last.end, h.last.fingerprint) {
          StampIsBound(h.last.start);
          StampIsBound(h.last.end);
          EarlierCountIsSmaller(h.past, h.last.series, h.last.start, h.last.end, h.last.fingerprint);
        }
      }
    }
  }

  // Over any history of inserts and of loads whose fingerprints may have been overtaken by inserts,
  // a load made with the current fingerprint returns exactly the rows now in the range.
  lemma FreshLoadIsCoherent(h: Trace<Event>, series: Series, start: int, end: int, noCache: bool)
    requires InsertOnly(h) && WholeSeconds(h) && LoadsUseEarlierFingerprints(h)
    requires start % 1_000_000_000 == 0 && end % 1_000_000_000 == 0
    ensures var s := Run(h);
            var rows := Rows(s.bars, series, start, end);
            Answer(s, series, start, end, FingerprintOf(rows), noCache) == rows
  {
    var s := Run(h);
    var rows := Rows(s.bars, series, start, end);
    var key := CacheKey(series, start, end, FingerprintOf(rows));
    if key in s.shards {
      RunKeepsShardsPlausible(h);
      StampIsBound(start);
      StampIsBound(end);
      WithinSameCount(s.shards[key], rows);
    }
  }

  /* ------------------------------------------------ coherence, with any range bounds */

  // A shard is a stretch of its series with the fingerprint it is filed under.
  ghost predicate ShardsMatch(s: Store) {
    forall k: Key :: k in s.shards ==>
      Within(s.shards[k], Bars(s.bars, k.series)) && FingerprintOf(s.shards[k]) == k.fingerprint
  }

  lemma CountIsZeroWhenEmpty(rows: Frame)
    ensures FingerprintOf(rows).rowCount == |rows|
    ensures |rows| == 0 <==> rows == map[]
    ensures rows == map[] <==> rows.Keys == {}
  {
    assert |rows| == |rows.Keys|;
  }

  // First time, last time and count tell apart any two stretches of a series that only grew.
  lemma FingerprintSeparates(older: Frame, bars: Frame, start: int, end: int)
    requires Within(older, bars)
    requires FingerprintOf(older) == FingerprintOf(map t | t in bars && start <= t < end :: bars[t])
    ensures older == map t | t in bars && start <= t < end :: bars[t]
  {
    var rows := map t | t in bars && start <= t < end :: bars[t];
    CountIsZeroWhenEmpty(older);
    CountIsZeroWhenEmpty(rows);
    if older != map[] {
      assert forall t :: t in older ==> start <= Least(rows.Keys) <= t <= Greatest(rows.Keys) < end;
      WithinSameCount(older, rows);
    }
  }

  lemma {:induction false} RunKeepsShardsMatch(h: Trace<Event>)
    requires InsertOnly(h) && LoadsUseFreshFingerprints(h)
    ensures ShardsMatch(Run(h))
  {
    if h.Then? {
      RunKeepsShardsMatch(h.past);
      var s, t := Run(h.past), Run(h);
      forall k: Key | k in t.shards
        ensures Within(t.shards[k], Bars(t.bars, k.series)) && FingerprintOf(t.shards[k]) == k.fingerprint
      {
        RowsGrow(h, k.series, 0, 0);
      }
    }
  }

  // When every load takes its fingerprint just before, bounds need not be whole seconds: ranges that
  // share a shard name and a fingerprint hold the same rows.
  lemma FreshLoadsAreCoherent(h: Trace<Event>, series: Series, start: int, end: int, noCache: bool)
    requires InsertOnly(h) && LoadsUseFreshFingerprints(h)
    ensures var s := Run(h);
            var rows := Rows(s.bars, series, start, end);
            Answer(s, series, start, end, FingerprintOf(rows), noCache) == rows
  {
    var s := Run(h);
    var rows := Rows(s.bars, series, start, end);
    var key := CacheKey(series, start, end, FingerprintOf(rows));
    if key in s.shards {
      RunKeepsShardsMatch(h);
      FingerprintSeparates(s.shards[key], Bars(s.bars, series), start, end);
    }
  }

  /* --------------------------------------------------- what the fingerprint can miss */

  // Adding or deleting a bar changes the fingerprint of its range; correcting one in place never does.
  lemma FingerprintSeesInsertsAndDeletesOnly(rows: Frame, t: int, values: seq<real>)
    ensures t !in rows ==> FingerprintOf(rows[t := values]) != FingerprintOf(rows)
    ensures t in rows ==> FingerprintOf(rows - {t}) != FingerprintOf(rows)
    ensures t in rows ==> FingerprintOf(rows[t := values]) == FingerprintOf(rows)
  {
    assert |rows| == |rows.Keys|;
    if t in rows {
      assert rows[t := values].Keys == rows.Keys;
      assert (rows - {t}).Keys == rows.Keys - {t};
      assert |rows - {t}| == |rows| - 1;
    } else {
      assert rows[t := values].Keys == rows.Keys + {t};
      assert |rows[t := values]| == |rows| + 1;
    }
  }

  // After such a correction the loader goes on serving the old bar under the current fingerprint.
  lemma CorrectedBarIsServedStale(series: Series, values: seq<real>, corrected: seq<real>)
    requires values != corrected
    ensures var f := FingerprintOf(map[0 := values]);
            var before := Run(Then(Then(Begin, Insert(series, 0, values)), Load(series, 0, 1_000_000_000, f, false)));
            var s := Apply(before, Insert(series, 0, corrected));
            var rows := Rows(s.bars, series, 0, 1_000_000_000);
            && FingerprintOf(rows) == f && rows == map[0 := corrected]
            && Answer(s, series, 0, 1_000_000_000, f, false) == map[0 := values]
  {
    var f := FingerprintOf(map[0 := values]);
    FingerprintSeesInsertsAndDeletesOnly(map[0 := values], 0, corrected);
    assert (map[0 := values])[0 := corrected] == map[0 := corrected];
    var one := Run(Then(Begin, Insert(series, 0, values)));
    assert one == Apply(Run(Begin), Insert(series, 0, values));
    assert Bars(one.bars, series) == map[0 := values];
    assert Rows(one.bars, series, 0, 1_000_000_000) == map[0 := values];
    var before := Apply(one, Load(series, 0, 1_000_000_000, f, false));
    var s := Apply(before, Insert(series, 0, corrected));
    assert Bars(s.bars, series) == map[0 := corrected];
    assert Rows(s.bars, series, 0, 1_000_000_000) == map[0 := corrected];
  }

  // Edits that each change the fingerprint can cancel out: a bar deleted and another inserted.
  lemma EditsCanCancel(a: seq<real>, b: seq<real>, c: seq<real>, d: seq<real>)
    ensures var rows: Frame := map[0 := a, 1 := b, 3 := c];
            var edited := (rows - {1})[2 := d];
            edited != rows && FingerprintOf(edited) == FingerprintOf(rows)
  {
    var rows: Frame := map[0 := a, 1 := b, 3 := c];
    var edited := (rows - {1})[2 := d];
    assert 1 in rows && 1 !in edited;
    assert rows.Keys == {0, 1, 3} && edited.Keys == {0, 2, 3};
    assert |rows| == |rows.Keys| == 3 && |edited| == |edited.Keys| == 3;
  }

  /* ------------------------------------------------------- when fresh loads go stale */

  // A load of the range that goes by the fingerprint of `rows` is answered by a shard that differs.
  ghost predicate Misfiles(s: Store, series: Series, start: int, end: int, rows: Frame) {
    var key := CacheKey(series, start, end, FingerprintOf(rows));
    key in s.shards && s.shards[key] != rows
  }

  // No load with a fresh fingerprint is stale.
  ghost predicate Coherent(s: Store) {
    forall series, start, end :: !Misfiles(s, series, start, end, Rows(s.bars, series, start, end))
  }

  lemma CoherentLoads(s: Store)
    ensures Coherent(s) <==>
              forall series, start, end ::
                var rows := Rows(s.bars, series, start, end);
                Answer(s, series, start, end, FingerprintOf(rows), false) == rows
  {
    if Coherent(s) {
      forall series, start, end
        ensures var rows := Rows(s.bars, series, start, end);
                Answer(s, series, start, end, FingerprintOf(rows), false) == rows
      {
        assert !Misfiles(s, series, start, end, Rows(s.bars, series, start, end));
      }
    } else {
      var series, start, end :| Misfiles(s, series, start, end, Rows(s.bars, series, start, end));
      var rows := Rows(s.bars, series, start, end);
      assert Answer(s, series, start, end, FingerprintOf(rows), false) != rows;
    }
  }

  // Some range over the edited time has, with the edit, the fingerprint of a shard that is filed for it
  // and holds other rows.
  ghost predicate Harmful(s: Store, e: Event) {
    match e
    case Insert(series, time, values) =>
      exists start, end :: start <= time < end && Misfiles(s, series, start, end, Rows(s.bars, series, start, end)[time := values])
    case Delete(series, time) =>
      exists start, end :: start <= time < end && Misfiles(s, series, start, end, Rows(s.bars, series, start, end) - {time})
    case Load(_, _, _, _, _) => false
  }

  lemma RowsAfterEdit(s: Store, e: Event, series: Series, start: int, end: int)
    requires !e.Load?
    ensures var before, after := Rows(s.bars, series, start, end), Rows(Apply(s, e).bars, series, start, end);
            after == if series != e.series || !(start <= e.time < end) then before
                     else if e.Insert? then before[e.time := e.values] else before - {e.time}
  {
  }

  lemma EditKeepsCoherentIff(s: Store, e: Event)
    requires Coherent(s) && !e.Load?
    ensures Coherent(Apply(s, e)) <==> !Harmful(s, e)
  {
    var t := Apply(s, e);
    forall series, start, end
      ensures Misfiles(t, series, start, end, Rows(t.bars, series, start, end)) <==>
                && series == e.series && start <= e.time < end
                && Misfiles(s, series, start, end,
                            if e.Insert? then Rows(s.bars, series, start, end)[e.time := e.values]
                            else Rows(s.bars, series, start, end) - {e.time})
    {
      RowsAfterEdit(s, e, series, start, end);
      assert !Misfiles(s, series, start, end, Rows(s.bars, series, start, end));
    }
  }

  lemma LoadKeepsCoherent(s: Store, series: Series, start: int, end: int, noCache: bool)
    requires Coherent(s)
    ensures Coherent(Apply(s, Event.Load(series, start, end, FingerprintOf(Rows(s.bars, series, start, end)), noCache)))
  {
    var rows := Rows(s.bars, series, start, end);
    var t := Apply(s, Event.Load(series, start, end, FingerprintOf(rows), noCache));
    assert !Misfiles(s, series, start, end, rows);
    forall other, from, to
      ensures !Misfiles(t, other, from, to, Rows(t.bars, other, from, to))
    {
      assert !Misfiles(s, other, from, to, Rows(s.bars, other, from, to));
      if CacheKey(other, from, to, FingerprintOf(Rows(s.bars, other, from, to))) == CacheKey(series, start, end, FingerprintOf(rows)) {
        FingerprintSeparates(rows, Bars(s.bars, series), from, to);
      }
    }
  }

  ghost predicate AlwaysCoherent(h: Trace<Event>) {
    Coherent(Run(h)) && (h.Then? ==> AlwaysCoherent(h.past))
  }

  ghost predicate NeverHarmful(h: Trace<Event>) {
    h.Then? ==> NeverHarmful(h.past) && !Harmful(Run(h.past), h.last)
  }

  // Over every history of inserts, corrections, deletions and loads with fresh fingerprints, no fresh
  // load is ever stale exactly when no edit gives a range the fingerprint of a shard with other rows.
  lemma {:induction false} AlwaysCoherentIff(h: Trace<Event>)
    requires LoadsUseFreshFingerprints(h)
    ensures AlwaysCoherent(h) <==> NeverHarmful(h)
  {
    if h.Then? {
      AlwaysCoherentIff(h.past);
      if AlwaysCoherent(h.past) {
        var s := Run(h.past);
        assert Coherent(s);
        match h.last
        case Load(series, start, end, f, noCache) => LoadKeepsCoherent(s, series, start, end, noCache);
        case _ => EditKeepsCoherentIff(s, h.last);
      }
    }
  }

  // A correction does so exactly when it changes the bar and some range over the bar is cached under
  // its current fingerprint.
  lemma CorrectionHarmsIff(s: Store, series: Series, time: int, values: seq<real>)
    requires Coherent(s) && time in Bars(s.bars, series)
    ensures Harmful(s, Insert(series, time, values)) <==>
              && values != Bars(s.bars, series)[time]
              && exists start, end :: start <= time < end && IsCached(s, series, start, end)
  {
    forall start, end | start <= time < end
      ensures Misfiles(s, series, start, end, Rows(s.bars, series, start, end)[time := values]) <==>
                values != Bars(s.bars, series)[time] && IsCached(s, series, start, end)
    {
      var rows := Rows(s.bars, series, start, end);
      FingerprintSeesInsertsAndDeletesOnly(rows, time, values);
      assert !Misfiles(s, series, start, end, rows);
      assert rows[time := values] == rows <==> values == rows[time];
    }
  }

  ghost predicate IsCached(s: Store, series: Series, start: int, end: int) {
    CacheKey(series, start, end, FingerprintOf(Rows(s.bars, series, start, end))) in s.shards
  }

  /* ------------------------------------------------- what it takes besides corrections */

  // An edit of the range: a new bar, a bar that goes, a bar that changes.
  predicate InsertsInto(s: Store, e: Event, series: Series, start: int, end: int) {
    e.Insert? && e.series == series && start <= e.time < end && e.time !in Bars(s.bars, series)
  }

  predicate DeletesFrom(s: Store, e: Event, series: Series, start: int, end: int) {
    e.Delete? && e.series == series && start <= e.time < end && e.time in Bars(s.bars, series)
  }

  predicate CorrectsIn(s: Store, e: Event, series: Series, start: int, end: int) {
    && e.Insert? && e.series == series && start <= e.time < end
    && e.time in Bars(s.bars, series) && e.values != Bars(s.bars, series)[e.time]
  }

  predicate Files(e: Event, k: Key) {
    e.Load? && CacheKey(e.series, e.start, e.end, e.fingerprint) == k
  }

  // Since the last load under this key the range has had an edit of each kind.
  predicate InsertedSince(h: Trace<Event>, k: Key, start: int, end: int) {
    h.Then? && !Files(h.last, k)
    && (InsertsInto(Run(h.past), h.last, k.series, start, end) || InsertedSince(h.past, k, start, end))
  }

  predicate DeletedSince(h: Trace<Event>, k: Key, start: int, end: int) {
    h.Then? && !Files(h.last, k)
    && (DeletesFrom(Run(h.past), h.last, k.series, start, end) || DeletedSince(h.past, k, start, end))
  }

  predicate CorrectedSince(h: Trace<Event>, k: Key, start: int, end: int) {
    h.Then? && !Files(h.last, k)
    && (CorrectsIn(Run(h.past), h.last, k.series, start, end) || CorrectedSince(h.past, k, start, end))
  }

  ghost predicate CoherentBefore(h: Trace<Event>) {
    h.Then? ==> AlwaysCoherent(h.past)
  }

  // A shard filed by a fresh load holds the rows of its range as they are then.
  lemma FreshLoadFiles(h: Trace<Event>)
    requires h.Then? && h.last.Load? && LoadsUseFreshFingerprints(h) && CoherentBefore(h)
    ensures var rows := Rows(Run(h.past).bars, h.last.series, h.last.start, h.last.end);
            Run(h) == Run(h.past).(shards := Run(h.past).shards[CacheKey(h.last.series, h.last.start, h.last.end, FingerprintOf(rows)) := rows])
  {
    var e := h.last;
    assert Coherent(Run(h.past));
    assert !Misfiles(Run(h.past), e.series, e.start, e.end, Rows(Run(h.past).bars, e.series, e.start, e.end));
  }

  lemma {:induction false} ShardsKeepTheirFingerprint(h: Trace<Event>, k: Key)
    requires LoadsUseFreshFingerprints(h) && CoherentBefore(h) && k in Run(h).shards
    ensures FingerprintOf(Run(h).shards[k]) == k.fingerprint
  {
    if h.last.Load? { FreshLoadFiles(h); }
    if !Files(h.last, k) { ShardsKeepTheirFingerprint(h.past, k); }
  }

  // The rows of the shard are still there.
  ghost predicate StillThere(bars: Frame, shard: Frame, start: int, end: int) {
    forall t :: t in shard && start <= t < end ==> t in bars && bars[t] == shard[t]
  }

  // Between the shard's first and last time there are no rows but its own.
  ghost predicate NoneNew(bars: Frame, shard: Frame, f: Fingerprint, start: int, end: int) {
    forall t :: t in bars && start <= t < end && f.minTs <= t <= f.maxTs ==> t in shard && bars[t] == shard[t]
  }

  lemma {:induction false} UndeletedStaysThere(h: Trace<Event>, k: Key, start: int, end: int)
    requires LoadsUseFreshFingerprints(h) && CoherentBefore(h) && k in Run(h).shards
    requires !DeletedSince(h, k, start, end) && !CorrectedSince(h, k, start, end)
    ensures StillThere(Bars(Run(h).bars, k.series), Run(h).shards[k], start, end)
  {
    if h.last.Load? { FreshLoadFiles(h); }
    if !Files(h.last, k) { UndeletedStaysThere(h.past, k, start, end); }
  }

  lemma {:induction false} UninsertedHasNoneNew(h: Trace<Event>, k: Key, start: int, end: int)
    requires LoadsUseFreshFingerprints(h) && CoherentBefore(h) && k in Run(h).shards && 0 < k.fingerprint.rowCount
    requires !InsertedSince(h, k, start, end) && !CorrectedSince(h, k, start, end)
    ensures NoneNew(Bars(Run(h).bars, k.series), Run(h).shards[k], k.fingerprint, start, end)
  {
    if h.last.Load? { FreshLoadFiles(h); }
    if Files(h.last, k) {
      CountIsZeroWhenEmpty(Run(h).shards[k]);
    } else {
      UninsertedHasNoneNew(h.past, k, start, end);
    }
  }

  // A fresh load can go stale only if, since the last load under its key, the range has had a correction,
  // or both an insertion and a deletion.
  lemma StaleNeedsBothKinds(h: Trace<Event>, series: Series, start: int, end: int)
    requires LoadsUseFreshFingerprints(h) && CoherentBefore(h)
    requires Misfiles(Run(h), series, start, end, Rows(Run(h).bars, series, start, end))
    ensures var k := CacheKey(series, start, end, FingerprintOf(Rows(Run(h).bars, series, start, end)));
            CorrectedSince(h, k, start, end) || (InsertedSince(h, k, start, end) && DeletedSince(h, k, start, end))
  {
    var rows := Rows(Run(h).bars, series, start, end);
    var k := CacheKey(series, start, end, FingerprintOf(rows));
    var shard := Run(h).shards[k];
    ShardsKeepTheirFingerprint(h, k);
    if !CorrectedSince(h, k, start, end) {
      if !DeletedSince(h, k, start, end) { UndeletedStaysThere(h, k, start, end); }
      if !InsertedSince(h, k, start, end) && 0 < k.fingerprint.rowCount { UninsertedHasNoneNew(h, k, start, end); }
      SameFingerprintSameRows(Bars(Run(h).bars, series), shard, rows, start, end);
    }
  }

  lemma SameFingerprintSameRows(bars: Frame, shard: Frame, rows: Frame, start: int, end: int)
    requires rows == map t | t in bars && start <= t < end :: bars[t]
    requires FingerprintOf(shard) == FingerprintOf(rows) && shard != rows
    ensures !StillThere(bars, shard, start, end)
    ensures 0 < FingerprintOf(rows).rowCount && !NoneNew(bars, shard, FingerprintOf(rows), start, end)
  {
    CountIsZeroWhenEmpty(shard);
    CountIsZeroWhenEmpty(rows);
    assert forall t :: t in shard ==> start <= Least(rows.Keys) <= t <= Greatest(rows.Keys) < end;
    if StillThere(bars, shard, start, end) {
      WithinSameCount(shard, rows);
    }
    if NoneNew(bars, shard, FingerprintOf(rows), start, end) {
      WithinSameCount(rows, shard);
    }
  }

  // No insertion comes after a load.
  predicate InsertsBeforeLoads(h: Trace<Event>) {
    h.Then? ==> InsertsBeforeLoads(h.past) && !(h.last.Insert? && HasLoad(h.past))
  }

  predicate HasLoad(h: Trace<Event>) {
    h.Then? && (h.last.Load? || HasLoad(h.past))
  }

  lemma {:induction false} InsertOnlyHasNeither(h: Trace<Event>, k: Key, start: int, end: int)
    requires InsertOnly(h)
    ensures !DeletedSince(h, k, start, end) && !CorrectedSince(h, k, start, end)
  {
    if h.Then? { InsertOnlyHasNeither(h.past, k, start, end); }
  }

  lemma {:induction false} ShardsComeFromLoads(h: Trace<Event>, k: Key)
    requires k in Run(h).shards
    ensures HasLoad(h)
  {
    if !h.last.Load? { ShardsComeFromLoads(h.past, k); }
  }

  lemma {:induction false} LateInsertsAreNone(h: Trace<Event>, k: Key, start: int, end: int)
    requires InsertsBeforeLoads(h) && k in Run(h).shards
    ensures !InsertedSince(h, k, start, end) && !CorrectedSince(h, k, start, end)
  {
    if !Files(h.last, k) {
      ShardsComeFromLoads(h.past, k);
      LateInsertsAreNone(h.past, k, start, end);
    }
  }

  // So histories whose edits, from the first load on, are only insertions of new bars, or only deletions,
  // are coherent throughout.
  lemma {:induction false} OneKindIsCoherent(h: Trace<Event>)
    requires LoadsUseFreshFingerprints(h) && (InsertOnly(h) || InsertsBeforeLoads(h))
    ensures AlwaysCoherent(h)
  {
    if h.Then? { OneKindIsCoherent(h.past); }
    forall series, start, end
      ensures !Misfiles(Run(h), series, start, end, Rows(Run(h).bars, series, start, end))
    {
      if Misfiles(Run(h), series, start, end, Rows(Run(h).bars, series, start, end)) {
        var k := CacheKey(series, start, end, FingerprintOf(Rows(Run(h).bars, series, start, end)));
        StaleNeedsBothKinds(h, series, start, end);
        if InsertOnly(h) { InsertOnlyHasNeither(h, k, start, end); } else { LateInsertsAreNone(h, k, start, end); }
      }
    }
  }

  /* ------------------------------------------------------------------------ the loader */

  class Database {
    var bars: map<Series, Frame>

    constructor ()
      ensures bars == map[]
    {
      bars := map[];
    }

    method Query(series: Series, start: int, end: int) returns (rows: Frame)
      ensures rows == Rows(bars, series, start, end)
    {
      rows := map[];
      if series in bars {
        var all := bars[series];
        rows := map t | t in all && start <= t < end :: all[t];
      }
    }
  }

  class CachedBarLoader {
    const timescale: Database
    var shards: map<Key, Frame>

    ghost function State(): Store
      reads this, timescale
    {
      Store(timescale.bars, shards)
    }

    constructor (timescale: Database)
      ensures this.timescale == timescale && shards == map[]
    {
      this.timescale, shards := timescale, map[];
    }

    method Load(series: Series, start: int, end: int, fingerprint: Fingerprint, noCache: bool) returns (df: Frame)
      modifies this
      ensures df == Answer(old(State()), series, start, end, fingerprint, noCache)
      ensures State() == Apply(old(State()), Event.Load(series, start, end, fingerprint, noCache))
    {
      var key := CacheKey(series, start, end, fingerprint);
      if !noCache && key in shards {
        return shards[key];
      }
      df := timescale.Query(series, start, end);
      shards := shards[key := df];
    }
  }
}

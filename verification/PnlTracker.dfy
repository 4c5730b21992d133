// One account's profit-and-loss tracker: positions marked to market on ticks, realized P&L booked on
// closes, and every change of equity reported to the account's risk state.  Handlers change the tracker
// at once, but wait for the account's lock before the risk state, while other handlers go on.
module PnlTracker {
  import opened Options
  import opened Traces
  import R = RiskState

  datatype Side = Buy | Sell

  datatype Position = Position(
    id: string, symbol: string, side: Side, volume: real, entryPrice: real,
    currentPrice: real, unrealizedPnl: real)

  // What a handler that waits for the lock has for the risk state.
  datatype Pending = Report(equity: real) | Record(pnl: real)

  // `positions` is the insertion-ordered dictionary of open positions, `waiting` the queue at the lock,
  // and `recorded` the number of closes between recording their trade and recomputing the equity.
  datatype Ledger = Ledger(
    positions: seq<Position>, balance: real, dailyRealizedPnl: real, currentEquity: real, risk: R.Risk,
    waiting: seq<Pending>, recorded: nat)

  datatype Event =
    | Tick(symbol: string, bid: real, ask: real)
    | Executed(id: string, symbol: string, side: Side, volume: real, fillPrice: real, filled: bool)
    | Closed(id: string, realizedPnl: real)
    | DailyReset(balance: real)
    // the first at the lock gets its turn; a close goes on after its trade was recorded
    | Serve
    | Recompute

  /* ------------------------------------------------------------------ valuation */

  function Multiplier(symbol: string): real { 1.0 }

  function Pnl(symbol: string, side: Side, entry: real, volume: real, price: real): real {
    match side
    case Buy => (price - entry) * volume * Multiplier(symbol)
    case Sell => (entry - price) * volume * Multiplier(symbol)
  }

  function UnrealizedAt(p: Position, price: real): real {
    Pnl(p.symbol, p.side, p.entryPrice, p.volume, price)
  }

  // The worst exit price: a long position is sold at the bid, a short one bought back at the ask.
  function MarkPrice(side: Side, bid: real, ask: real): real {
    if side == Buy then bid else ask
  }

  // The unrealized P&L is what closing at the price would settle: the value sold less the value bought.
  lemma PnlIsSaleLessPurchase(p: Position, price: real)
    ensures var (bought, sold) := if p.side == Buy then (p.entryPrice, price) else (price, p.entryPrice);
            UnrealizedAt(p, price) == sold * p.volume - bought * p.volume
  {
    assert (price - p.entryPrice) * p.volume == price * p.volume - p.entryPrice * p.volume;
    assert (p.entryPrice - price) * p.volume == p.entryPrice * p.volume - price * p.volume;
  }

  // Marking takes the worse of the two quotes for the holder, and no worse than that.
  lemma MarkIsWorstExit(p: Position, bid: real, ask: real)
    requires bid <= ask && 0.0 <= p.volume
    ensures var marked := UnrealizedAt(p, MarkPrice(p.side, bid, ask));
            && marked <= UnrealizedAt(p, bid) && marked <= UnrealizedAt(p, ask)
            && (marked == UnrealizedAt(p, bid) || marked == UnrealizedAt(p, ask))
  {
    var gap, volume := ask - bid, p.volume;
    assert gap * volume >= 0.0;
    assert (ask - p.entryPrice) * volume == (bid - p.entryPrice) * volume + gap * volume;
    assert (p.entryPrice - bid) * volume == (p.entryPrice - ask) * volume + gap * volume;
  }

  // A long position gains exactly above its entry price, a short one exactly below it.
  lemma GainsWithItsSide(p: Position, price: real)
    requires 0.0 < p.volume
    ensures UnrealizedAt(p, price) > 0.0 <==> if p.side == Buy then price > p.entryPrice else price < p.entryPrice
    ensures UnrealizedAt(p, price) < 0.0 <==> if p.side == Buy then price < p.entryPrice else price > p.entryPrice
  {
    var up, down := price - p.entryPrice, p.entryPrice - price;
    SignOfProduct(up, p.volume);
    SignOfProduct(down, p.volume);
  }

  lemma SignOfProduct(x: real, v: real)
    requires 0.0 < v
    ensures x * v > 0.0 <==> x > 0.0
    ensures x * v < 0.0 <==> x < 0.0
  {
  }

  function Marked(p: Position, symbol: string, bid: real, ask: real): Position {
    if p.symbol != symbol then p else
    var mark := MarkPrice(p.side, bid, ask);
    p.(currentPrice := mark, unrealizedPnl := UnrealizedAt(p, mark))
  }

  function MarkAll(positions: seq<Position>, symbol: string, bid: real, ask: real): (marked: seq<Position>)
    ensures |marked| == |positions|
  {
    seq(|positions|, i requires 0 <= i < |positions| => Marked(positions[i], symbol, bid, ask))
  }

  function SumUnrealized(positions: seq<Position>): real {
    if positions == [] then 0.0
    else SumUnrealized(positions[..|positions| - 1]) + positions[|positions| - 1].unrealizedPnl
  }

  predicate HasPositionFor(positions: seq<Position>, symbol: string) {
    exists i :: 0 <= i < |positions| && positions[i].symbol == symbol
  }

  // The index of a position id, or the length when it is not open.
  function Find(positions: seq<Position>, id: string): (i: nat)
    ensures i <= |positions|
    ensures i < |positions| ==> positions[i].id == id
    ensures i == |positions| ==> forall j :: 0 <= j < |positions| ==> positions[j].id != id
  {
    if positions == [] then 0
    else if positions[|positions| - 1].id == id then |positions| - 1
    else
      var i := Find(positions[..|positions| - 1], id);
      if i == |positions| - 1 then |positions| else i
  }

  /* ------------------------------------------------------------------- handlers */

  function Initial(balance: real, risk: R.Risk): Ledger {
    Ledger([], balance, 0.0, balance, risk, [], 0)
  }

  // Recompute equity from the positions, and queue to report it.
  function Revalued(s: Ledger): Ledger {
    var equity := s.balance + SumUnrealized(s.positions);
    s.(currentEquity := equity, waiting := s.waiting + [Report(equity)])
  }

  function WithFill(positions: seq<Position>, e: Event): seq<Position>
    requires e.Executed?
  {
    var i := Find(positions, e.id);
    if i < |positions| then positions[i := positions[i].(volume := positions[i].volume + e.volume)]
    else positions + [Position(e.id, e.symbol, e.side, e.volume, e.fillPrice, e.fillPrice, 0.0)]
  }

  // The first stretch of a close: the position is gone and its P&L booked in the tracker.
  function Booked(s: Ledger, i: nat, pnl: real): Ledger
    requires i < |s.positions|
  {
    s.(positions := s.positions[..i] + s.positions[i + 1..],
       balance := s.balance + pnl,
       dailyRealizedPnl := s.dailyRealizedPnl + pnl,
       waiting := s.waiting + [Record(pnl)])
  }

  function Served(s: Ledger): Ledger
    requires s.waiting != []
  {
    match s.waiting[0]
    case Report(equity) => s.(risk := R.WithEquity(s.risk, equity), waiting := s.waiting[1..])
    case Record(pnl) => s.(risk := R.WithTrade(s.risk, pnl), waiting := s.waiting[1..], recorded := s.recorded + 1)
  }

  function Apply(s: Ledger, e: Event): Ledger {
    match e
    case Tick(symbol, bid, ask) =>
      if !HasPositionFor(s.positions, symbol) then s
      else Revalued(s.(positions := MarkAll(s.positions, symbol, bid, ask)))
    case Executed(_, _, _, _, _, filled) =>
      if !filled then s else Revalued(s.(positions := WithFill(s.positions, e)))
    case Closed(id, pnl) =>
      var i := Find(s.positions, id);
      if i == |s.positions| then s else Booked(s, i, pnl)
    case DailyReset(balance) =>
      s.(dailyRealizedPnl := 0.0, balance := balance, risk := R.WithReset(s.risk, balance))
    case Serve => if s.waiting == [] then s else Served(s)
    case Recompute => if s.recorded == 0 then s else Revalued(s.(recorded := s.recorded - 1))
  }

  function Run(s: Ledger, h: Trace<Event>): Ledger {
    match h
    case Begin => s
    case Then(past, e) => Apply(Run(s, past), e)
  }

  /* --------------------------------------- the same facts recomputed from history */

  // The position opened last under this id has not been closed since.
  predicate IsOpen(h: Trace<Event>, id: string) {
    match h
    case Begin => false
    case Then(past, Executed(i, _, _, _, _, filled)) => (filled && i == id) || IsOpen(past, id)
    case Then(past, Closed(i, _)) => i != id && IsOpen(past, id)
    case Then(past, _) => IsOpen(past, id)
  }

  // No fill reuses the id of an open position.
  predicate FreshIds(h: Trace<Event>) {
    h.Then? ==> FreshIds(h.past) && (h.last.Executed? && h.last.filled ==> !IsOpen(h.past, h.last.id))
  }

  // The fill that opened the position.
  function Opening(h: Trace<Event>, id: string): Event
    requires FreshIds(h) && IsOpen(h, id)
    ensures Opening(h, id).Executed? && Opening(h, id).filled && Opening(h, id).id == id
  {
    if h.last.Executed? && h.last.filled && h.last.id == id then h.last else Opening(h.past, id)
  }

  // The last matching bid or ask since the position was opened, or its fill price.
  function LastMark(h: Trace<Event>, id: string): real
    requires FreshIds(h) && IsOpen(h, id)
  {
    match h.last
    case Tick(symbol, bid, ask) =>
      var o := Opening(h, id);
      if symbol == o.symbol then MarkPrice(o.side, bid, ask) else LastMark(h.past, id)
    case Executed(i, _, _, _, price, filled) => if filled && i == id then price else LastMark(h.past, id)
    case _ => LastMark(h.past, id)
  }

  // Realized P&L of the closes since the last reset that met an open position.
  function RealizedToday(h: Trace<Event>): real {
    match h
    case Begin => 0.0
    case Then(_, DailyReset(_)) => 0.0
    case Then(past, Closed(id, pnl)) => RealizedToday(past) + if IsOpen(past, id) then pnl else 0.0
    case Then(past, _) => RealizedToday(past)
  }

  // The balance that the last reset gave, or what there was before any.
  function DayStart(initial: real, h: Trace<Event>): real {
    match h
    case Begin => initial
    case Then(_, DailyReset(balance)) => balance
    case Then(past, _) => DayStart(initial, past)
  }

  // The event recomputes the equity.
  predicate Revalues(s: Ledger, e: Event) {
    match e
    case Tick(symbol, _, _) => HasPositionFor(s.positions, symbol)
    case Executed(_, _, _, _, _, filled) => filled
    case Recompute => s.recorded > 0
    case _ => false
  }

  // The equity has not been recomputed since the last reset.
  predicate ResetUnseen(s: Ledger, h: Trace<Event>) {
    h.Then? && (h.last.DailyReset? || (ResetUnseen(s, h.past) && !Revalues(Run(s, h.past), h.last)))
  }

  /* ------------------------------------------------------------------- theorems */

  ghost predicate DistinctIds(positions: seq<Position>) {
    forall i, j :: 0 <= i < j < |positions| ==> positions[i].id != positions[j].id
  }

  // The positions are the open ids, each once.
  ghost predicate PositionsAreOpen(positions: seq<Position>, h: Trace<Event>) {
    && DistinctIds(positions)
    && (forall id :: IsOpen(h, id) <==> Find(positions, id) < |positions|)
  }

  lemma FindIs(positions: seq<Position>, k: nat)
    requires k < |positions| && DistinctIds(positions)
    ensures Find(positions, positions[k].id) == k
  {
  }

  lemma FindSameIds(a: seq<Position>, b: seq<Position>, id: string)
    requires |a| == |b| && forall i :: 0 <= i < |a| ==> a[i].id == b[i].id
    ensures Find(a, id) == Find(b, id)
  {
  }

  lemma FindAfterClose(positions: seq<Position>, k: nat, id: string)
    requires k < |positions| && DistinctIds(positions)
    ensures var rest := positions[..k] + positions[k + 1..];
            Find(rest, id) < |rest| <==> id != positions[k].id && Find(positions, id) < |positions|
  {
    var rest := positions[..k] + positions[k + 1..];
    var i, j := Find(positions, id), Find(rest, id);
    assert forall m :: 0 <= m < |rest| ==> rest[m] == positions[if m < k then m else m + 1];
    if i < |positions| && i != k {
      assert rest[if i < k then i else i - 1] == positions[i];
    }
  }

  lemma DistinctAfterClose(positions: seq<Position>, k: nat)
    requires k < |positions| && DistinctIds(positions)
    ensures DistinctIds(positions[..k] + positions[k + 1..])
  {
    var rest := positions[..k] + positions[k + 1..];
    assert forall m :: 0 <= m < |rest| ==> rest[m] == positions[if m < k then m else m + 1];
  }

  lemma FindAfterOpen(positions: seq<Position>, p: Position, id: string)
    requires Find(positions, p.id) == |positions|
    ensures Find(positions + [p], id) < |positions| + 1 <==> id == p.id || Find(positions, id) < |positions|
  {
    assert (positions + [p])[..|positions|] == positions;
  }

  predicate OpensNow(wasOpen: bool, e: Event, id: string) {
    match e
    case Executed(i, _, _, _, _, filled) => (filled && i == id) || wasOpen
    case Closed(i, _) => i != id && wasOpen
    case _ => wasOpen
  }

  lemma IdsAfterFill(positions: seq<Position>, e: Event, id: string)
    requires DistinctIds(positions) && e.Executed?
    ensures DistinctIds(WithFill(positions, e))
    ensures Find(WithFill(positions, e), id) < |WithFill(positions, e)| <==> id == e.id || Find(positions, id) < |positions|
  {
    if Find(positions, e.id) < |positions| {
      FindSameIds(positions, WithFill(positions, e), id);
    } else {
      FindAfterOpen(positions, Position(e.id, e.symbol, e.side, e.volume, e.fillPrice, e.fillPrice, 0.0), id);
    }
  }

  lemma IdsAfterTick(positions: seq<Position>, symbol: string, bid: real, ask: real, id: string)
    requires DistinctIds(positions)
    ensures DistinctIds(MarkAll(positions, symbol, bid, ask))
    ensures Find(MarkAll(positions, symbol, bid, ask), id) == Find(positions, id)
  {
    FindSameIds(positions, MarkAll(positions, symbol, bid, ask), id);
  }

  function NextPositions(positions: seq<Position>, e: Event): seq<Position> {
    match e
    case Tick(symbol, bid, ask) => if HasPositionFor(positions, symbol) then MarkAll(positions, symbol, bid, ask) else positions
    case Executed(_, _, _, _, _, filled) => if filled then WithFill(positions, e) else positions
    case Closed(id, _) =>
      var i := Find(positions, id);
      if i < |positions| then positions[..i] + positions[i + 1..] else positions
    case _ => positions
  }

  lemma PositionsAfterStep(s: Ledger, e: Event)
    ensures Apply(s, e).positions == NextPositions(s.positions, e)
  {
  }

  lemma DistinctAfterStep(positions: seq<Position>, e: Event)
    requires DistinctIds(positions)
    ensures DistinctIds(NextPositions(positions, e))
  {
    match e
    case Tick(symbol, bid, ask) => IdsAfterTick(positions, symbol, bid, ask, "");
    case Executed(_, _, _, _, _, _) => IdsAfterFill(positions, e, "");
    case Closed(i, _) => if Find(positions, i) < |positions| { DistinctAfterClose(positions, Find(positions, i)); }
    case _ =>
  }

  lemma IdsAfterStep(positions: seq<Position>, e: Event, id: string)
    requires DistinctIds(positions)
    ensures Find(NextPositions(positions, e), id) < |NextPositions(positions, e)|
            <==> OpensNow(Find(positions, id) < |positions|, e, id)
  {
    match e
    case Tick(symbol, bid, ask) => IdsAfterTick(positions, symbol, bid, ask, id);
    case Executed(_, _, _, _, _, _) => IdsAfterFill(positions, e, id);
    case Closed(i, _) => if Find(positions, i) < |positions| { FindAfterClose(positions, Find(positions, i), id); }
    case _ =>
  }

  lemma {:induction false} RunTracksOpenIds(s: Ledger, h: Trace<Event>)
    requires s.positions == []
    ensures PositionsAreOpen(Run(s, h).positions, h)
  {
    if h.Then? {
      RunTracksOpenIds(s, h.past);
      var before := Run(s, h.past).positions;
      PositionsAfterStep(Run(s, h.past), h.last);
      DistinctAfterStep(before, h.last);
      forall id ensures IsOpen(h, id) <==> Find(Run(s, h).positions, id) < |Run(s, h).positions| {
        IdsAfterStep(before, h.last, id);
      }
    }
  }

  // Closes that have booked their P&L and not recomputed the equity yet.
  function InFlight(s: Ledger): nat {
    Records(s.waiting) + s.recorded
  }

  function Records(waiting: seq<Pending>): nat {
    if waiting == [] then 0
    else Records(waiting[..|waiting| - 1]) + if waiting[|waiting| - 1].Record? then 1 else 0
  }

  lemma RecordsPush(waiting: seq<Pending>, p: Pending)
    ensures Records(waiting + [p]) == Records(waiting) + if p.Record? then 1 else 0
  {
    assert (waiting + [p])[..|waiting|] == waiting;
  }

  lemma {:induction false} RecordsTail(waiting: seq<Pending>)
    requires waiting != []
    ensures Records(waiting) == Records(waiting[1..]) + if waiting[0].Record? then 1 else 0
  {
    var n := |waiting| - 1;
    if n != 0 {
      RecordsTail(waiting[..n]);
      assert waiting[1..][..n - 1] == waiting[..n][1..];
    }
  }

  // What the event moves out of the balance and the unrealized P&L together, with the equity left alone:
  // a close trades the one for the other, a reset replaces the balance.
  function Moved(s: Ledger, e: Event): real {
    match e
    case Closed(id, pnl) =>
      var i := Find(s.positions, id);
      if i < |s.positions| then s.positions[i].unrealizedPnl - pnl else 0.0
    case DailyReset(balance) => s.balance - balance
    case _ => 0.0
  }

  // All that was moved since the equity was last recomputed.
  function Drift(s: Ledger, h: Trace<Event>): real {
    match h
    case Begin => 0.0
    case Then(past, e) => if Revalues(Run(s, past), e) then 0.0 else Drift(s, past) + Moved(Run(s, past), e)
  }

  lemma {:induction false} SumWithout(positions: seq<Position>, i: nat)
    requires i < |positions|
    ensures SumUnrealized(positions) == SumUnrealized(positions[..i] + positions[i + 1..]) + positions[i].unrealizedPnl
  {
    var n := |positions| - 1;
    var rest := positions[..i] + positions[i + 1..];
    if i < n {
      SumWithout(positions[..n], i);
      assert rest[..n - 1] == positions[..n][..i] + positions[..n][i + 1..];
      assert rest[n - 1] == positions[n];
    } else {
      assert rest == positions[..n];
    }
  }

  predicate EquityIsOff(s: Ledger, drift: real) {
    s.currentEquity == s.balance + SumUnrealized(s.positions) + drift
  }

  lemma EquityAfterStep(s: Ledger, e: Event, drift: real)
    requires EquityIsOff(s, drift)
    ensures EquityIsOff(Apply(s, e), if Revalues(s, e) then 0.0 else drift + Moved(s, e))
  {
    if e.Closed? && Find(s.positions, e.id) < |s.positions| {
      SumWithout(s.positions, Find(s.positions, e.id));
    }
  }

  // A reset starts the day anew in both ledgers: after any run the balance and the day's P&L of the
  // tracker and the day's starting balance of the risk state are those of the last reset and the closes since.
  lemma {:induction false} DayCountsFromReset(s: Ledger, h: Trace<Event>)
    requires s.positions == []
    ensures var t := Run(s, h);
            && t.balance == DayStart(s.balance, h) + RealizedToday(h)
            && (s.dailyRealizedPnl == 0.0 ==> t.dailyRealizedPnl == RealizedToday(h))
            && t.risk.dailyStartingBalance == DayStart(s.risk.dailyStartingBalance, h)
  {
    if h.Then? {
      DayCountsFromReset(s, h.past);
      RunTracksOpenIds(s, h.past);
    }
  }

  lemma {:induction false} EquityIsOffByDrift(s: Ledger, h: Trace<Event>)
    requires EquityIsOff(s, 0.0)
    ensures EquityIsOff(Run(s, h), Drift(s, h))
  {
    if h.Then? {
      EquityIsOffByDrift(s, h.past);
      EquityAfterStep(Run(s, h.past), h.last, Drift(s, h.past));
    }
  }

  // After any run the balance is the last reset's, or the initial one, plus the realized P&L of the closes
  // since that met a position; and the equity is off the balance and the positions by exactly the drift of
  // the closes in flight and of the resets that no recomputation has seen.
  lemma EquityIsRecomputed(initial: real, risk: R.Risk, h: Trace<Event>)
    ensures var s0 := Initial(initial, risk);
            var s := Run(s0, h);
            && s.balance == DayStart(initial, h) + RealizedToday(h) && s.dailyRealizedPnl == RealizedToday(h)
            && s.currentEquity == s.balance + SumUnrealized(s.positions) + Drift(s0, h)
            && (InFlight(s) == 0 && !ResetUnseen(s0, h) ==> s.currentEquity == s.balance + SumUnrealized(s.positions))
  {
    var s := Initial(initial, risk);
    DayCountsFromReset(s, h);
    EquityIsOffByDrift(s, h);
    DriftIsInFlight(s, h);
  }

  lemma InFlightAfterStep(s: Ledger, e: Event)
    ensures InFlight(Apply(s, e)) == 0 ==>
              || (InFlight(s) == 0 && (e.Closed? ==> Find(s.positions, e.id) == |s.positions|))
              || (e.Recompute? && s.recorded > 0)
  {
    match e
    case Tick(symbol, bid, ask) =>
      RecordsPush(s.waiting, Report(s.balance + SumUnrealized(MarkAll(s.positions, symbol, bid, ask))));
    case Executed(_, _, _, _, _, _) => RecordsPush(s.waiting, Report(s.balance + SumUnrealized(WithFill(s.positions, e))));
    case Closed(id, pnl) => RecordsPush(s.waiting, Record(pnl));
    case Serve => if s.waiting != [] { RecordsTail(s.waiting); }
    case _ =>
  }

  // With no close in flight there is no drift, once the equity was recomputed after the last reset.
  lemma {:induction false} DriftIsInFlight(s: Ledger, h: Trace<Event>)
    requires s.waiting == [] && s.recorded == 0
    ensures InFlight(Run(s, h)) == 0 && !ResetUnseen(s, h) ==> Drift(s, h) == 0.0
  {
    if h.Then? {
      DriftIsInFlight(s, h.past);
      InFlightAfterStep(Run(s, h.past), h.last);
    }
  }

  // What an open position records, as the history has it.
  ghost predicate MatchesHistory(p: Position, h: Trace<Event>)
    requires FreshIds(h)
  {
    IsOpen(h, p.id) &&
    var o, mark := Opening(h, p.id), LastMark(h, p.id);
    && p.symbol == o.symbol && p.side == o.side && p.volume == o.volume && p.entryPrice == o.fillPrice
    && p.currentPrice == mark
    && p.unrealizedPnl == Pnl(o.symbol, o.side, o.fillPrice, o.volume, mark)
  }

  // With fresh order ids every open position is worth the signed distance between its fill and the
  // last matching quote since then, times its volume.
  lemma {:induction false} PositionsMatchHistory(s: Ledger, h: Trace<Event>)
    requires s.positions == [] && FreshIds(h)
    ensures forall p :: p in Run(s, h).positions ==> MatchesHistory(p, h)
  {
    if h.Then? {
      PositionsMatchHistory(s, h.past);
      RunTracksOpenIds(s, h.past);
      RunTracksOpenIds(s, h);
      var before, after := Run(s, h.past).positions, Run(s, h).positions;
      forall p | p in after ensures MatchesHistory(p, h) {
        var k :| 0 <= k < |after| && after[k] == p;
        FindIs(after, k);
        StepMatchesHistory(s, h, k);
      }
    }
  }

  // A position that the step leaves alone still matches.
  lemma UntouchedMatches(p: Position, h: Trace<Event>)
    requires h.Then? && FreshIds(h) && MatchesHistory(p, h.past) && IsOpen(h, p.id)
    requires h.last.Tick? ==> h.last.symbol != p.symbol
    ensures MatchesHistory(p, h)
  {
  }

  lemma MarkedMatches(p: Position, h: Trace<Event>)
    requires h.Then? && FreshIds(h) && MatchesHistory(p, h.past) && h.last.Tick?
    ensures MatchesHistory(Marked(p, h.last.symbol, h.last.bid, h.last.ask), h)
  {
  }

  lemma OpenedMatches(h: Trace<Event>)
    requires h.Then? && FreshIds(h) && h.last.Executed? && h.last.filled
    ensures var e := h.last; MatchesHistory(Position(e.id, e.symbol, e.side, e.volume, e.fillPrice, e.fillPrice, 0.0), h)
  {
    assert Pnl(h.last.symbol, h.last.side, h.last.fillPrice, h.last.volume, h.last.fillPrice) == 0.0;
  }

  // Where a position after the step comes from.
  lemma StepOrigin(s: Ledger, e: Event, k: nat)
    requires k < |Apply(s, e).positions|
    requires e.Executed? && e.filled ==> Find(s.positions, e.id) == |s.positions|
    ensures var p := Apply(s, e).positions[k];
            || p in s.positions
            || (e.Tick? && exists q :: q in s.positions && p == Marked(q, e.symbol, e.bid, e.ask))
            || (e.Executed? && e.filled && p == Position(e.id, e.symbol, e.side, e.volume, e.fillPrice, e.fillPrice, 0.0))
    ensures e.Tick? ==> exists q :: q in s.positions && Apply(s, e).positions[k] == Marked(q, e.symbol, e.bid, e.ask)
  {
    var after := Apply(s, e).positions;
    match e
    case Tick(symbol, bid, ask) =>
      assert s.positions[k] in s.positions;
      if !HasPositionFor(s.positions, symbol) { assert Marked(s.positions[k], symbol, bid, ask) == s.positions[k]; }
    case Closed(id, _) =>
      var gone := Find(s.positions, id);
      assert after[k] == if k < gone || gone == |s.positions| then s.positions[k] else s.positions[k + 1];
    case _ =>
  }

  lemma StepMatchesHistory(s: Ledger, h: Trace<Event>, k: nat)
    requires h.Then? && FreshIds(h) && k < |Run(s, h).positions|
    requires forall p :: p in Run(s, h.past).positions ==> MatchesHistory(p, h.past)
    requires PositionsAreOpen(Run(s, h.past).positions, h.past)
    requires IsOpen(h, Run(s, h).positions[k].id)
    ensures MatchesHistory(Run(s, h).positions[k], h)
  {
    var before, p := Run(s, h.past).positions, Run(s, h).positions[k];
    StepOrigin(Run(s, h.past), h.last, k);
    if h.last.Tick? {
      var q :| q in before && p == Marked(q, h.last.symbol, h.last.bid, h.last.ask);
      MarkedMatches(q, h);
    } else if p in before {
      UntouchedMatches(p, h);
    } else {
      OpenedMatches(h);
    }
  }

  // Adding to an open position keeps its entry price and does not revalue it: the stored unrealized
  // P&L is right afterwards exactly when the added volume or the price distance is zero.
  lemma RefillGoesStale(s: Ledger, e: Event)
    requires e.Executed? && e.filled && Find(s.positions, e.id) < |s.positions|
    requires var p := s.positions[Find(s.positions, e.id)]; p.unrealizedPnl == UnrealizedAt(p, p.currentPrice)
    ensures var i := Find(s.positions, e.id);
            var p, q := s.positions[i], Apply(s, e).positions[i];
            && q == p.(volume := p.volume + e.volume)
            && (q.unrealizedPnl == UnrealizedAt(q, q.currentPrice) <==> e.volume == 0.0 || p.currentPrice == p.entryPrice)
  {
    var p := s.positions[Find(s.positions, e.id)];
    GrownVolume(p.currentPrice - p.entryPrice, p.volume, e.volume);
    GrownVolume(p.entryPrice - p.currentPrice, p.volume, e.volume);
  }

  lemma GrownVolume(distance: real, volume: real, added: real)
    ensures distance * volume * 1.0 == distance * (volume + added) * 1.0 <==> added == 0.0 || distance == 0.0
  {
    assert distance * (volume + added) == distance * volume + distance * added;
    if distance * added == 0.0 && distance != 0.0 {
      assert added == distance * added / distance;
    }
  }

  /* --------------------------------------------------- agreement of the two ledgers */

  // The P&L that waits to be recorded.
  function Due(waiting: seq<Pending>): real {
    if waiting == [] then 0.0
    else Due(waiting[..|waiting| - 1]) + if waiting[|waiting| - 1].Record? then waiting[|waiting| - 1].pnl else 0.0
  }

  lemma DuePush(waiting: seq<Pending>, p: Pending)
    ensures Due(waiting + [p]) == Due(waiting) + if p.Record? then p.pnl else 0.0
  {
    assert (waiting + [p])[..|waiting|] == waiting;
  }

  lemma {:induction false} DueTail(waiting: seq<Pending>)
    requires waiting != []
    ensures Due(waiting) == Due(waiting[1..]) + if waiting[0].Record? then waiting[0].pnl else 0.0
  {
    var n := |waiting| - 1;
    if n != 0 {
      DueTail(waiting[..n]);
      assert waiting[1..][..n - 1] == waiting[..n][1..];
    }
  }

  // The P&L of the closes that the last reset cut off from their recording.
  function Cut(s: Ledger, h: Trace<Event>): real {
    match h
    case Begin => 0.0
    case Then(past, DailyReset(_)) => Due(Run(s, past).waiting)
    case Then(past, _) => Cut(s, past)
  }

  lemma GapAfterStep(s: Ledger, e: Event, gap: real)
    requires s.dailyRealizedPnl + gap == s.risk.dailyPnl + Due(s.waiting) && !e.DailyReset?
    ensures var t := Apply(s, e); t.dailyRealizedPnl + gap == t.risk.dailyPnl + Due(t.waiting)
  {
    match e
    case Tick(symbol, bid, ask) =>
      DuePush(s.waiting, Report(s.balance + SumUnrealized(MarkAll(s.positions, symbol, bid, ask))));
    case Executed(_, _, _, _, _, _) => DuePush(s.waiting, Report(s.balance + SumUnrealized(WithFill(s.positions, e))));
    case Closed(id, pnl) => DuePush(s.waiting, Record(pnl));
    case Serve => if s.waiting != [] { DueTail(s.waiting); }
    case Recompute => DuePush(s.waiting, Report(s.balance + SumUnrealized(s.positions)));
  }

  lemma {:induction false} LedgersDifferByCut(s: Ledger, h: Trace<Event>)
    requires s.waiting == [] && s.dailyRealizedPnl == s.risk.dailyPnl
    ensures var t := Run(s, h); t.dailyRealizedPnl + Cut(s, h) == t.risk.dailyPnl + Due(t.waiting)
  {
    if h.Then? {
      LedgersDifferByCut(s, h.past);
      if !h.last.DailyReset? {
        GapAfterStep(Run(s, h.past), h.last, Cut(s, h.past));
      }
    }
  }

  // Driven through the tracker and reset together, both ledgers show the same P&L of the day exactly when
  // what waits to be recorded sums to what the last reset cut off: so with nothing waiting, exactly when
  // the closes it cut off sum to zero.
  lemma DailyPnlAgrees(initial: real, risk: R.Risk, h: Trace<Event>)
    requires risk.dailyPnl == 0.0
    ensures var s := Initial(initial, risk);
            var t := Run(s, h);
            && (t.dailyRealizedPnl == t.risk.dailyPnl <==> Due(t.waiting) == Cut(s, h))
            && (Records(t.waiting) == 0 ==> (t.dailyRealizedPnl == t.risk.dailyPnl <==> Cut(s, h) == 0.0))
  {
    LedgersDifferByCut(Initial(initial, risk), h);
    NothingDue(Run(Initial(initial, risk), h).waiting);
  }

  lemma {:induction false} NothingDue(waiting: seq<Pending>)
    ensures Records(waiting) == 0 ==> Due(waiting) == 0.0
  {
    if waiting != [] { NothingDue(waiting[..|waiting| - 1]); }
  }

  // A tick's report holds the lock, a close books p and waits, both ledgers are reset, and all goes to its
  // end: the tracker shows nothing for the day and the risk state p.
  lemma ResetCutsClose(s: Ledger, equity: real, id: string, p: real, balance: real)
    requires s.waiting == [Report(equity)] && s.recorded == 0 && Find(s.positions, id) < |s.positions|
    ensures var h := Then(Then(Then(Then(Then(Then(Begin, Closed(id, p)), DailyReset(balance)), Serve), Serve), Recompute), Serve);
            var t := Run(s, h);
            && t.waiting == [] && t.recorded == 0
            && t.dailyRealizedPnl == 0.0 && t.risk.dailyPnl == p
  {
    var h := Then(Then(Then(Then(Then(Then(Begin, Closed(id, p)), DailyReset(balance)), Serve), Serve), Recompute), Serve);
    assert Run(s, h.past.past.past.past.past.past) == s;
    var booked := Booked(s, Find(s.positions, id), p);
    RunThen(s, h.past.past.past.past.past, s, booked);
    var reset := booked.(dailyRealizedPnl := 0.0, balance := balance, risk := R.WithReset(s.risk, balance));
    RunThen(s, h.past.past.past.past, booked, reset);
    assert reset.waiting == [Report(equity), Record(p)];
    CutCloseIsRecorded(s, h.past.past.past.past, reset, equity, p);
  }

  lemma CutCloseIsRecorded(s: Ledger, h: Trace<Event>, reset: Ledger, equity: real, p: real)
    requires Run(s, h) == reset && reset.waiting == [Report(equity), Record(p)] && reset.recorded == 0
    requires reset.dailyRealizedPnl == 0.0 && reset.risk.dailyPnl == 0.0
    ensures var t := Run(s, Then(Then(Then(Then(h, Serve), Serve), Recompute), Serve));
            && t.waiting == [] && t.recorded == 0
            && t.dailyRealizedPnl == 0.0 && t.risk.dailyPnl == p
  {
    var h1 := Then(h, Serve);
    var first := Served(reset);
    RunThen(s, h1, reset, first);
    assert first.waiting == [Record(p)] && first.risk.dailyPnl == 0.0;
    RecordThenReport(s, h1, first, p);
  }

  // A booked close after its trade is recorded and its equity reported.
  function Reported(booked: Ledger, p: real): Ledger {
    var equity := booked.balance + SumUnrealized(booked.positions);
    Ledger(booked.positions, booked.balance, booked.dailyRealizedPnl, equity,
           R.WithEquity(R.WithTrade(booked.risk, p), equity), [], 0)
  }

  // A close that is alone at the lock records its trade, recomputes and reports.
  lemma RecordThenReport(s: Ledger, h: Trace<Event>, booked: Ledger, p: real)
    requires Run(s, h) == booked && booked.waiting == [Record(p)] && booked.recorded == 0
    ensures Run(s, Then(Then(Then(h, Serve), Recompute), Serve)) == Reported(booked, p)
  {
    var recorded := Served(booked);
    RunThen(s, Then(h, Serve), booked, recorded);
    assert recorded.waiting == [] && recorded.recorded == 1;
    var revalued := Revalued(recorded.(recorded := 0));
    RunThen(s, Then(Then(h, Serve), Recompute), recorded, revalued);
    assert revalued.waiting == [Report(revalued.currentEquity)];
    RunThen(s, Then(Then(Then(h, Serve), Recompute), Serve), revalued, Served(revalued));
  }

  lemma RunThen(s: Ledger, h: Trace<Event>, before: Ledger, after: Ledger)
    requires h.Then? && Run(s, h.past) == before && Apply(before, h.last) == after
    ensures Run(s, h) == after
  {
  }

  lemma ReportedIs(t: Ledger, i: nat, p: real)
    requires t.waiting == [] && t.recorded == 0 && i < |t.positions|
    ensures Booked(t, i, p).waiting == [Record(p)]
    ensures var rest := t.positions[..i] + t.positions[i + 1..];
            var equity := t.balance + p + SumUnrealized(rest);
            Reported(Booked(t, i, p), p) ==
            Ledger(rest, t.balance + p, t.dailyRealizedPnl + p, equity, R.WithEquity(R.WithTrade(t.risk, p), equity), [], 0)
  {
  }

  // After any run, a close into which nothing cuts books its P&L in both ledgers and reports the equity
  // without its position.
  lemma UncutClose(s: Ledger, h: Trace<Event>, t: Ledger, id: string, p: real, i: nat)
    requires Run(s, h) == t && t.waiting == [] && t.recorded == 0
    requires i == Find(t.positions, id) && i < |t.positions|
    ensures var rest := t.positions[..i] + t.positions[i + 1..];
            var equity := t.balance + p + SumUnrealized(rest);
            Run(s, Then(Then(Then(Then(h, Closed(id, p)), Serve), Recompute), Serve)) ==
            Ledger(rest, t.balance + p, t.dailyRealizedPnl + p, equity, R.WithEquity(R.WithTrade(t.risk, p), equity), [], 0)
  {
    var booked := Booked(t, i, p);
    ReportedIs(t, i, p);
    RunThen(s, Then(h, Closed(id, p)), t, booked);
    RecordThenReport(s, Then(h, Closed(id, p)), booked, p);
  }

  // The newest report that waits.
  function Newest(waiting: seq<Pending>): Option<real> {
    if waiting == [] then None
    else if waiting[|waiting| - 1].Report? then Some(waiting[|waiting| - 1].equity)
    else Newest(waiting[..|waiting| - 1])
  }

  lemma NewestPush(waiting: seq<Pending>, p: Pending)
    ensures Newest(waiting + [p]) == if p.Report? then Some(p.equity) else Newest(waiting)
  {
    assert (waiting + [p])[..|waiting|] == waiting;
  }

  lemma {:induction false} NewestTail(waiting: seq<Pending>)
    requires waiting != []
    ensures Newest(waiting) ==
            if Newest(waiting[1..]).Some? then Newest(waiting[1..])
            else if waiting[0].Report? then Some(waiting[0].equity) else None
  {
    var n := |waiting| - 1;
    if n != 0 {
      NewestTail(waiting[..n]);
      assert waiting[1..][..n - 1] == waiting[..n][1..];
    }
  }

  predicate HasReported(s: Ledger, h: Trace<Event>) {
    h.Then? && (Revalues(Run(s, h.past), h.last) || HasReported(s, h.past))
  }

  // The tracker's equity is the newest that was reported, whether it has arrived or waits.
  predicate EquityIsNewest(s: Ledger) {
    s.currentEquity == GetOr(Newest(s.waiting), s.risk.currentEquity)
  }

  lemma NewestAfterStep(s: Ledger, e: Event)
    ensures var t := Apply(s, e);
            EquityIsNewest(s) || Revalues(s, e) ==> EquityIsNewest(t)
  {
    match e
    case Tick(symbol, bid, ask) =>
      NewestPush(s.waiting, Report(s.balance + SumUnrealized(MarkAll(s.positions, symbol, bid, ask))));
    case Executed(_, _, _, _, _, _) => NewestPush(s.waiting, Report(s.balance + SumUnrealized(WithFill(s.positions, e))));
    case Closed(id, pnl) => NewestPush(s.waiting, Record(pnl));
    case Serve => if s.waiting != [] { NewestTail(s.waiting); }
    case Recompute => NewestPush(s.waiting, Report(s.balance + SumUnrealized(s.positions)));
    case DailyReset(_) =>
  }

  // From the first report on, also across resets, the risk state shows the tracker's equity as soon as no
  // report waits, and until then the newest waiting report is that equity.
  lemma {:induction false} RiskShowsEquity(s: Ledger, h: Trace<Event>)
    requires HasReported(s, h)
    ensures EquityIsNewest(Run(s, h))
    ensures Newest(Run(s, h).waiting).None? ==> Run(s, h).risk.currentEquity == Run(s, h).currentEquity
  {
    if HasReported(s, h.past) { RiskShowsEquity(s, h.past); }
    NewestAfterStep(Run(s, h.past), h.last);
  }

  /* ------------------------------------------------------------------ the tracker */

  class PnLTracker {
    const riskState: R.RiskState
    var positions: seq<Position>
    var balance: real
    var dailyRealizedPnl: real
    var currentEquity: real
    var waiting: seq<Pending>
    var recorded: nat

    ghost function State(): Ledger
      reads this, riskState
    {
      Ledger(positions, balance, dailyRealizedPnl, currentEquity, riskState.Value(), waiting, recorded)
    }

    constructor (initialBalance: real, riskState: R.RiskState)
      ensures this.riskState == riskState && State() == Initial(initialBalance, riskState.Value())
    {
      this.riskState := riskState;
      positions, balance, dailyRealizedPnl, currentEquity := [], initialBalance, 0.0, initialBalance;
      waiting, recorded := [], 0;
    }

    method RecalculateEquity() returns (equity: real)
      modifies `currentEquity
      ensures equity == currentEquity == balance + SumUnrealized(positions)
    {
      var total := 0.0;
      for i := 0 to |positions|
        invariant total == SumUnrealized(positions[..i])
      {
        assert positions[..i + 1][..i] == positions[..i];
        total := total + positions[i].unrealizedPnl;
      }
      assert positions[..|positions|] == positions;
      currentEquity := balance + total;
      equity := currentEquity;
    }

    // Recomputes, and waits for the lock to report.
    method ReportEquity()
      modifies `currentEquity, `waiting
      ensures State() == Revalued(old(State()))
    {
      var equity := RecalculateEquity();
      waiting := waiting + [Report(equity)];
    }

    // The handler that is first at the lock changes the risk state.
    method ServeFirst()
      requires waiting != []
      modifies `waiting, `recorded, riskState
      ensures State() == Apply(old(State()), Serve)
    {
      var first := waiting[0];
      waiting := waiting[1..];
      match first {
        case Report(equity) => riskState.UpdateEquity(equity);
        case Record(pnl) =>
          riskState.RecordTrade(pnl);
          recorded := recorded + 1;
      }
    }

    // A close goes on after its trade was recorded.
    method AfterRecord()
      requires recorded > 0
      modifies this
      ensures State() == Apply(old(State()), Recompute)
    {
      recorded := recorded - 1;
      ReportEquity();
    }

    method OnTick(symbol: string, bid: real, ask: real)
      modifies this
      ensures State() == Apply(old(State()), Tick(symbol, bid, ask))
    {
      if !(exists i :: 0 <= i < |positions| && positions[i].symbol == symbol) {
        return;
      }
      for i := 0 to |positions|
        invariant |positions| == |old(positions)|
        invariant forall j :: 0 <= j < i ==> positions[j] == Marked(old(positions)[j], symbol, bid, ask)
        invariant forall j :: i <= j < |positions| ==> positions[j] == old(positions)[j]
        invariant State() == old(State()).(positions := positions)
      {
        var p := positions[i];
        if p.symbol == symbol {
          var mark := MarkPrice(p.side, bid, ask);
          positions := positions[i := p.(currentPrice := mark, unrealizedPnl := UnrealizedAt(p, mark))];
        }
      }
      assert positions == MarkAll(old(positions), symbol, bid, ask);
      ReportEquity();
    }

    method OnTradeExecuted(id: string, symbol: string, side: Side, volume: real, fillPrice: real, filled: bool)
      modifies this
      ensures State() == Apply(old(State()), Executed(id, symbol, side, volume, fillPrice, filled))
    {
      if !filled {
        return;
      }
      var i := Find(positions, id);
      if i < |positions| {
        positions := positions[i := positions[i].(volume := positions[i].volume + volume)];
      } else {
        positions := positions + [Position(id, symbol, side, volume, fillPrice, fillPrice, 0.0)];
      }
      ReportEquity();
    }

    // Up to the wait for the lock.
    method OnPositionClosed(id: string, realizedPnl: real)
      modifies this
      ensures State() == Apply(old(State()), Closed(id, realizedPnl))
    {
      var i := Find(positions, id);
      if i == |positions| {
        return;
      }
      positions := positions[..i] + positions[i + 1..];
      dailyRealizedPnl := dailyRealizedPnl + realizedPnl;
      balance := balance + realizedPnl;
      waiting := waiting + [Record(realizedPnl)];
    }

    // The session boundary resets tracker and risk state with the same balance.
    method ResetDaily(startingBalance: real)
      modifies this, riskState
      ensures State() == Apply(old(State()), DailyReset(startingBalance))
    {
      dailyRealizedPnl := 0.0;
      balance := startingBalance;
      riskState.ResetDaily(startingBalance);
    }
  }

  // The trackers by account.
  class PnLTrackerRegistry {
    var trackers: map<string, Ledger>

    constructor ()
      ensures trackers == map[]
    {
      trackers := map[];
    }

    // Skipping the trackers without a position in the symbol comes to the same as ticking every one.
    method OnTickAll(symbol: string, bid: real, ask: real)
      modifies this
      ensures trackers == map a | a in old(trackers) :: Apply(old(trackers)[a], Tick(symbol, bid, ask))
    {
      var todo := trackers.Keys;
      while todo != {}
        invariant todo <= old(trackers).Keys == trackers.Keys
        invariant forall a :: a in trackers ==>
          trackers[a] == if a in todo then old(trackers)[a] else Apply(old(trackers)[a], Tick(symbol, bid, ask))
        decreases |todo|
      {
        var a :| a in todo;
        if HasPositionFor(trackers[a].positions, symbol) {
          trackers := trackers[a := Revalued(trackers[a].(positions := MarkAll(trackers[a].positions, symbol, bid, ask)))];
        }
        todo := todo - {a};
      }
    }
  }
}

// Per-account risk metrics: equity, high-water mark, drawdown and the P&L of the trading day.
module RiskState {
  import opened Traces

  datatype Risk = Risk(
    dailyPnl: real, dailyPnlPercent: real,
    currentEquity: real, peakEquity: real, totalDrawdownPercent: real,
    dailyStartingBalance: real)

  const ZERO := Risk(0.0, 0.0, 0.0, 0.0, 0.0, 0.0)

  function DrawdownFromPeak(peak: real, equity: real): real {
    if peak <= 0.0 then 0.0 else (peak - equity) / peak * 100.0
  }

  function WithEquity(r: Risk, equity: real): Risk {
    var peak := if equity > r.peakEquity then equity else r.peakEquity;
    r.(currentEquity := equity, peakEquity := peak, totalDrawdownPercent := DrawdownFromPeak(peak, equity))
  }

  function WithTrade(r: Risk, pnl: real): Risk {
    var daily := r.dailyPnl + pnl;
    r.(dailyPnl := daily,
       dailyPnlPercent := if r.dailyStartingBalance > 0.0 then daily / r.dailyStartingBalance * 100.0
                          else r.dailyPnlPercent)
  }

  function WithReset(r: Risk, balance: real): Risk {
    r.(dailyPnl := 0.0, dailyPnlPercent := 0.0, dailyStartingBalance := balance)
  }

  function Abs(x: real): real {
    if x < 0.0 then -x else x
  }

  predicate DailyLossViolated(r: Risk, limit: real) {
    Abs(r.dailyPnlPercent) >= limit && r.dailyPnl < 0.0
  }

  predicate DrawdownViolated(r: Risk, limit: real) {
    r.totalDrawdownPercent >= limit
  }

  /* ------------------------------------------------------------------------ runs */

  datatype Event = Equity(value: real) | Trade(pnl: real) | Reset(balance: real)

  function Run(r: Risk, h: Trace<Event>): Risk {
    match h
    case Begin => r
    case Then(past, Equity(e)) => WithEquity(Run(r, past), e)
    case Then(past, Trade(p)) => WithTrade(Run(r, past), p)
    case Then(past, Reset(b)) => WithReset(Run(r, past), b)
  }

  // The high-water mark, recomputed from everything that was ever reported.
  function PeakOf(start: real, h: Trace<Event>): real {
    match h
    case Begin => start
    case Then(past, Equity(e)) => if e > PeakOf(start, past) then e else PeakOf(start, past)
    case Then(past, _) => PeakOf(start, past)
  }

  // The realized P&L since the last reset.
  function DayPnlOf(start: real, h: Trace<Event>): real {
    match h
    case Begin => start
    case Then(_, Reset(_)) => 0.0
    case Then(past, Trade(p)) => DayPnlOf(start, past) + p
    case Then(past, Equity(_)) => DayPnlOf(start, past)
  }

  // The balance that the last reset gave, and the equity reported last.
  function BalanceOf(start: real, h: Trace<Event>): real {
    match h
    case Begin => start
    case Then(_, Reset(b)) => b
    case Then(past, _) => BalanceOf(start, past)
  }

  function EquityOf(start: real, h: Trace<Event>): real {
    match h
    case Begin => start
    case Then(_, Equity(e)) => e
    case Then(past, _) => EquityOf(start, past)
  }

  // A state as it is created or was persisted: the stored percentages match the stored amounts.
  predicate Coherent(r: Risk) {
    && r.currentEquity <= r.peakEquity
    && r.totalDrawdownPercent == DrawdownFromPeak(r.peakEquity, r.currentEquity)
    && r.dailyPnlPercent == if r.dailyStartingBalance > 0.0 then r.dailyPnl / r.dailyStartingBalance * 100.0 else 0.0
  }

  lemma DrawdownIsNotNegative(peak: real, equity: real)
    requires equity <= peak
    ensures DrawdownFromPeak(peak, equity) >= 0.0
    ensures peak > 0.0 ==> (DrawdownFromPeak(peak, equity) == 0.0 <==> equity == peak)
  {
    if peak > 0.0 {
      var share := (peak - equity) / peak;
      assert share * peak == peak - equity;
      assert share >= 0.0;
    }
  }

  // After any run the equity is the last one reported, the peak the running maximum, the day's P&L the sum
  // since the last reset and its percentage a share of that reset's balance, and the stored drawdown the
  // non-negative formula on the current peak and equity.
  lemma {:induction false} RunKeepsMetrics(r: Risk, h: Trace<Event>)
    requires Coherent(r)
    ensures Coherent(Run(r, h)) && Run(r, h).totalDrawdownPercent >= 0.0
    ensures Run(r, h).peakEquity == PeakOf(r.peakEquity, h)
    ensures Run(r, h).dailyPnl == DayPnlOf(r.dailyPnl, h)
    ensures Run(r, h).currentEquity == EquityOf(r.currentEquity, h)
    ensures Run(r, h).dailyStartingBalance == BalanceOf(r.dailyStartingBalance, h)
  {
    if h.Then? {
      RunKeepsMetrics(r, h.past);
    }
    DrawdownIsNotNegative(Run(r, h).peakEquity, Run(r, h).currentEquity);
  }

  // The peak bounds every equity reported, and is the starting peak or one of them.
  lemma {:induction false} PeakIsMaximum(start: real, h: Trace<Event>)
    ensures start <= PeakOf(start, h) && forall e :: Reported(h, e) ==> e <= PeakOf(start, h)
    ensures PeakOf(start, h) == start || Reported(h, PeakOf(start, h))
  {
    if h.Then? { PeakIsMaximum(start, h.past); }
  }

  predicate Reported(h: Trace<Event>, e: real) {
    h.Then? && (h.last == Equity(e) || Reported(h.past, e))
  }

  lemma PercentReachesLimit(loss: real, balance: real, limit: real)
    requires balance > 0.0
    ensures loss / balance * 100.0 >= limit <==> loss * 100.0 >= limit * balance
    ensures loss > 0.0 ==> loss / balance * 100.0 > 0.0
  {
    var q := loss / balance;
    assert q * balance == loss;
    assert (q * 100.0 - limit) * balance == loss * 100.0 - limit * balance;
  }

  // The daily-loss check, in amounts: the day is at a loss of at least the limit's share of the
  // day's starting balance.  Before a reset has supplied such a balance, no positive limit trips.
  lemma DailyLossInAmounts(r: Risk, limit: real)
    requires Coherent(r)
    ensures DailyLossViolated(r, limit) <==>
            r.dailyPnl < 0.0 && if r.dailyStartingBalance > 0.0
                                then -r.dailyPnl * 100.0 >= limit * r.dailyStartingBalance else limit <= 0.0
  {
    if r.dailyStartingBalance > 0.0 && r.dailyPnl < 0.0 {
      var loss := -r.dailyPnl;
      PercentReachesLimit(loss, r.dailyStartingBalance, limit);
      assert r.dailyPnl / r.dailyStartingBalance == -(loss / r.dailyStartingBalance);
      assert r.dailyPnlPercent == -(loss / r.dailyStartingBalance * 100.0);
    }
  }

  // The drawdown check, in amounts.
  lemma DrawdownInAmounts(r: Risk, limit: real)
    requires Coherent(r)
    ensures DrawdownViolated(r, limit) <==>
            if r.peakEquity > 0.0 then (r.peakEquity - r.currentEquity) * 100.0 >= limit * r.peakEquity else limit <= 0.0
  {
    if r.peakEquity > 0.0 {
      PercentReachesLimit(r.peakEquity - r.currentEquity, r.peakEquity, limit);
    }
  }

  // An account without a stored state hits no positive limit, and any limit of zero or less.
  lemma FreshStateHitsIff(limit: real)
    ensures Coherent(ZERO) && !DailyLossViolated(ZERO, limit)
    ensures DrawdownViolated(ZERO, limit) <==> limit <= 0.0
  {
    DrawdownInAmounts(ZERO, limit);
  }

  /* --------------------------------------------------------------- the state object */

  class RiskState {
    var dailyPnl: real
    var dailyPnlPercent: real
    var currentEquity: real
    var peakEquity: real
    var totalDrawdownPercent: real
    var dailyStartingBalance: real

    function Value(): Risk
      reads this
    {
      Risk(dailyPnl, dailyPnlPercent, currentEquity, peakEquity, totalDrawdownPercent, dailyStartingBalance)
    }

    constructor (initial: Risk := ZERO)
      ensures Value() == initial
    {
      dailyPnl, dailyPnlPercent := initial.dailyPnl, initial.dailyPnlPercent;
      currentEquity, peakEquity := initial.currentEquity, initial.peakEquity;
      totalDrawdownPercent, dailyStartingBalance := initial.totalDrawdownPercent, initial.dailyStartingBalance;
    }

    method UpdateEquity(equity: real)
      modifies this
      ensures Value() == WithEquity(old(Value()), equity)
    {
      currentEquity := equity;
      if equity > peakEquity {
        peakEquity := equity;
      }
      totalDrawdownPercent := DrawdownFromPeak(peakEquity, currentEquity);
    }

    method RecordTrade(realizedPnl: real)
      modifies this
      ensures Value() == WithTrade(old(Value()), realizedPnl)
    {
      dailyPnl := dailyPnl + realizedPnl;
      if dailyStartingBalance > 0.0 {
        dailyPnlPercent := dailyPnl / dailyStartingBalance * 100.0;
      }
    }

    method ResetDaily(startingBalance: real)
      modifies this
      ensures Value() == WithReset(old(Value()), startingBalance)
    {
      dailyPnl, dailyPnlPercent, dailyStartingBalance := 0.0, 0.0, startingBalance;
    }
  }
}

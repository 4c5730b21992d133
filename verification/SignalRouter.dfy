// Routing of market data to accounts: an inverted index from upper-case symbol to accounts, kept up
// to date by building, adding and removing accounts.
module SignalRouter {
  import opened Text
  import opened Traces

  // An empty symbol list subscribes to everything.
  datatype Account = Account(id: string, active: bool, symbols: seq<string>)

  datatype Router = Router(symbolMap: map<string, set<string>>, wildcards: set<string>)

  function Uppers(symbols: seq<string>): (u: set<string>)
    ensures u == {} <==> symbols == []
  {
    if symbols == [] then {} else Uppers(symbols[..|symbols| - 1]) + {Upper(symbols[|symbols| - 1])}
  }

  function Bucket(r: Router, symbol: string): set<string> {
    if symbol in r.symbolMap then r.symbolMap[symbol] else {}
  }

  function Route(r: Router, symbol: string): set<string> {
    Bucket(r, Upper(symbol)) + r.wildcards
  }

  /* --------------------------------------------------------------------- operations */

  const EMPTY := Router(map[], {})

  function Subscribe(r: Router, id: string, symbol: string): Router {
    r.(symbolMap := r.symbolMap[Upper(symbol) := Bucket(r, Upper(symbol)) + {id}])
  }

  function SubscribeAll(r: Router, id: string, symbols: seq<string>, n: nat): Router
    requires n <= |symbols|
  {
    if n == 0 then r else Subscribe(SubscribeAll(r, id, symbols, n - 1), id, symbols[n - 1])
  }

  function Added(r: Router, a: Account): Router {
    if !a.active then r
    else if a.symbols == [] then r.(wildcards := r.wildcards + {a.id})
    else SubscribeAll(r, a.id, a.symbols, |a.symbols|)
  }

  function Built(accounts: seq<Account>): Router {
    if accounts == [] then EMPTY else Added(Built(accounts[..|accounts| - 1]), accounts[|accounts| - 1])
  }

  function Removed(r: Router, id: string): Router {
    Router(map s | s in r.symbolMap && r.symbolMap[s] - {id} != {} :: r.symbolMap[s] - {id}, r.wildcards - {id})
  }

  datatype Step = Rebuild(accounts: seq<Account>) | Add(account: Account) | Remove(id: string)

  function Apply(r: Router, step: Step): Router {
    match step
    case Rebuild(accounts) => Built(accounts)
    case Add(a) => Added(r, a)
    case Remove(id) => Removed(r, id)
  }

  function Run(h: Trace<Step>): Router {
    match h
    case Begin => EMPTY
    case Then(past, step) => Apply(Run(past), step)
  }

  /* --------------------------------------------- the naive table: account to filter */

  type Table = map<string, set<string>>

  function TableWith(t: Table, a: Account): Table {
    if a.active then t[a.id := Uppers(a.symbols)] else t
  }

  function TableOf(accounts: seq<Account>): Table {
    if accounts == [] then map[] else TableWith(TableOf(accounts[..|accounts| - 1]), accounts[|accounts| - 1])
  }

  // The accounts that are routed after the run, with their upper-case filters.
  function Routed(h: Trace<Step>): Table {
    match h
    case Begin => map[]
    case Then(_, Rebuild(accounts)) => TableOf(accounts)
    case Then(past, Add(a)) => TableWith(Routed(past), a)
    case Then(past, Remove(id)) => Routed(past) - {id}
  }

  // A scan over all routed accounts.
  function Scan(t: Table, symbol: string): set<string> {
    set a | a in t && (t[a] == {} || Upper(symbol) in t[a])
  }

  ghost predicate DistinctIds(accounts: seq<Account>) {
    forall i, j :: 0 <= i < j < |accounts| ==> accounts[i].id != accounts[j].id
  }

  // Accounts are only added while they are not routed.
  ghost predicate AddsFresh(h: Trace<Step>) {
    match h
    case Begin => true
    case Then(past, Rebuild(accounts)) => AddsFresh(past) && DistinctIds(accounts)
    case Then(past, Add(a)) => AddsFresh(past) && (a.active ==> a.id !in Routed(past))
    case Then(past, Remove(_)) => AddsFresh(past)
  }

  // The router is the inverted table, without empty buckets.
  ghost predicate Indexes(r: Router, t: Table) {
    && (forall a :: a in r.wildcards <==> a in t && t[a] == {})
    && (forall s, a :: a in Bucket(r, s) <==> a in t && s in t[a])
    && (forall s :: s in r.symbolMap ==> r.symbolMap[s] != {})
  }

  lemma IndexIsUnique(r: Router, q: Router, t: Table)
    requires Indexes(r, t) && Indexes(q, t)
    ensures r == q
  {
    assert r.wildcards == q.wildcards;
    forall s ensures Bucket(r, s) == Bucket(q, s) && (s in r.symbolMap <==> s in q.symbolMap) {
      forall a ensures a in Bucket(r, s) <==> a in Bucket(q, s) {
        assert a in Bucket(r, s) <==> a in t && s in t[a];
        assert a in Bucket(q, s) <==> a in t && s in t[a];
      }
      assert Bucket(r, s) == Bucket(q, s);
    }
    assert r.symbolMap == q.symbolMap;
  }

  lemma {:induction false} SubscribeAllFills(r: Router, id: string, symbols: seq<string>, n: nat)
    requires n <= |symbols|
    ensures var q := SubscribeAll(r, id, symbols, n);
            && q.wildcards == r.wildcards
            && (forall s :: Bucket(q, s) == Bucket(r, s) + if s in Uppers(symbols[..n]) then {id} else {})
            && (forall s :: s in q.symbolMap <==> s in r.symbolMap || s in Uppers(symbols[..n]))
  {
    if n != 0 {
      SubscribeAllFills(r, id, symbols, n - 1);
      assert symbols[..n][..n - 1] == symbols[..n - 1];
    }
  }

  // What adding an account does to the index of any table, whether or not the id is new to it.
  lemma AddedFills(r: Router, a: Account)
    requires a.active
    ensures var q := Added(r, a);
            && (forall b :: b in q.wildcards <==> b in r.wildcards || (b == a.id && a.symbols == []))
            && (forall s, b :: b in Bucket(q, s) <==> b in Bucket(r, s) || (b == a.id && s in Uppers(a.symbols)))
            && (forall s :: s in q.symbolMap <==> s in r.symbolMap || s in Uppers(a.symbols))
  {
    SubscribeAllFills(r, a.id, a.symbols, |a.symbols|);
    assert a.symbols[..|a.symbols|] == a.symbols;
  }

  lemma AddedIndexes(r: Router, t: Table, a: Account)
    requires Indexes(r, t) && (a.active ==> a.id !in t)
    ensures Indexes(Added(r, a), TableWith(t, a))
  {
    if a.active {
      AddedFills(r, a);
      NoEmptyBuckets(r, a);
    }
  }

  lemma NoEmptyBuckets(r: Router, a: Account)
    requires a.active && forall s :: s in r.symbolMap ==> r.symbolMap[s] != {}
    ensures forall s :: s in Added(r, a).symbolMap ==> Added(r, a).symbolMap[s] != {}
  {
    AddedFills(r, a);
    forall s | s in Added(r, a).symbolMap ensures Bucket(Added(r, a), s) != {} {
      if s in r.symbolMap {
        var b :| b in r.symbolMap[s];
        assert b in Bucket(Added(r, a), s);
      } else {
        assert a.id in Bucket(Added(r, a), s);
      }
    }
  }

  lemma {:induction false} TableHasIds(accounts: seq<Account>, id: string)
    requires id in TableOf(accounts)
    ensures exists i :: 0 <= i < |accounts| && accounts[i].id == id
  {
    var n := |accounts| - 1;
    if id in TableOf(accounts[..n]) { TableHasIds(accounts[..n], id); }
    else { assert accounts[n].id == id; }
  }

  lemma {:induction false} BuiltIndexes(accounts: seq<Account>)
    requires DistinctIds(accounts)
    ensures Indexes(Built(accounts), TableOf(accounts))
  {
    if accounts != [] {
      var n := |accounts| - 1;
      BuiltIndexes(accounts[..n]);
      if accounts[n].id in TableOf(accounts[..n]) {
        TableHasIds(accounts[..n], accounts[n].id);
      }
      AddedIndexes(Built(accounts[..n]), TableOf(accounts[..n]), accounts[n]);
    }
  }

  lemma RemovedIndexes(r: Router, t: Table, id: string)
    requires Indexes(r, t)
    ensures Indexes(Removed(r, id), t - {id})
  {
    forall s, a ensures a in Bucket(Removed(r, id), s) <==> a in t - {id} && s in (t - {id})[a] {
      assert Bucket(Removed(r, id), s) == Bucket(r, s) - {id};
      assert a in Bucket(r, s) <==> a in t && s in t[a];
    }
  }

  // After any run the router is the inverted table of the routed accounts.
  lemma {:induction false} RunIndexes(h: Trace<Step>)
    requires AddsFresh(h)
    ensures Indexes(Run(h), Routed(h))
  {
    if h.Then? {
      match h.last
      case Rebuild(accounts) => BuiltIndexes(accounts);
      case Add(a) => RunIndexes(h.past); AddedIndexes(Run(h.past), Routed(h.past), a);
      case Remove(id) => RunIndexes(h.past); RemovedIndexes(Run(h.past), Routed(h.past), id);
    }
  }

  // Routing agrees with a scan over the routed accounts for every symbol, in any letter case.
  lemma RoutesLikeScan(h: Trace<Step>, symbol: string)
    requires AddsFresh(h)
    ensures Route(Run(h), symbol) == Scan(Routed(h), symbol)
    ensures forall other :: SameLetters(other, symbol) ==> Route(Run(h), other) == Route(Run(h), symbol)
  {
    RunIndexes(h);
    forall other | SameLetters(other, symbol)
      ensures Upper(other) == Upper(symbol)
    {
      UpperIs(other, symbol);
    }
  }

  // The filters as the accounts were given them.
  type Filters = map<string, seq<string>>

  function FiltersWith(t: Filters, a: Account): Filters {
    if a.active then t[a.id := a.symbols] else t
  }

  function FiltersOf(accounts: seq<Account>): Filters {
    if accounts == [] then map[] else FiltersWith(FiltersOf(accounts[..|accounts| - 1]), accounts[|accounts| - 1])
  }

  function Given(h: Trace<Step>): Filters {
    match h
    case Begin => map[]
    case Then(_, Rebuild(accounts)) => FiltersOf(accounts)
    case Then(past, Add(a)) => FiltersWith(Given(past), a)
    case Then(past, Remove(id)) => Given(past) - {id}
  }

  predicate Subscribed(filter: seq<string>, symbol: string) {
    filter == [] || exists s :: s in filter && SameLetters(s, symbol)
  }

  ghost predicate InUpperCase(t: Table, filters: Filters) {
    t.Keys == filters.Keys && forall a :: a in t ==> t[a] == Uppers(filters[a])
  }

  lemma {:induction false} TableInUpperCase(accounts: seq<Account>)
    ensures InUpperCase(TableOf(accounts), FiltersOf(accounts))
  {
    if accounts != [] { TableInUpperCase(accounts[..|accounts| - 1]); }
  }

  lemma {:induction false} RoutedInUpperCase(h: Trace<Step>)
    ensures InUpperCase(Routed(h), Given(h))
  {
    if h.Then? {
      RoutedInUpperCase(h.past);
      if h.last.Rebuild? { TableInUpperCase(h.last.accounts); }
    }
  }

  lemma {:induction false} UppersHold(symbols: seq<string>, u: string)
    ensures u in Uppers(symbols) <==> exists s :: s in symbols && Upper(s) == u
  {
    if symbols != [] {
      var init, last := symbols[..|symbols| - 1], symbols[|symbols| - 1];
      UppersHold(init, u);
      assert symbols == init + [last];
      assert forall s :: s in symbols <==> s in init || s == last;
    }
  }

  lemma SubscribedInUpperCase(filter: seq<string>, symbol: string)
    ensures Subscribed(filter, symbol) <==> Uppers(filter) == {} || Upper(symbol) in Uppers(filter)
  {
    UppersHold(filter, Upper(symbol));
    forall s
      ensures Upper(s) == Upper(symbol) <==> SameLetters(s, symbol)
    {
      UpperIs(s, symbol);
    }
  }

  // After any run a symbol reaches exactly the routed accounts whose filter is empty or lists it, in
  // whatever letter case either is written.
  lemma RoutesToSubscribers(h: Trace<Step>, symbol: string, a: string)
    requires AddsFresh(h)
    ensures a in Route(Run(h), symbol) <==> a in Given(h) && Subscribed(Given(h)[a], symbol)
  {
    RoutesLikeScan(h, symbol);
    RoutedInUpperCase(h);
    if a in Given(h) { SubscribedInUpperCase(Given(h)[a], symbol); }
  }

  // However it got there, the router equals one rebuilt from scratch on the accounts it routes.
  lemma IncrementalIsRebuild(h: Trace<Step>, accounts: seq<Account>)
    requires AddsFresh(h) && DistinctIds(accounts) && TableOf(accounts) == Routed(h)
    ensures Run(h) == Built(accounts)
  {
    RunIndexes(h);
    BuiltIndexes(accounts);
    IndexIsUnique(Run(h), Built(accounts), Routed(h));
  }

  // Removal leaves no trace of the account and no empty bucket.
  lemma RemoveLeavesNothing(r: Router, id: string, symbol: string)
    ensures id !in Route(Removed(r, id), symbol)
    ensures symbol in Removed(r, id).symbolMap ==> Removed(r, id).symbolMap[symbol] != {}
    ensures Route(Removed(r, id), symbol) == Route(r, symbol) - {id}
  {
  }

  // Adding an account that is already routed merges its filters: the result is the index of the new
  // filter exactly when that is empty only if the old one was, and contains the old one.
  lemma ReAddMergesFilters(r: Router, t: Table, a: Account)
    requires Indexes(r, t) && a.active && a.id in t
    ensures Indexes(Added(r, a), TableWith(t, a))
            <==> (t[a.id] == {} <==> a.symbols == []) && t[a.id] <= Uppers(a.symbols)
  {
    AddedFills(r, a);
    NoEmptyBuckets(r, a);
    var q, u := Added(r, a), TableWith(t, a);
    if Indexes(q, u) {
      assert a.id in q.wildcards <==> u[a.id] == {};
      forall s | s in t[a.id] ensures s in Uppers(a.symbols) {
        assert a.id in Bucket(r, s);
        assert a.id in Bucket(q, s);
      }
    }
  }

  /* --------------------------------------------------------------------- the router */

  class SymbolRouter {
    var symbolMap: map<string, set<string>>
    var wildcards: set<string>

    ghost function State(): Router
      reads this
    {
      Router(symbolMap, wildcards)
    }

    constructor (accounts: seq<Account>)
      ensures State() == Built(accounts)
    {
      symbolMap, wildcards := map[], {};
      new;
      RebuildMapping(accounts);
    }

    // Builds new maps and swaps them in at the end.
    method RebuildMapping(accounts: seq<Account>)
      modifies this
      ensures State() == Built(accounts)
    {
      var newMap: map<string, set<string>> := map[];
      var newWildcards: set<string> := {};
      for i := 0 to |accounts|
        invariant Router(newMap, newWildcards) == Built(accounts[..i])
      {
        assert accounts[..i + 1][..i] == accounts[..i];
        var a := accounts[i];
        if a.active {
          if a.symbols == [] {
            newWildcards := newWildcards + {a.id};
          } else {
            ghost var before := Router(newMap, newWildcards);
            for j := 0 to |a.symbols|
              invariant Router(newMap, newWildcards) == SubscribeAll(before, a.id, a.symbols, j)
            {
              var symbol := Upper(a.symbols[j]);
              if symbol !in newMap {
                newMap := newMap[symbol := {}];
              }
              newMap := newMap[symbol := newMap[symbol] + {a.id}];
            }
          }
        }
      }
      assert accounts[..|accounts|] == accounts;
      symbolMap, wildcards := newMap, newWildcards;
    }

    method AddAccount(a: Account)
      modifies this
      ensures State() == Added(old(State()), a)
    {
      if !a.active {
        return;
      }
      if a.symbols == [] {
        wildcards := wildcards + {a.id};
      } else {
        for j := 0 to |a.symbols|
          invariant State() == SubscribeAll(old(State()), a.id, a.symbols, j)
        {
          var symbol := Upper(a.symbols[j]);
          if symbol !in symbolMap {
            symbolMap := symbolMap[symbol := {}];
          }
          symbolMap := symbolMap[symbol := symbolMap[symbol] + {a.id}];
        }
      }
    }

    method RemoveAccount(id: string)
      modifies this
      ensures State() == Removed(old(State()), id)
    {
      wildcards := wildcards - {id};
      symbolMap := map s | s in symbolMap :: symbolMap[s] - {id};
      symbolMap := map s | s in symbolMap && symbolMap[s] != {} :: symbolMap[s];
    }

    method RouteSymbol(symbol: string) returns (accounts: set<string>)
      ensures accounts == Route(State(), symbol)
    {
      var upper := Upper(symbol);
      var specific := if upper in symbolMap then symbolMap[upper] else {};
      accounts := specific + wildcards;
    }
  }
}

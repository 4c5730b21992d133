// The bridge between the trading engine and the MT5 terminals: order commands wait in one bounded
// channel and leave it with the heartbeat responses of their accounts.
module OrderBridge {
  import opened Options
  import opened StableSort
  import opened Traces

  datatype Order = Order(orderId: string, accountId: string)

  // A message as it arrives: None stands for a payload that is missing or does not parse.
  datatype Event = Command(order: Option<Order>) | Heartbeat(account: Option<string>)

  datatype Response = Nothing | Ack | Error | Deliver(order: Order)

  const CAPACITY: nat := 100

  // `accepted` and `delivered` record what entered the channel and what was handed out, to whom.
  // With `waiting` the event loop itself is suspended in a send on the full channel.
  datatype Bridge = Bridge(
    queue: seq<Order>, waiting: Option<Order>, heartbeats: set<string>,
    accepted: seq<Order>, delivered: seq<(Order, string)>)

  function Initial(): Bridge {
    Bridge([], None, {}, [], [])
  }

  // Pop the oldest order; hand it out if it is for this account, else put it back at the end.
  function Served(s: Bridge, account: string): (Bridge, Response) {
    var noted := s.(heartbeats := s.heartbeats + {account});
    if s.queue == [] then (noted, Ack)
    else
      var order := s.queue[0];
      if order.accountId == account
        then (noted.(queue := s.queue[1..], delivered := s.delivered + [(order, account)]), Deliver(order))
      else (noted.(queue := s.queue[1..] + [order]), Ack)
  }

  // The loop is the channel's only reader: suspended in a send, it serves nothing any more.
  function Handle(s: Bridge, e: Event): (Bridge, Response) {
    if s.waiting.Some? then (s, Nothing) else
    match e
    case Command(None) => (s, Nothing)
    case Command(Some(order)) =>
      if |s.queue| < CAPACITY then (s.(queue := s.queue + [order], accepted := s.accepted + [order]), Nothing)
      else (s.(waiting := Some(order)), Nothing)
    case Heartbeat(None) => (s, Error)
    case Heartbeat(Some(account)) => Served(s, account)
  }

  function Run(s: Bridge, h: Trace<Event>): Bridge {
    match h
    case Begin => s
    case Then(past, e) => Handle(Run(s, past), e).0
  }

  /* ------------------------------------------------------------------ conservation */

  function Orders(log: seq<(Order, string)>): seq<Order> {
    seq(|log|, i requires 0 <= i < |log| => log[i].0)
  }

  ghost predicate Valid(s: Bridge) {
    && |s.queue| <= CAPACITY
    && multiset(s.accepted) == multiset(s.queue) + multiset(Orders(s.delivered))
    && (forall i :: 0 <= i < |s.delivered| ==> s.delivered[i].0.accountId == s.delivered[i].1)
    && (s.waiting.Some? ==> |s.queue| == CAPACITY)
  }

  lemma Rotated(queue: seq<Order>)
    requires queue != []
    ensures multiset(queue[1..] + [queue[0]]) == multiset(queue)
    ensures multiset(queue[1..]) + multiset{queue[0]} == multiset(queue)
  {
    assert queue == [queue[0]] + queue[1..];
  }

  lemma ServedKeepsValid(s: Bridge, account: string)
    requires Valid(s) && s.waiting.None?
    ensures Valid(Served(s, account).0)
  {
    if s.queue != [] {
      var order := s.queue[0];
      Rotated(s.queue);
      assert Orders(s.delivered + [(order, account)]) == Orders(s.delivered) + [order];
    }
  }

  lemma StepKeepsValid(s: Bridge, e: Event)
    requires Valid(s)
    ensures Valid(Handle(s, e).0)
  {
    if s.waiting.None? && e.Heartbeat? && e.account.Some? {
      ServedKeepsValid(s, e.account.value);
    }
  }

  // Over every interleaving of commands and heartbeats no order is lost or doubled, each is handed
  // out to its own account only, and the channel never holds more than a hundred.
  lemma {:induction false} OrdersAreConserved(h: Trace<Event>)
    ensures Valid(Run(Initial(), h)) && |Run(Initial(), h).queue| <= 100
  {
    if h.Then? {
      OrdersAreConserved(h.past);
      StepKeepsValid(Run(Initial(), h.past), h.last);
    }
  }

  // While the loop runs every request is answered: a heartbeat that cannot be read by an error, one that
  // is handed an order by that order, and any other, and only such a one, by a plain acknowledgement.
  lemma AnswersSay(s: Bridge, e: Event)
    requires s.waiting.None?
    ensures var (t, response) := Handle(s, e);
            && (response.Nothing? <==> e.Command?)
            && (response.Error? <==> e == Heartbeat(None))
            && (response.Deliver? <==> t.delivered != s.delivered)
            && (response.Deliver? ==> e.Heartbeat? && t.delivered == s.delivered + [(response.order, e.account.value)])
            && (response.Ack? <==> e.Heartbeat? && e.account.Some? && t.delivered == s.delivered)
  {
    var (t, response) := Handle(s, e);
    if response.Deliver? {
      assert |t.delivered| == |s.delivered| + 1;
    }
  }

  predicate SentBy(h: Trace<Event>, account: string) {
    h.Then? && (h.last == Heartbeat(Some(account)) || SentBy(h.past, account))
  }

  // The bridge has noted exactly the accounts that sent a heartbeat, as long as it ran.
  lemma {:induction false} HeartbeatsAreNoted(h: Trace<Event>, account: string)
    requires Run(Initial(), h).waiting.None?
    ensures account in Run(Initial(), h).heartbeats <==> SentBy(h, account)
  {
    if h.Then? { HeartbeatsAreNoted(h.past, account); }
  }

  /* ------------------------------------------------------------------- when it is served */

  function Heartbeats(h: Trace<Event>): nat {
    if h.Begin? then 0
    else Heartbeats(h.past) + if h.last.Heartbeat? && h.last.account.Some? then 1 else 0
  }

  lemma StepMovesUp(s: Bridge, e: Event, i: nat)
    requires s.waiting.None? && Handle(s, e).0.waiting.None? && i < |s.queue|
    requires e.Heartbeat? && e.account.Some? ==> 0 < i
    ensures var t, j := Handle(s, e).0, if e.Heartbeat? && e.account.Some? then i - 1 else i;
            j < |t.queue| && t.queue[j] == s.queue[i]
  {
  }

  // Whoever sends the heartbeats and whatever is queued behind, each one moves an order up by one.
  lemma {:induction false} HeartbeatsMoveUp(s: Bridge, h: Trace<Event>, i: nat)
    requires i < |s.queue| && Heartbeats(h) <= i
    requires Run(s, h).waiting.None?
    ensures i - Heartbeats(h) < |Run(s, h).queue| && Run(s, h).queue[i - Heartbeats(h)] == s.queue[i]
  {
    if h.Then? {
      HeartbeatsMoveUp(s, h.past, i);
      StepMovesUp(Run(s, h.past), h.last, i - Heartbeats(h.past));
    }
  }

  // The order at index i is handed out with the (i + 1)-th heartbeat exactly when that one comes from
  // its own account; otherwise it goes to the end of the queue.
  lemma DeliveredWithItsTurn(s: Bridge, h: Trace<Event>, i: nat, account: string)
    requires i < |s.queue| && Heartbeats(h) == i && Run(s, h).waiting.None?
    ensures var (after, response) := Handle(Run(s, h), Heartbeat(Some(account)));
            && (response == Deliver(s.queue[i]) <==> account == s.queue[i].accountId)
            && (account != s.queue[i].accountId ==> after.queue != [] && after.queue[|after.queue| - 1] == s.queue[i])
  {
    HeartbeatsMoveUp(s, h, i);
  }

  // Two accounts whose heartbeats meet only each other's order wait for ever.
  function Alternating(n: nat, a: string, b: string): Trace<Event> {
    if n == 0 then Begin else Then(Then(Alternating(n - 1, a, b), Heartbeat(Some(b))), Heartbeat(Some(a)))
  }

  lemma {:induction false} AlternatingHeartbeatsStarve(s: Bridge, x: Order, y: Order, n: nat)
    requires s.waiting.None? && s.queue == [x, y] && x.accountId != y.accountId
    ensures var t := Run(s, Alternating(n, x.accountId, y.accountId));
            t.waiting.None? && t.queue == [x, y] && t.delivered == s.delivered
  {
    if n != 0 {
      AlternatingHeartbeatsStarve(s, x, y, n - 1);
      var t := Run(s, Alternating(n - 1, x.accountId, y.accountId));
      var u := Handle(t, Heartbeat(Some(y.accountId))).0;
      assert u.queue == [y] + [x];
      assert Handle(u, Heartbeat(Some(x.accountId))).0.queue == [x] + [y];
    }
  }

  /* ------------------------------------------------------- the order of one account */

  function For(account: string): Order -> bool {
    (order: Order) => order.accountId == account
  }

  // The account's orders as they left or will leave the channel.
  function Line(s: Bridge, account: string): seq<Order> {
    Filter(Orders(s.delivered) + s.queue, For(account))
  }

  // The heartbeat puts back an order behind a different one of the same account.
  predicate Overtakes(s: Bridge, e: Event) {
    && s.waiting.None? && e.Heartbeat? && e.account.Some?
    && s.queue != [] && s.queue[0].accountId != e.account.value
    && exists i :: 0 < i < |s.queue| && s.queue[i].accountId == s.queue[0].accountId && s.queue[i] != s.queue[0]
  }

  lemma {:induction false} ShiftedSame(x: Order, xs: seq<Order>, i: nat)
    requires [x] + xs == xs + [x] && i < |xs|
    ensures xs[i] == x
  {
    assert ([x] + xs)[i] == (xs + [x])[i] == xs[i];
    if 0 < i {
      ShiftedSame(x, xs, i - 1);
      assert ([x] + xs)[i] == xs[i - 1];
    }
  }

  lemma RotationKeeps(x: Order, xs: seq<Order>)
    ensures [x] + xs == xs + [x] <==> forall y :: y in xs ==> y == x
  {
    if [x] + xs == xs + [x] {
      forall y | y in xs
        ensures y == x
      {
        var i :| 0 <= i < |xs| && xs[i] == y;
        ShiftedSame(x, xs, i);
      }
    }
    assert forall i :: 0 <= i < |xs| ==> xs[i] in xs;
    assert (forall i :: 0 <= i < |xs| ==> xs[i] == x) ==> [x] + xs == xs + [x];
  }

  function Own(order: Order, a: string): seq<Order> {
    if order.accountId == a then [order] else []
  }

  lemma OwnIsFiltered(order: Order, a: string)
    ensures Filter([order], For(a)) == Own(order, a)
  {
    FilterPush([], order, For(a));
    assert [] + [order] == [order];
  }

  // The line of an account with an order in front of the queue, and behind it.
  lemma LineInFront(before: seq<Order>, head: Order, rest: seq<Order>, a: string)
    ensures Filter(before + ([head] + rest), For(a)) == Filter(before, For(a)) + (Own(head, a) + Filter(rest, For(a)))
  {
    FilterAppend(before, [head] + rest, For(a));
    FilterAppend([head], rest, For(a));
    OwnIsFiltered(head, a);
  }

  lemma LineBehind(before: seq<Order>, head: Order, rest: seq<Order>, a: string)
    ensures Filter(before + (rest + [head]), For(a)) == Filter(before, For(a)) + (Filter(rest, For(a)) + Own(head, a))
  {
    FilterAppend(before, rest + [head], For(a));
    FilterAppend(rest, [head], For(a));
    OwnIsFiltered(head, a);
  }

  lemma SameAfter(front: seq<Order>, x: seq<Order>, y: seq<Order>)
    ensures front + x == front + y <==> x == y
  {
    assert (front + x)[|front|..] == x && (front + y)[|front|..] == y;
  }

  lemma PutBackKeepsLineIff(before: seq<Order>, head: Order, rest: seq<Order>, a: string)
    ensures Filter(before + (rest + [head]), For(a)) == Filter(before + ([head] + rest), For(a)) <==>
              head.accountId != a || forall y :: y in rest && y.accountId == a ==> y == head
  {
    var own := Filter(rest, For(a));
    LineInFront(before, head, rest, a);
    LineBehind(before, head, rest, a);
    SameAfter(Filter(before, For(a)), Own(head, a) + own, own + Own(head, a));
    FilterHolds(rest, For(a));
    RotationKeeps(head, own);
  }

  lemma DeliveryKeepsLine(delivered: seq<(Order, string)>, queue: seq<Order>, a: string)
    requires queue != []
    ensures Orders(delivered + [(queue[0], a)]) + queue[1..] == Orders(delivered) + queue
  {
  }

  ghost predicate LinesKept(s: Bridge, t: Bridge) {
    forall a :: Line(t, a) == Line(s, a)
  }

  // A heartbeat keeps the order of every account exactly when it does not put back an order that has a
  // different one of its account behind it.
  lemma HeartbeatKeepsLinesIff(s: Bridge, account: string)
    requires s.waiting.None?
    ensures LinesKept(s, Served(s, account).0) <==> !Overtakes(s, Heartbeat(Some(account)))
  {
    if s.queue != [] {
      var head, rest, before := s.queue[0], s.queue[1..], Orders(s.delivered);
      var t := Served(s, account).0;
      assert s.queue == [head] + rest;
      if head.accountId == account {
        DeliveryKeepsLine(s.delivered, s.queue, account);
      } else {
        forall a
          ensures Line(t, a) == Line(s, a) <==> head.accountId != a || forall y :: y in rest && y.accountId == a ==> y == head
        {
          PutBackKeepsLineIff(before, head, rest, a);
        }
        assert LinesKept(s, t) ==> Line(t, head.accountId) == Line(s, head.accountId);
        OthersBehind(s.queue);
      }
    }
  }

  lemma OthersBehind(queue: seq<Order>)
    requires queue != []
    ensures (exists i :: 0 < i < |queue| && queue[i].accountId == queue[0].accountId && queue[i] != queue[0]) <==>
            (exists y :: y in queue[1..] && y.accountId == queue[0].accountId && y != queue[0])
  {
    var rest := queue[1..];
    assert forall i :: 0 < i < |queue| ==> queue[i] == rest[i - 1];
    if y :| y in rest && y.accountId == queue[0].accountId && y != queue[0] {
      var j :| 0 <= j < |rest| && rest[j] == y;
      assert queue[j + 1] == y;
    }
  }

  // Every account's orders leave, or are queued to leave, in the order they were accepted.
  ghost predicate InOrder(s: Bridge) {
    forall a :: Line(s, a) == Filter(s.accepted, For(a))
  }

  ghost predicate AlwaysInOrder(s: Bridge, h: Trace<Event>) {
    InOrder(Run(s, h)) && (h.Then? ==> AlwaysInOrder(s, h.past))
  }

  ghost predicate NeverOvertakes(s: Bridge, h: Trace<Event>) {
    h.Then? ==> NeverOvertakes(s, h.past) && !Overtakes(Run(s, h.past), h.last)
  }

  lemma AcceptanceKeepsOrder(s: Bridge, order: Order)
    requires InOrder(s)
    ensures InOrder(s.(queue := s.queue + [order], accepted := s.accepted + [order]))
  {
    var t := s.(queue := s.queue + [order], accepted := s.accepted + [order]);
    assert Orders(t.delivered) + t.queue == (Orders(s.delivered) + s.queue) + [order];
    forall a
      ensures Line(t, a) == Filter(t.accepted, For(a))
    {
      FilterPush(Orders(s.delivered) + s.queue, order, For(a));
      FilterPush(s.accepted, order, For(a));
      assert Line(s, a) == Filter(s.accepted, For(a));
    }
  }

  lemma StepInOrderIff(s: Bridge, e: Event)
    requires InOrder(s)
    ensures InOrder(Handle(s, e).0) <==> !Overtakes(s, e)
  {
    if s.waiting.None? && e.Command? && e.order.Some? && |s.queue| < CAPACITY {
      AcceptanceKeepsOrder(s, e.order.value);
    } else if s.waiting.None? && e.Heartbeat? && e.account.Some? {
      HeartbeatKeepsLinesIff(s, e.account.value);
      var t := Handle(s, e).0;
      forall a
        ensures Line(t, a) == Filter(t.accepted, For(a)) <==> Line(t, a) == Line(s, a)
      {
        assert Line(s, a) == Filter(s.accepted, For(a));
      }
    } else {
      assert forall a :: Line(Handle(s, e).0, a) == Line(s, a);
      forall a
        ensures Line(Handle(s, e).0, a) == Filter(Handle(s, e).0.accepted, For(a))
      {
        assert Line(s, a) == Filter(s.accepted, For(a));
      }
    }
  }

  // Over every run, each account's orders keep the order they were accepted in, at every moment, exactly
  // when no heartbeat of the run puts an order back behind a different one of the same account.
  lemma {:induction false} RunInOrderIff(h: Trace<Event>)
    ensures AlwaysInOrder(Initial(), h) <==> NeverOvertakes(Initial(), h)
  {
    if h.Then? {
      RunInOrderIff(h.past);
      if AlwaysInOrder(Initial(), h.past) {
        assert InOrder(Run(Initial(), h.past));
        StepInOrderIff(Run(Initial(), h.past), h.last);
      }
    } else {
      assert Run(Initial(), h) == Initial();
      assert Orders([]) + [] == [];
    }
  }

  // Then what an account has been handed is a prefix of what was accepted for it.
  lemma DeliveredIsPrefix(s: Bridge, account: string)
    requires InOrder(s)
    ensures Filter(Orders(s.delivered), For(account)) <= Filter(s.accepted, For(account))
  {
    FilterAppend(Orders(s.delivered), s.queue, For(account));
    assert Line(s, account) == Filter(s.accepted, For(account));
  }

  // A put-back can move an account's older order behind its newer one.
  lemma OrdersOvertake(s: Bridge, first: Order, other: Order, second: Order)
    requires s.waiting.None? && s.queue == [first, other, second]
    requires first.accountId == second.accountId != other.accountId
    ensures var b, a := Heartbeat(Some(other.accountId)), Heartbeat(Some(first.accountId));
            Run(s, Then(Then(Then(Begin, b), b), a)).delivered
            == s.delivered + [(other, other.accountId)] + [(second, second.accountId)]
  {
    var b, a := Heartbeat(Some(other.accountId)), Heartbeat(Some(first.accountId));
    assert Run(s, Begin) == s && s.queue[1..] + [first] == [other, second, first];
    var s1 := Run(s, Then(Begin, b));
    assert s1.queue == [other, second, first] && s1.queue[1..] == [second, first];
    var s2 := Run(s, Then(Then(Begin, b), b));
    assert s2 == Handle(s1, b).0 && s2.queue == [second, first];
  }

  /* -------------------------------------------------------------- the full channel */

  // The put-back of a heartbeat always finds room.
  lemma PutBackNeverWaits(s: Bridge, e: Event)
    requires Valid(s) && s.waiting.None? && e.Heartbeat?
    ensures Handle(s, e).0.waiting.None?
    ensures s.queue != [] ==> |s.queue[1..]| < CAPACITY
  {
  }

  // An order command suspends the loop exactly when 100 orders are queued.
  lemma CommandWaitsIffFull(s: Bridge, order: Order)
    requires Valid(s) && s.waiting.None?
    ensures Handle(s, Command(Some(order))).0.waiting.Some? <==> |s.queue| == 100
  {
  }

  // And then for good: nothing is delivered, answered or accepted afterwards.
  lemma {:induction false} FullChannelStopsBridge(s: Bridge, h: Trace<Event>)
    requires s.waiting.Some?
    ensures Run(s, h) == s
  {
    if h.Then? { FullChannelStopsBridge(s, h.past); }
  }

  function Commands(h: Trace<Event>): nat {
    if h.Begin? then 0
    else Commands(h.past) + if h.last.Command? && h.last.order.Some? then 1 else 0
  }

  // The bridge keeps running exactly as long as every order that arrived was accepted.
  lemma {:induction false} RunningIffAllAccepted(h: Trace<Event>)
    ensures var s := Run(Initial(), h);
            && |s.accepted| <= Commands(h) && |s.accepted| == |s.queue| + |s.delivered|
            && (s.waiting.None? <==> |s.accepted| == Commands(h))
  {
    if h.Then? {
      RunningIffAllAccepted(h.past);
    }
  }

  /* -------------------------------------------------------------------- the server */

  class ZmqServer {
    var orders: seq<Order>
    var waiting: Option<Order>
    var lastHeartbeat: set<string>
    var accepted: seq<Order>
    var delivered: seq<(Order, string)>

    ghost function State(): Bridge
      reads this
    {
      Bridge(orders, waiting, lastHeartbeat, accepted, delivered)
    }

    constructor ()
      ensures State() == Initial()
    {
      orders, waiting, lastHeartbeat, accepted, delivered := [], None, {}, [], [];
    }

    method GetPendingOrder() returns (order: Option<Order>)
      modifies `orders
      ensures old(orders) == [] ==> order == None && orders == []
      ensures old(orders) != [] ==> order == Some(old(orders)[0]) && orders == old(orders)[1..]
    {
      if orders == [] {
        return None;
      }
      order := Some(orders[0]);
      orders := orders[1..];
    }

    method Send(order: Order)
      modifies `orders, `waiting
      ensures |old(orders)| < CAPACITY ==> orders == old(orders) + [order] && waiting == old(waiting)
      ensures |old(orders)| >= CAPACITY ==> orders == old(orders) && waiting == Some(order)
    {
      if |orders| < CAPACITY {
        orders := orders + [order];
      } else {
        waiting := Some(order);
      }
    }

    method HandleOrderCommand(message: Option<Order>)
      requires waiting.None?
      modifies this
      ensures State() == Handle(old(State()), Command(message)).0
    {
      if message.Some? {
        Send(message.value);
        if waiting.None? {
          accepted := accepted + [message.value];
        }
      }
    }

    method HandleHeartbeat(message: Option<string>) returns (response: Response)
      requires Valid(State()) && waiting.None?
      modifies this
      ensures (State(), response) == Handle(old(State()), Heartbeat(message))
    {
      if message.None? {
        return Error;
      }
      var account := message.value;
      lastHeartbeat := lastHeartbeat + {account};
      var pending := GetPendingOrder();
      if pending.Some? {
        var order := pending.value;
        if order.accountId == account {
          delivered := delivered + [(order, account)];
          return Deliver(order);
        }
        Send(order);
      }
      response := Ack;
    }
  }
}

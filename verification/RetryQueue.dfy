// The notification queue: messages are sent in periodic passes and retried with exponential backoff
// until they are delivered or have failed often enough.
module RetryQueue {
  import opened Options
  import opened Traces

  // `id` is the arrival number of a message; the program tells messages apart by their place only.
  datatype Message = Message(id: nat, text: string, attempts: nat, nextRetry: int)

  // One call of the sender, the n-th for this message: made at its own instant, within a pass that
  // took its time at the start.
  datatype Attempt = Attempt(id: nat, number: nat, passStart: int, at: int, ok: bool)

  // The sender's side of a call: when it is made, and whether it succeeds.
  datatype Call = Call(at: int, ok: bool)

  datatype Config = Config(maxRetries: int, baseDelay: int)

  datatype Queue = Queue(messages: seq<Message>, arrived: nat, log: seq<Attempt>)

  // A pass that starts at `now`, with the calls of the sender by message.
  datatype Event = Enqueue(text: string, now: int) | Process(now: int, calls: map<nat, Call>)

  function CallOf(calls: map<nat, Call>, id: nat, now: int): Call {
    if id in calls then calls[id] else Call(now, false)
  }

  /* ----------------------------------------------------------------------- backoff */

  function Pow2(n: nat): (p: nat)
    ensures 0 < p
  {
    if n == 0 then 1 else 2 * Pow2(n - 1)
  }

  // Go's int64 arithmetic.
  function Wrap64(x: int): int {
    (x + 0x8000_0000_0000_0000) % 0x1_0000_0000_0000_0000 - 0x8000_0000_0000_0000
  }

  // baseDelay * time.Duration(1 << (attempts - 1))
  function Delay(c: Config, attempts: nat): int
    requires 0 < attempts
  {
    Wrap64(c.baseDelay * Wrap64(Pow2(attempts - 1)))
  }

  lemma WrapKeepsInRange(x: int)
    ensures -0x8000_0000_0000_0000 <= Wrap64(x) < 0x8000_0000_0000_0000
    ensures 0 <= x < 0x8000_0000_0000_0000 ==> Wrap64(x) == x
  {
  }

  lemma ProductInRange(base: nat, p: nat)
    requires 0 < base && base * p < 0x8000_0000_0000_0000
    ensures p < 0x8000_0000_0000_0000
  {
    assert p <= base * p;
  }

  // The delays double exactly as long as they fit a 64-bit duration.
  lemma DelayDoublesIffInRange(c: Config, attempts: nat)
    requires 0 < attempts && 0 <= c.baseDelay
    ensures Delay(c, attempts) == c.baseDelay * Pow2(attempts - 1)
            <==> c.baseDelay * Pow2(attempts - 1) < 0x8000_0000_0000_0000
  {
    var p := Pow2(attempts - 1);
    WrapKeepsInRange(p);
    WrapKeepsInRange(c.baseDelay * Wrap64(p));
    if c.baseDelay == 0 {
      assert c.baseDelay * Wrap64(p) == 0 && c.baseDelay * p == 0;
    } else if c.baseDelay * p < 0x8000_0000_0000_0000 {
      ProductInRange(c.baseDelay, p);
      assert c.baseDelay * p >= 0;
    }
  }

  // Beyond that range the delay turns negative and the retry is due at once.
  lemma HugeDelayWrapsNegative()
    ensures Delay(Config(3, 0x4000_0000_0000_0000), 2) < 0
  {
    assert Pow2(1) == 2 * Pow2(0) == 2;
  }

  /* ------------------------------------------------------------------------ a pass */

  predicate Ready(m: Message, now: int) {
    m.nextRetry <= now
  }

  // What stays of one message after its turn.
  function Turn(c: Config, m: Message, now: int, calls: map<nat, Call>): seq<Message> {
    if !Ready(m, now) then [m]
    else if CallOf(calls, m.id, now).ok || m.attempts + 1 >= c.maxRetries then []
    else [m.(attempts := m.attempts + 1, nextRetry := now + Delay(c, m.attempts + 1))]
  }

  function Made(m: Message, now: int, call: Call): Attempt {
    Attempt(m.id, m.attempts + 1, now, call.at, call.ok)
  }

  // What its turn adds to the sender's calls.
  function Calls(m: Message, now: int, calls: map<nat, Call>): seq<Attempt> {
    if Ready(m, now) then [Made(m, now, CallOf(calls, m.id, now))] else []
  }

  // The pass over the first n messages.
  function Pass(c: Config, s: Queue, now: int, calls: map<nat, Call>, n: nat): (t: Queue)
    requires n <= |s.messages|
    ensures t.arrived == s.arrived
  {
    if n == 0 then s.(messages := [])
    else
      var before, m := Pass(c, s, now, calls, n - 1), s.messages[n - 1];
      before.(messages := before.messages + Turn(c, m, now, calls), log := before.log + Calls(m, now, calls))
  }

  function Apply(c: Config, s: Queue, e: Event): Queue {
    match e
    case Enqueue(text, now) => s.(messages := s.messages + [Message(s.arrived, text, 0, now)], arrived := s.arrived + 1)
    case Process(now, calls) => Pass(c, s, now, calls, |s.messages|)
  }

  function Initial(): Queue {
    Queue([], 0, [])
  }

  function Run(c: Config, h: Trace<Event>): Queue {
    match h
    case Begin => Initial()
    case Then(past, e) => Apply(c, Run(c, past), e)
  }

  /* -------------------------------------------------------------- fates of messages */

  function Count(log: seq<Attempt>, id: nat, ok: bool, n: nat): nat
    requires n <= |log|
  {
    if n == 0 then 0 else Count(log, id, ok, n - 1) + if log[n - 1].id == id && log[n - 1].ok == ok then 1 else 0
  }

  function Failures(s: Queue, id: nat): nat {
    Count(s.log, id, false, |s.log|)
  }

  function Deliveries(s: Queue, id: nat): nat {
    Count(s.log, id, true, |s.log|)
  }

  // How often a message may fail: maxRetries, but at least once.
  function Limit(c: Config): nat {
    if c.maxRetries < 1 then 1 else c.maxRetries
  }

  predicate HasId(q: seq<Message>, id: nat) {
    exists i :: 0 <= i < |q| && q[i].id == id
  }

  predicate IsQueued(s: Queue, id: nat) {
    HasId(s.messages, id)
  }

  // Every arrived message is waiting, delivered once, or dropped after the limit of failures.
  ghost predicate FateKnown(c: Config, s: Queue, id: nat) {
    var f, d := Failures(s, id), Deliveries(s, id);
    && (IsQueued(s, id) <==> id < s.arrived && d == 0 && f < Limit(c))
    && (id < s.arrived ==> d + f <= Limit(c) && d <= 1)
    && (id >= s.arrived ==> d + f == 0)
  }

  ghost predicate Ordered(s: Queue) {
    && (forall i, j :: 0 <= i < j < |s.messages| ==> s.messages[i].id < s.messages[j].id)
    && (forall i :: 0 <= i < |s.messages| ==> s.messages[i].attempts == Failures(s, s.messages[i].id))
  }

  ghost predicate Valid(c: Config, s: Queue) {
    Ordered(s) && forall id :: FateKnown(c, s, id)
  }

  // The queue in the middle of a pass: the first n messages have had their turn.
  function Midway(c: Config, s: Queue, now: int, calls: map<nat, Call>, n: nat): Queue
    requires n <= |s.messages|
  {
    var done := Pass(c, s, now, calls, n);
    done.(messages := done.messages + s.messages[n..])
  }

  // The message at index k has its turn.
  function AfterTurn(c: Config, s: Queue, k: nat, now: int, calls: map<nat, Call>): Queue
    requires k < |s.messages|
  {
    var m := s.messages[k];
    s.(messages := s.messages[..k] + Turn(c, m, now, calls) + s.messages[k + 1..],
       log := s.log + Calls(m, now, calls))
  }

  lemma {:induction false} CountAppend(log: seq<Attempt>, more: seq<Attempt>, id: nat, ok: bool, n: nat)
    requires n <= |log|
    ensures Count(log + more, id, ok, n) == Count(log, id, ok, n)
  {
    if n != 0 { CountAppend(log, more, id, ok, n - 1); }
  }

  lemma CountOneMore(log: seq<Attempt>, a: Attempt, id: nat, ok: bool)
    ensures Count(log + [a], id, ok, |log| + 1) == Count(log, id, ok, |log|) + if a.id == id && a.ok == ok then 1 else 0
  {
    CountAppend(log, [a], id, ok, |log|);
  }

  // One message at index k of a valid queue has its turn, leaving `after` in its place.
  lemma TurnKeepsValid(c: Config, s: Queue, k: nat, now: int, calls: map<nat, Call>)
    requires Valid(c, s) && k < |s.messages|
    ensures Valid(c, AfterTurn(c, s, k, now, calls))
  {
    var m := s.messages[k];
    if !Ready(m, now) {
      assert s.messages[..k] + [m] + s.messages[k + 1..] == s.messages && s.log + [] == s.log;
    } else {
      var call := Made(m, now, CallOf(calls, m.id, now));
      CalledMessage(c, s, k, call, Turn(c, m, now, calls));
    }
  }

  // The queue after message k has been called, leaving `left` in its place.
  function AfterCall(s: Queue, k: nat, call: Attempt, left: seq<Message>): Queue
    requires k < |s.messages|
  {
    s.(messages := s.messages[..k] + left + s.messages[k + 1..], log := s.log + [call])
  }

  ghost predicate IsCall(c: Config, s: Queue, k: nat, call: Attempt, left: seq<Message>) {
    && k < |s.messages| && call.id == s.messages[k].id
    && |left| == (if call.ok || s.messages[k].attempts + 1 >= c.maxRetries then 0 else 1)
    && (left != [] ==> left[0].id == call.id && left[0].attempts == s.messages[k].attempts + 1)
  }

  lemma CallKeepsFate(c: Config, s: Queue, k: nat, call: Attempt, left: seq<Message>, id: nat)
    requires Valid(c, s) && IsCall(c, s, k, call, left)
    ensures FateKnown(c, AfterCall(s, k, call, left), id)
  {
    assert FateKnown(c, s, id);
    CountOneMore(s.log, call, id, true);
    CountOneMore(s.log, call, id, false);
    StillQueued(s.messages, k, left, id);
  }

  lemma CallKeepsOrder(c: Config, s: Queue, k: nat, call: Attempt, left: seq<Message>)
    requires Valid(c, s) && IsCall(c, s, k, call, left)
    ensures Ordered(AfterCall(s, k, call, left))
  {
    var t := AfterCall(s, k, call, left);
    Positions(s.messages, k, left);
    forall i | 0 <= i < |t.messages|
      ensures t.messages[i].attempts == Failures(t, t.messages[i].id)
    {
      CountOneMore(s.log, call, t.messages[i].id, false);
    }
  }

  lemma CalledMessage(c: Config, s: Queue, k: nat, call: Attempt, left: seq<Message>)
    requires Valid(c, s) && IsCall(c, s, k, call, left)
    ensures Valid(c, AfterCall(s, k, call, left))
  {
    CallKeepsOrder(c, s, k, call, left);
    forall id ensures FateKnown(c, AfterCall(s, k, call, left), id) {
      CallKeepsFate(c, s, k, call, left, id);
    }
  }

  // Where the messages are after the turn of the k-th.
  lemma Positions(q: seq<Message>, k: nat, left: seq<Message>)
    requires k < |q| && |left| <= 1
    ensures var r := q[..k] + left + q[k + 1..];
            && |r| == |q| - 1 + |left|
            && forall i :: 0 <= i < |r| ==>
                 r[i] == if i < k then q[i] else if i < k + |left| then left[0] else q[i + 1 - |left|]
  {
  }

  lemma {:induction false} IdsAfterTurn(q: seq<Message>, k: nat, left: seq<Message>, id: nat)
    requires k < |q| && |left| <= 1 && (left != [] ==> left[0].id == q[k].id)
    requires HasId(q, id) && (left != [] || id != q[k].id)
    ensures HasId(q[..k] + left + q[k + 1..], id)
  {
    var i :| 0 <= i < |q| && q[i].id == id;
    var j := if i <= k then i else i - 1 + |left|;
    Positions(q, k, left);
    assert (q[..k] + left + q[k + 1..])[j].id == id;
  }

  lemma {:induction false} IdsBeforeTurn(q: seq<Message>, k: nat, left: seq<Message>, id: nat)
    requires k < |q| && |left| <= 1 && (left != [] ==> left[0].id == q[k].id)
    requires forall i, j :: 0 <= i < j < |q| ==> q[i].id < q[j].id
    requires HasId(q[..k] + left + q[k + 1..], id)
    ensures HasId(q, id) && (left != [] || id != q[k].id)
  {
    var r := q[..k] + left + q[k + 1..];
    var j :| 0 <= j < |r| && r[j].id == id;
    var i := if j < k + |left| then j else j + 1 - |left|;
    Positions(q, k, left);
    assert q[i].id == id;
  }

  lemma {:induction false} StillQueued(q: seq<Message>, k: nat, left: seq<Message>, id: nat)
    requires k < |q| && |left| <= 1 && (left != [] ==> left[0].id == q[k].id)
    requires forall i, j :: 0 <= i < j < |q| ==> q[i].id < q[j].id
    ensures HasId(q[..k] + left + q[k + 1..], id) <==> HasId(q, id) && (left != [] || id != q[k].id)
  {
    if HasId(q, id) && (left != [] || id != q[k].id) { IdsAfterTurn(q, k, left, id); }
    if HasId(q[..k] + left + q[k + 1..], id) { IdsBeforeTurn(q, k, left, id); }
  }

  // A pass advances by the turn of the next message, which stands right behind the survivors.
  lemma MidwayTurn(c: Config, s: Queue, now: int, calls: map<nat, Call>, n: nat) returns (mid: Queue, k: nat)
    requires 0 < n <= |s.messages|
    ensures mid == Midway(c, s, now, calls, n - 1) && k < |mid.messages|
    ensures Midway(c, s, now, calls, n) == AfterTurn(c, mid, k, now, calls)
  {
    mid := Midway(c, s, now, calls, n - 1);
    var done := Pass(c, s, now, calls, n - 1);
    k := |done.messages|;
    assert mid.messages[k] == s.messages[n - 1];
    assert mid.messages[..k] == done.messages && mid.messages[k + 1..] == s.messages[n..];
  }

  lemma {:induction false} PassKeepsValid(c: Config, s: Queue, now: int, calls: map<nat, Call>, n: nat)
    requires Valid(c, s) && n <= |s.messages|
    ensures Valid(c, Midway(c, s, now, calls, n))
  {
    if n == 0 {
      assert Midway(c, s, now, calls, 0) == s;
    } else {
      PassKeepsValid(c, s, now, calls, n - 1);
      var mid, k := MidwayTurn(c, s, now, calls, n);
      TurnKeepsValid(c, mid, k, now, calls);
    }
  }

  lemma {:induction false} EnqueueKeepsValid(c: Config, s: Queue, text: string, now: int)
    requires Valid(c, s)
    ensures Valid(c, Apply(c, s, Enqueue(text, now)))
  {
    var t := Apply(c, s, Enqueue(text, now));
    forall id ensures FateKnown(c, t, id) {
      assert FateKnown(c, s, id);
      if IsQueued(s, id) {
        var i :| 0 <= i < |s.messages| && s.messages[i].id == id;
        assert t.messages[i].id == id;
      }
      assert t.messages[|s.messages|].id == s.arrived;
    }
    forall i | 0 <= i < |s.messages| ensures s.messages[i].id < s.arrived {
      assert FateKnown(c, s, s.messages[i].id);
    }
    assert FateKnown(c, s, s.arrived);
  }

  // Over every run, each message is in exactly one fate, survivors keep their order of arrival, and a
  // queued message's attempts are its failures so far.
  lemma {:induction false} EveryMessageHasOneFate(c: Config, h: Trace<Event>)
    ensures Valid(c, Run(c, h))
  {
    if h.Then? {
      EveryMessageHasOneFate(c, h.past);
      var s := Run(c, h.past);
      match h.last
      case Enqueue(text, now) => EnqueueKeepsValid(c, s, text, now);
      case Process(now, calls) =>
        PassKeepsValid(c, s, now, calls, |s.messages|);
        assert Midway(c, s, now, calls, |s.messages|) == Apply(c, s, h.last);
    }
  }

  // A message that has left the queue undelivered has failed exactly maxRetries times, given that
  // maxRetries is at least one; otherwise it has failed once.
  lemma DroppedAfterMaxRetries(c: Config, h: Trace<Event>, id: nat)
    requires id < Run(c, h).arrived && !IsQueued(Run(c, h), id) && Deliveries(Run(c, h), id) == 0
    ensures Failures(Run(c, h), id) == c.maxRetries <==> 1 <= c.maxRetries
    ensures c.maxRetries < 1 ==> Failures(Run(c, h), id) == 1
  {
    EveryMessageHasOneFate(c, h);
    assert FateKnown(c, Run(c, h), id);
  }

  /* ------------------------------------------------------------- spacing of attempts */

  // Two calls for one message: only the later can be the delivery, and the passes of consecutive ones
  // start at least the backoff apart.
  ghost predicate Apart(c: Config, earlier: Attempt, later: Attempt) {
    && 0 < earlier.number < later.number && !earlier.ok
    && (later.number == earlier.number + 1 ==> later.passStart >= earlier.passStart + Delay(c, earlier.number))
  }

  ghost predicate LogSpaced(c: Config, log: seq<Attempt>) {
    forall i, j :: 0 <= i < j < |log| && log[i].id == log[j].id ==> Apart(c, log[i], log[j])
  }

  // A waiting message was not delivered, and is not due before the backoff of its last attempt.
  ghost predicate Waits(c: Config, log: seq<Attempt>, m: Message) {
    forall i :: 0 <= i < |log| && log[i].id == m.id ==>
      && 0 < log[i].number <= m.attempts && !log[i].ok
      && (log[i].number == m.attempts ==> m.nextRetry == log[i].passStart + Delay(c, log[i].number))
  }

  ghost predicate Spaced(c: Config, s: Queue) {
    && LogSpaced(c, s.log)
    && (forall k :: 0 <= k < |s.messages| ==> Waits(c, s.log, s.messages[k]))
  }

  lemma CallKeepsLogSpaced(c: Config, log: seq<Attempt>, m: Message, call: Attempt)
    requires LogSpaced(c, log) && Waits(c, log, m)
    requires call.id == m.id && call.number == m.attempts + 1 && m.nextRetry <= call.passStart
    ensures LogSpaced(c, log + [call])
  {
    var all := log + [call];
    forall i, j | 0 <= i < j < |all| && all[i].id == all[j].id ensures Apart(c, all[i], all[j]) {
      assert all[i] == log[i];
    }
  }

  lemma CallKeepsOthersWaiting(c: Config, log: seq<Attempt>, m: Message, call: Attempt)
    requires Waits(c, log, m) && call.id != m.id
    ensures Waits(c, log + [call], m)
  {
  }

  lemma RetryWaits(c: Config, log: seq<Attempt>, m: Message, call: Attempt)
    requires Waits(c, log, m) && call == Attempt(m.id, m.attempts + 1, call.passStart, call.at, false)
    ensures Waits(c, log + [call], m.(attempts := m.attempts + 1, nextRetry := call.passStart + Delay(c, m.attempts + 1)))
  {
  }

  lemma RestWaits(c: Config, log: seq<Attempt>, q: seq<Message>, k: nat, left: seq<Message>)
    requires k < |q| && |left| <= 1 && (left != [] ==> Waits(c, log, left[0]))
    requires forall o :: 0 <= o < |q| && o != k ==> Waits(c, log, q[o])
    ensures var rest := q[..k] + left + q[k + 1..]; forall i :: 0 <= i < |rest| ==> Waits(c, log, rest[i])
  {
    Positions(q, k, left);
  }

  lemma {:induction false} TurnKeepsSpaced(c: Config, s: Queue, k: nat, now: int, calls: map<nat, Call>)
    requires Spaced(c, s) && Ordered(s) && k < |s.messages|
    ensures Spaced(c, AfterTurn(c, s, k, now, calls))
  {
    var m := s.messages[k];
    if Ready(m, now) {
      var call := Made(m, now, CallOf(calls, m.id, now));
      CallKeepsLogSpaced(c, s.log, m, call);
      if !call.ok { RetryWaits(c, s.log, m, call); }
      forall o | 0 <= o < |s.messages| && o != k ensures Waits(c, s.log + [call], s.messages[o]) {
        CallKeepsOthersWaiting(c, s.log, s.messages[o], call);
      }
      RestWaits(c, s.log + [call], s.messages, k, Turn(c, m, now, calls));
    } else {
      assert s.log + [] == s.log;
      RestWaits(c, s.log, s.messages, k, [m]);
    }
  }

  lemma {:induction false} PassKeepsSpaced(c: Config, s: Queue, now: int, calls: map<nat, Call>, n: nat)
    requires Spaced(c, s) && Valid(c, s) && n <= |s.messages|
    ensures Spaced(c, Midway(c, s, now, calls, n))
  {
    if n == 0 {
      assert Midway(c, s, now, calls, 0) == s;
    } else {
      PassKeepsSpaced(c, s, now, calls, n - 1);
      var mid, k := MidwayTurn(c, s, now, calls, n);
      assert Ordered(mid) by { PassKeepsValid(c, s, now, calls, n - 1); }
      TurnKeepsSpaced(c, mid, k, now, calls);
    }
  }

  lemma {:induction false} AttemptsAreSpaced(c: Config, h: Trace<Event>)
    ensures Spaced(c, Run(c, h))
  {
    if h.Then? {
      AttemptsAreSpaced(c, h.past);
      EveryMessageHasOneFate(c, h.past);
      var s := Run(c, h.past);
      match h.last
      case Enqueue(text, now) => NewMessageWaits(c, s, Message(s.arrived, text, 0, now));
      case Process(now, calls) =>
        PassKeepsSpaced(c, s, now, calls, |s.messages|);
        assert Midway(c, s, now, calls, |s.messages|) == Apply(c, s, h.last);
    }
  }

  lemma NewMessageWaits(c: Config, s: Queue, m: Message)
    requires Valid(c, s) && m.id == s.arrived
    ensures Waits(c, s.log, m)
  {
    forall i | 0 <= i < |s.log| ensures s.log[i].id != s.arrived {
      assert FateKnown(c, s, s.arrived);
      CountPositive(s.log, i, |s.log|);
    }
  }

  lemma {:induction false} CountPositive(log: seq<Attempt>, i: nat, n: nat)
    requires i < n <= |log|
    ensures Count(log, log[i].id, log[i].ok, n) > 0
  {
    if i < n - 1 { CountPositive(log, i, n - 1); }
  }

  /* ------------------------------------------------------------- when a message is due */

  // The event with which a message arrived.
  function Arrival(c: Config, h: Trace<Event>, id: nat): Option<Event> {
    if h.Begin? then None
    else if h.last.Enqueue? && Run(c, h.past).arrived == id then Some(h.last)
    else Arrival(c, h.past, id)
  }

  // The last call made for a message.
  function LastFor(log: seq<Attempt>, id: nat): Option<Attempt> {
    if log == [] then None
    else if log[|log| - 1].id == id then Some(log[|log| - 1])
    else LastFor(log[..|log| - 1], id)
  }

  lemma LastForPush(log: seq<Attempt>, a: Attempt, id: nat)
    ensures LastFor(log + [a], id) == if a.id == id then Some(a) else LastFor(log, id)
  {
    assert (log + [a])[..|log|] == log;
  }

  // A message that was never called is due since it arrived, another when the backoff of its last call
  // has passed since the pass of that call began.
  function Due(c: Config, arrival: int, last: Option<Attempt>): int {
    if last.None? then arrival
    else if last.value.number == 0 then last.value.passStart
    else last.value.passStart + Delay(c, last.value.number)
  }

  // The message is as it arrived, and due then.
  ghost predicate Tracked(c: Config, log: seq<Attempt>, m: Message, arrival: Option<Event>) {
    && arrival.Some? && arrival.value.Enqueue? && m.text == arrival.value.text
    && m.nextRetry == Due(c, arrival.value.now, LastFor(log, m.id))
    && m.attempts == (if LastFor(log, m.id).None? then 0 else LastFor(log, m.id).value.number)
  }

  ghost predicate AllTracked(c: Config, s: Queue, h: Trace<Event>) {
    forall k :: 0 <= k < |s.messages| ==> Tracked(c, s.log, s.messages[k], Arrival(c, h, s.messages[k].id))
  }

  lemma RestTracked(c: Config, log: seq<Attempt>, q: seq<Message>, k: nat, left: seq<Message>, h: Trace<Event>)
    requires k < |q| && |left| <= 1 && (left != [] ==> Tracked(c, log, left[0], Arrival(c, h, left[0].id)))
    requires forall o :: 0 <= o < |q| && o != k ==> Tracked(c, log, q[o], Arrival(c, h, q[o].id))
    ensures var rest := q[..k] + left + q[k + 1..];
            forall i :: 0 <= i < |rest| ==> Tracked(c, log, rest[i], Arrival(c, h, rest[i].id))
  {
    Positions(q, k, left);
  }

  lemma TurnKeepsTracked(c: Config, s: Queue, k: nat, now: int, calls: map<nat, Call>, h: Trace<Event>)
    requires AllTracked(c, s, h) && Ordered(s) && k < |s.messages|
    ensures AllTracked(c, AfterTurn(c, s, k, now, calls), h)
  {
    var m := s.messages[k];
    if Ready(m, now) {
      var call := Made(m, now, CallOf(calls, m.id, now));
      forall o | 0 <= o < |s.messages|
        ensures LastFor(s.log + [call], s.messages[o].id) == if o == k then Some(call) else LastFor(s.log, s.messages[o].id)
      {
        LastForPush(s.log, call, s.messages[o].id);
      }
      RestTracked(c, s.log + [call], s.messages, k, Turn(c, m, now, calls), h);
    } else {
      assert s.log + [] == s.log;
      RestTracked(c, s.log, s.messages, k, [m], h);
    }
  }

  lemma {:induction false} PassKeepsTracked(c: Config, s: Queue, now: int, calls: map<nat, Call>, n: nat, h: Trace<Event>)
    requires AllTracked(c, s, h) && Valid(c, s) && n <= |s.messages|
    ensures AllTracked(c, Midway(c, s, now, calls, n), h)
  {
    if n == 0 {
      assert Midway(c, s, now, calls, 0) == s;
    } else {
      PassKeepsTracked(c, s, now, calls, n - 1, h);
      var mid, k := MidwayTurn(c, s, now, calls, n);
      assert Ordered(mid) by { PassKeepsValid(c, s, now, calls, n - 1); }
      TurnKeepsTracked(c, mid, k, now, calls, h);
    }
  }

  lemma {:induction false} NeverCalled(log: seq<Attempt>, id: nat)
    requires Count(log, id, true, |log|) + Count(log, id, false, |log|) == 0
    ensures LastFor(log, id).None?
  {
    if log != [] {
      var n := |log| - 1;
      CountAppend(log[..n], [log[n]], id, true, n);
      CountAppend(log[..n], [log[n]], id, false, n);
      assert log == log[..n] + [log[n]];
      NeverCalled(log[..n], id);
    }
  }

  lemma NewIsTracked(c: Config, h: Trace<Event>)
    requires h.Then? && h.last.Enqueue? && Valid(c, Run(c, h.past)) && AllTracked(c, Run(c, h.past), h.past)
    ensures AllTracked(c, Run(c, h), h)
  {
    var s := Run(c, h.past);
    assert FateKnown(c, s, s.arrived);
    NeverCalled(s.log, s.arrived);
    forall k | 0 <= k < |s.messages|
      ensures s.messages[k].id < s.arrived
    {
      assert FateKnown(c, s, s.messages[k].id);
    }
  }

  // Over every run, each waiting message has the text it arrived with, the number of calls made for it,
  // and is due exactly at that time.
  lemma {:induction false} WaitingAreTracked(c: Config, h: Trace<Event>)
    ensures AllTracked(c, Run(c, h), h)
  {
    if h.Then? {
      WaitingAreTracked(c, h.past);
      EveryMessageHasOneFate(c, h.past);
      var s := Run(c, h.past);
      if h.last.Enqueue? {
        NewIsTracked(c, h);
      } else {
        assert AllTracked(c, s, h);
        PassKeepsTracked(c, s, h.last.now, h.last.calls, |s.messages|, h);
        assert Midway(c, s, h.last.now, h.last.calls, |s.messages|) == Run(c, h);
      }
    }
  }

  // The calls that a pass adds are those of the messages that were due.
  lemma {:induction false} CalledWereReady(c: Config, s: Queue, now: int, calls: map<nat, Call>, n: nat, i: nat)
    requires n <= |s.messages| && |s.log| <= i < |Pass(c, s, now, calls, n).log|
    ensures exists k :: 0 <= k < n && Ready(s.messages[k], now)
                        && Pass(c, s, now, calls, n).log[i] == Made(s.messages[k], now, CallOf(calls, s.messages[k].id, now))
  {
    if n != 0 && i < |Pass(c, s, now, calls, n - 1).log| { CalledWereReady(c, s, now, calls, n - 1, i); }
  }

  // There is a call for the message in the log, at index n or later.
  ghost predicate CalledSince(log: seq<Attempt>, n: nat, id: nat) {
    exists i :: n <= i < |log| && log[i].id == id
  }

  lemma CalledSincePush(log: seq<Attempt>, a: Attempt, n: nat, id: nat)
    requires n <= |log|
    ensures CalledSince(log + [a], n, id) <==> CalledSince(log, n, id) || a.id == id
  {
    var all := log + [a];
    assert all[|log|] == a && forall i :: n <= i < |log| ==> all[i] == log[i];
  }

  lemma {:induction false} ReadyIsCalledLate(c: Config, s: Queue, now: int, calls: map<nat, Call>, n: nat, k: nat)
    requires k < n <= |s.messages| && Ready(s.messages[k], now)
    ensures CalledSince(Pass(c, s, now, calls, n).log, |s.log|, s.messages[k].id)
  {
    var before, m := Pass(c, s, now, calls, n - 1).log, s.messages[n - 1];
    PassExtendsLog(c, s, now, calls, n - 1);
    if k < n - 1 {
      ReadyIsCalledLate(c, s, now, calls, n - 1, k);
    }
    if Ready(m, now) {
      CalledSincePush(before, Made(m, now, CallOf(calls, m.id, now)), |s.log|, s.messages[k].id);
    } else {
      assert before + [] == before;
    }
  }

  // The pass calls the sender for this message.
  ghost predicate CalledBy(c: Config, s: Queue, now: int, calls: map<nat, Call>, id: nat) {
    CalledSince(Apply(c, s, Process(now, calls)).log, |s.log|, id)
  }

  lemma CalledIffReady(c: Config, s: Queue, now: int, calls: map<nat, Call>, k: nat)
    requires Valid(c, s) && k < |s.messages|
    ensures CalledBy(c, s, now, calls, s.messages[k].id) <==> Ready(s.messages[k], now)
  {
    var n, log := |s.messages|, Pass(c, s, now, calls, |s.messages|).log;
    if Ready(s.messages[k], now) {
      ReadyIsCalledLate(c, s, now, calls, n, k);
    } else if i :| |s.log| <= i < |log| && log[i].id == s.messages[k].id {
      CalledWereReady(c, s, now, calls, n, i);
    }
  }

  // After any run the next pass calls the sender for a waiting message exactly when it starts no earlier
  // than the message arrived and, if it has failed before, than its backoff allows: neither early nor late.
  lemma CalledIffDue(c: Config, h: Trace<Event>, now: int, calls: map<nat, Call>, k: nat)
    requires k < |Run(c, h).messages|
    ensures var s, id := Run(c, h), Run(c, h).messages[k].id;
            && Arrival(c, h, id).Some?
            && (CalledBy(c, s, now, calls, id) <==> now >= Due(c, Arrival(c, h, id).value.now, LastFor(s.log, id)))
  {
    WaitingAreTracked(c, h);
    EveryMessageHasOneFate(c, h);
    CalledIffReady(c, Run(c, h), now, calls, k);
    assert Tracked(c, Run(c, h).log, Run(c, h).messages[k], Arrival(c, h, Run(c, h).messages[k].id));
  }

  /* ------------------------------------------------------------------ times of calls */

  // The last moment that the run has come to, counted from its beginning.
  function Clock(c: Config, h: Trace<Event>): int {
    match h
    case Begin => 0
    case Then(_, Enqueue(_, now)) => now
    case Then(past, Process(now, _)) =>
      var log := Run(c, h).log;
      if |Run(c, past).log| < |log| then log[|log| - 1].at else now
  }

  // The calls from index n on come one after the other, from `now` on.
  ghost predicate InTime(log: seq<Attempt>, n: nat, now: int) {
    && (forall i :: n <= i < |log| ==> now <= log[i].at)
    && (forall i, j :: n <= i <= j < |log| ==> log[i].at <= log[j].at)
  }

  // Time does not go back: not within a pass, and not from one event to the next, since the queue is
  // locked throughout a pass.
  ghost predicate WellTimed(c: Config, h: Trace<Event>) {
    match h
    case Begin => true
    case Then(past, Enqueue(_, now)) => WellTimed(c, past) && Clock(c, past) <= now
    case Then(past, Process(now, _)) =>
      WellTimed(c, past) && Clock(c, past) <= now && InTime(Run(c, h).log, |Run(c, past).log|, now)
  }

  lemma {:induction false} PassExtendsLog(c: Config, s: Queue, now: int, calls: map<nat, Call>, n: nat)
    requires n <= |s.messages|
    ensures var log := Pass(c, s, now, calls, n).log;
            && |s.log| <= |log| && log[..|s.log|] == s.log
            && forall i :: |s.log| <= i < |log| ==> log[i].passStart == now && (calls == map[] ==> log[i].at == now)
  {
    if n != 0 { PassExtendsLog(c, s, now, calls, n - 1); }
  }

  // An event leaves the calls made before it as they are.
  lemma LogExtends(c: Config, h: Trace<Event>)
    requires h.Then?
    ensures var before, after := Run(c, h.past).log, Run(c, h).log;
            && |before| <= |after| && after[..|before|] == before
            && (forall i :: |before| <= i < |after| ==> h.last.Process? && after[i].passStart == h.last.now)
  {
    if h.last.Process? {
      PassExtendsLog(c, Run(c, h.past), h.last.now, h.last.calls, |Run(c, h.past).messages|);
    }
  }

  // Calls are made in the order of the log, none before its pass, and none after the clock.
  lemma {:induction false} CallsAreInTime(c: Config, h: Trace<Event>)
    requires WellTimed(c, h)
    ensures var log := Run(c, h).log;
            && (forall i :: 0 <= i < |log| ==> log[i].passStart <= log[i].at <= Clock(c, h))
            && (forall i, j :: 0 <= i <= j < |log| ==> log[i].at <= log[j].at)
  {
    if h.Then? {
      CallsAreInTime(c, h.past);
      LogExtends(c, h);
      OneEventInTime(Run(c, h.past).log, Run(c, h).log, Clock(c, h.past), h.last.now, Clock(c, h));
    }
  }

  lemma OneEventInTime(before: seq<Attempt>, after: seq<Attempt>, last: int, now: int, clock: int)
    requires |before| <= |after| && after[..|before|] == before && last <= now
    requires forall i :: 0 <= i < |before| ==> before[i].passStart <= before[i].at <= last
    requires forall i, j :: 0 <= i <= j < |before| ==> before[i].at <= before[j].at
    requires forall i :: |before| <= i < |after| ==> after[i].passStart == now
    requires InTime(after, |before|, now)
    requires clock == if |before| < |after| then after[|after| - 1].at else now
    ensures forall i :: 0 <= i < |after| ==> after[i].passStart <= after[i].at <= clock
    ensures forall i, j :: 0 <= i <= j < |after| ==> after[i].at <= after[j].at
  {
    assert forall i :: 0 <= i < |before| ==> after[i] == before[i];
  }

  // Consecutive calls for a message are the backoff apart, less the time that its pass had already
  // taken when the first of them was made.
  lemma CallsAreSpaced(c: Config, h: Trace<Event>, i: nat, j: nat)
    requires WellTimed(c, h) && i < j < |Run(c, h).log|
    requires Run(c, h).log[i].id == Run(c, h).log[j].id && Run(c, h).log[j].number == Run(c, h).log[i].number + 1
    ensures var earlier, later := Run(c, h).log[i], Run(c, h).log[j];
            && 0 < earlier.number && !earlier.ok
            && later.at >= earlier.at + Delay(c, earlier.number) - (earlier.at - earlier.passStart)
  {
    AttemptsAreSpaced(c, h);
    CallsAreInTime(c, h);
    assert Apart(c, Run(c, h).log[i], Run(c, h).log[j]);
  }

  ghost predicate Continues(g: Trace<Event>, h: Trace<Event>) {
    g == h || (g.Then? && Continues(g.past, h))
  }

  // What a continuation adds to the log is not called before it begins.
  lemma {:induction false} LaterCalls(c: Config, h: Trace<Event>, g: Trace<Event>)
    requires WellTimed(c, g) && Continues(g, h)
    ensures var before, after := Run(c, h).log, Run(c, g).log;
            && |before| <= |after| && after[..|before|] == before
            && (forall j :: |before| <= j < |after| ==> Clock(c, h) <= after[j].at)
            && Clock(c, h) <= Clock(c, g)
  {
    if g != h {
      LaterCalls(c, h, g.past);
      LogExtends(c, g);
      MoreCallsLater(Run(c, h).log, Run(c, g.past).log, Run(c, g).log, Clock(c, h), g.last.now);
    }
  }

  lemma MoreCallsLater(a: seq<Attempt>, b: seq<Attempt>, d: seq<Attempt>, clock: int, now: int)
    requires |a| <= |b| <= |d| && b[..|a|] == a && d[..|b|] == b && clock <= now && InTime(d, |b|, now)
    requires forall j :: |a| <= j < |b| ==> clock <= b[j].at
    ensures d[..|a|] == a && forall j :: |a| <= j < |d| ==> clock <= d[j].at
  {
    assert forall j :: 0 <= j < |b| ==> d[j] == b[j];
    assert forall j :: 0 <= j < |a| ==> b[j] == a[j];
  }

  // The next call for the message keeps the backoff of this one.
  ghost predicate BackoffHolds(c: Config, g: Trace<Event>, e: Attempt)
    requires 0 < e.number
  {
    forall a :: a in Run(c, g).log && a.id == e.id && a.number == e.number + 1 ==> a.at >= e.at + Delay(c, e.number)
  }

  // Call i is the last one made for the waiting message k.
  ghost predicate LastCall(s: Queue, i: nat, k: nat) {
    i < |s.log| && k < |s.messages| && s.log[i].id == s.messages[k].id && s.log[i].number == s.messages[k].attempts
  }

  lemma LastCallWaits(c: Config, h: Trace<Event>, i: nat, k: nat)
    requires LastCall(Run(c, h), i, k)
    ensures var e, m := Run(c, h).log[i], Run(c, h).messages[k];
            && 0 < e.number && m.nextRetry == e.passStart + Delay(c, e.number)
            && (forall j :: 0 <= j < |Run(c, h).log| && Run(c, h).log[j].id == m.id ==> Run(c, h).log[j].number <= m.attempts)
  {
    AttemptsAreSpaced(c, h);
    assert Waits(c, Run(c, h).log, Run(c, h).messages[k]);
  }

  lemma BackoffKept(c: Config, h: Trace<Event>, i: nat, k: nat, g: Trace<Event>)
    requires LastCall(Run(c, h), i, k) && WellTimed(c, g) && Continues(g, h)
    requires 0 < Run(c, h).log[i].number
    requires var e := Run(c, h).log[i]; e.at == e.passStart || Clock(c, h) >= e.at + Delay(c, e.number)
    ensures BackoffHolds(c, g, Run(c, h).log[i])
  {
    var e, log := Run(c, h).log[i], Run(c, g).log;
    LastCallWaits(c, h, i, k);
    LaterCalls(c, h, g);
    assert log[i] == e;
    assert forall j :: 0 <= j < |Run(c, h).log| ==> log[j] == Run(c, h).log[j];
    assert forall j :: 0 <= j < |Run(c, h).log| && log[j].id == e.id ==> log[j].number <= e.number;
    forall a | a in log && a.id == e.id && a.number == e.number + 1
      ensures a.at >= e.at + Delay(c, e.number)
    {
      var j :| 0 <= j < |log| && log[j] == a;
      if e.at == e.passStart {
        CallsAreSpaced(c, g, i, j);
      }
    }
  }

  lemma {:induction false} ReadyIsCalled(c: Config, s: Queue, now: int, calls: map<nat, Call>, n: nat, k: nat)
    requires k < n <= |s.messages| && Ready(s.messages[k], now)
    ensures Made(s.messages[k], now, CallOf(calls, s.messages[k].id, now)) in Pass(c, s, now, calls, n).log
  {
    if k < n - 1 { ReadyIsCalled(c, s, now, calls, n - 1, k); }
  }

  // The next pass that finds the message due, as early as it can be, with a sender that takes no time.
  lemma EarliestRetry(c: Config, h: Trace<Event>, i: nat, k: nat) returns (g: Trace<Event>, a: Attempt)
    requires LastCall(Run(c, h), i, k) && WellTimed(c, h)
    ensures Continues(g, h) && WellTimed(c, g) && a in Run(c, g).log
    ensures var e := Run(c, h).log[i];
            && 0 < e.number && a.id == e.id && a.number == e.number + 1
            && a.at == if e.passStart + Delay(c, e.number) > Clock(c, h) then e.passStart + Delay(c, e.number) else Clock(c, h)
  {
    var s, m := Run(c, h), Run(c, h).messages[k];
    LastCallWaits(c, h, i, k);
    var now := if m.nextRetry > Clock(c, h) then m.nextRetry else Clock(c, h);
    g := Then(h, Process(now, map[]));
    a := Made(m, now, Call(now, false));
    PassExtendsLog(c, s, now, map[], |s.messages|);
    ReadyIsCalled(c, s, now, map[], |s.messages|, k);
    assert Continues(g.past, h);
  }

  // The backoff of a waiting message's last call holds in every continuation exactly when that call was
  // made as its pass started, or has been outlasted already by the calls behind it.
  lemma BackoffHoldsIff(c: Config, h: Trace<Event>, i: nat, k: nat)
    requires LastCall(Run(c, h), i, k) && WellTimed(c, h) && 0 < Run(c, h).log[i].number
    ensures var e := Run(c, h).log[i];
            (forall g :: Continues(g, h) && WellTimed(c, g) ==> BackoffHolds(c, g, e)) <==>
              e.at == e.passStart || Clock(c, h) >= e.at + Delay(c, e.number)
  {
    var e := Run(c, h).log[i];
    if e.at == e.passStart || Clock(c, h) >= e.at + Delay(c, e.number) {
      forall g | Continues(g, h) && WellTimed(c, g)
        ensures BackoffHolds(c, g, e)
      {
        BackoffKept(c, h, i, k, g);
      }
    } else {
      CallsAreInTime(c, h);
      var g, a := EarliestRetry(c, h, i, k);
      assert !BackoffHolds(c, g, e);
    }
  }

  // Two messages are due with a base delay of a second; the first call takes two seconds and succeeds,
  // then the second fails, and is repeated in any pass that starts within its backoff.
  function SlowPass(): Trace<Event> {
    Then(Then(Then(Begin, Enqueue("a", 0)), Enqueue("b", 0)),
         Process(0, map[0 := Call(2_000_000_000, true), 1 := Call(2_000_000_000, false)]))
  }

  function AfterSlowPass(): Queue {
    Queue([Message(1, "b", 1, 1_000_000_000)], 2,
          [Attempt(0, 1, 0, 2_000_000_000, true), Attempt(1, 1, 0, 2_000_000_000, false)])
  }

  function BeforeSlowPass(): Queue {
    Queue([Message(0, "a", 0, 0), Message(1, "b", 0, 0)], 2, [])
  }

  lemma TwoMessagesWait(c: Config)
    ensures var h := SlowPass().past; Run(c, h) == BeforeSlowPass() && WellTimed(c, h) && Clock(c, h) == 0
  {
    var h := SlowPass().past;
    assert Run(c, h.past.past) == Initial();
    assert Run(c, h.past) == Queue([Message(0, "a", 0, 0)], 1, []);
    assert WellTimed(c, h.past.past) && WellTimed(c, h.past);
  }

  lemma SlowPassCalls(c: Config)
    requires c.maxRetries == 3 && Delay(c, 1) == 1_000_000_000
    ensures Pass(c, BeforeSlowPass(), 0, SlowPass().last.calls, 2) == AfterSlowPass()
  {
    var s, calls := BeforeSlowPass(), SlowPass().last.calls;
    assert Pass(c, s, 0, calls, 0) == Queue([], 2, []);
    assert CallOf(calls, 0, 0) == Call(2_000_000_000, true);
    assert Pass(c, s, 0, calls, 1) == Queue([], 2, [Attempt(0, 1, 0, 2_000_000_000, true)]);
    assert CallOf(calls, 1, 0) == Call(2_000_000_000, false);
  }

  lemma SlowPassRuns(c: Config)
    requires c.maxRetries == 3 && Delay(c, 1) == 1_000_000_000
    ensures Run(c, SlowPass()) == AfterSlowPass() && WellTimed(c, SlowPass()) && Clock(c, SlowPass()) == 2_000_000_000
  {
    TwoMessagesWait(c);
    SlowPassCalls(c);
    assert Run(c, SlowPass()) == Apply(c, BeforeSlowPass(), SlowPass().last);
    assert InTime(AfterSlowPass().log, 0, 0);
  }

  lemma RetryIsCalled(c: Config, now: int)
    requires 1_000_000_000 <= now
    ensures Pass(c, AfterSlowPass(), now, map[], 1).log == AfterSlowPass().log + [Attempt(1, 2, now, now, false)]
  {
    assert Pass(c, AfterSlowPass(), now, map[], 0) == AfterSlowPass().(messages := []);
  }

  lemma RetryRuns(c: Config, now: int)
    requires c.maxRetries == 3 && Delay(c, 1) == 1_000_000_000 && 2_000_000_000 <= now
    ensures var h := Then(SlowPass(), Process(now, map[]));
            Run(c, h).log == AfterSlowPass().log + [Attempt(1, 2, now, now, false)] && WellTimed(c, h)
  {
    var h := Then(SlowPass(), Process(now, map[]));
    SlowPassRuns(c);
    RetryIsCalled(c, now);
    assert Run(c, h) == Pass(c, AfterSlowPass(), now, map[], 1);
    assert InTime(AfterSlowPass().log + [Attempt(1, 2, now, now, false)], 2, now);
  }

  lemma SlowSenderBreaksBackoff(c: Config, now: int)
    requires c == Config(3, 1_000_000_000) && 2_000_000_000 <= now < 3_000_000_000
    ensures var h := Then(SlowPass(), Process(now, map[]));
            && WellTimed(c, h) && |Run(c, h).log| == 3
            && Run(c, h).log[1] == Attempt(1, 1, 0, 2_000_000_000, false)
            && Run(c, h).log[2] == Attempt(1, 2, now, now, false)
            && now < Run(c, h).log[1].at + Delay(c, 1)
  {
    assert Pow2(0) == 1;
    RetryRuns(c, now);
  }

  /* -------------------------------------------------------------------- termination */

  // The sends that the first n waiting messages can still cause.
  function Budget(c: Config, q: seq<Message>, n: nat): int
    requires n <= |q|
  {
    if n == 0 then 0 else Budget(c, q, n - 1) + Limit(c) - q[n - 1].attempts
  }

  lemma {:induction false} BudgetOfAppend(c: Config, q: seq<Message>, more: seq<Message>, n: nat)
    requires n <= |q|
    ensures Budget(c, q + more, n) == Budget(c, q, n)
  {
    if n != 0 { BudgetOfAppend(c, q, more, n - 1); }
  }

  lemma BudgetAfterTurn(c: Config, q: seq<Message>, m: Message, now: int, calls: map<nat, Call>)
    requires m.attempts < Limit(c)
    ensures var t := q + Turn(c, m, now, calls);
            Budget(c, t, |t|) + |Calls(m, now, calls)| <= Budget(c, q, |q|) + Limit(c) - m.attempts
  {
    BudgetOfAppend(c, q, Turn(c, m, now, calls), |q|);
    if Turn(c, m, now, calls) == [] { assert q + [] == q; }
  }

  // Every send of a pass uses up at least one of the sends its message had left.
  lemma {:induction false} PassSpendsBudget(c: Config, s: Queue, now: int, calls: map<nat, Call>, n: nat)
    requires n <= |s.messages| && forall i :: 0 <= i < |s.messages| ==> s.messages[i].attempts < Limit(c)
    ensures var t := Pass(c, s, now, calls, n);
            && |t.log| >= |s.log|
            && Budget(c, t.messages, |t.messages|) + (|t.log| - |s.log|) <= Budget(c, s.messages, n)
  {
    if n != 0 {
      PassSpendsBudget(c, s, now, calls, n - 1);
      BudgetAfterTurn(c, Pass(c, s, now, calls, n - 1).messages, s.messages[n - 1], now, calls);
    }
  }

  // So the sender is never called more than the limit times the number of messages that arrived.
  lemma {:induction false} SendsAreBounded(c: Config, h: Trace<Event>)
    ensures var s := Run(c, h);
            |s.log| + Budget(c, s.messages, |s.messages|) <= Limit(c) * s.arrived
  {
    if h.Then? {
      SendsAreBounded(c, h.past);
      var s := Run(c, h.past);
      match h.last
      case Enqueue(text, now) =>
        BudgetOfAppend(c, s.messages, [Message(s.arrived, text, 0, now)], |s.messages|);
        assert Limit(c) * (s.arrived + 1) == Limit(c) * s.arrived + Limit(c);
      case Process(now, calls) =>
        EveryMessageHasOneFate(c, h.past);
        forall i | 0 <= i < |s.messages| ensures s.messages[i].attempts < Limit(c) {
          assert FateKnown(c, s, s.messages[i].id);
        }
        PassSpendsBudget(c, s, now, calls, |s.messages|);
    }
  }

  /* ---------------------------------------------------------------------- the queue */

  class MessageQueue {
    const config: Config
    var queue: seq<Message>
    var arrived: nat
    var log: seq<Attempt>

    ghost function State(): Queue
      reads this
    {
      Queue(queue, arrived, log)
    }

    constructor (maxRetries: int, baseDelay: int)
      ensures config == Config(maxRetries, baseDelay) && State() == Initial()
    {
      config := Config(maxRetries, baseDelay);
      queue, arrived, log := [], 0, [];
    }

    method Enqueue(text: string, now: int)
      modifies this
      ensures State() == Apply(config, old(State()), Event.Enqueue(text, now))
    {
      queue := queue + [Message(arrived, text, 0, now)];
      arrived := arrived + 1;
    }

    // `calls` is what the sender does during the pass.
    method ProcessMessages(now: int, calls: map<nat, Call>)
      modifies this
      ensures State() == Apply(config, old(State()), Process(now, calls))
    {
      if |queue| == 0 {
        return;
      }
      var remaining: seq<Message> := [];
      for i := 0 to |queue|
        invariant queue == old(queue) && arrived == old(arrived)
        invariant Queue(remaining, arrived, log) == Pass(config, old(State()), now, calls, i)
      {
        var msg := queue[i];
        if msg.nextRetry > now {
          remaining := remaining + [msg];
          continue;
        }
        msg := msg.(attempts := msg.attempts + 1);
        var call := CallOf(calls, msg.id, now);
        log := log + [Attempt(msg.id, msg.attempts, now, call.at, call.ok)];
        if call.ok {
          continue;
        }
        if msg.attempts >= config.maxRetries {
          continue;
        }
        msg := msg.(nextRetry := now + Delay(config, msg.attempts));
        remaining := remaining + [msg];
      }
      queue := remaining;
    }
  }
}

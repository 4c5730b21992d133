// The Telegram bot's emergency stop and its confirmed resume.  Commands are handled one at a time;
// publishing to the engine may fail, and a resume must be confirmed within sixty seconds.
module ResumeHandshake {
  import opened Options
  import opened Traces

  // The pending /resume_all: who asked, when, and which of the accepted requests it was.
  datatype Pending = Pending(active: bool, timestamp: int, username: string, request: nat)

  // What the engine was told about all accounts, with the requests that had been made by then, and
  // the request that a resume relies on: checked at one moment and published at a later one.
  datatype Published = StopAll(requestsBefore: nat) | ResumeAll(request: nat, checkedAt: int, publishedAt: int, username: string)

  datatype Request = Request(at: int, username: string)

  datatype Bot = Bot(stopActive: bool, pending: Pending, requests: seq<Request>, published: seq<Published>, resumed: seq<string>)

  // `sent` is the outcome of publishing, `took` the time from the check to it.
  datatype Command =
    | StopAllCommand(sent: bool)
    | ResumeAllCommand(username: string, now: int)
    | ConfirmResume(now: int, took: nat, sent: bool)
    | ResumeOne(account: string, sent: bool)

  const TIMEOUT := 60_000_000_000
  const PUBLISH_TIMEOUT := 500_000_000

  function Initial(): Bot {
    Bot(false, Pending(false, 0, "", 0), [], [], [])
  }

  predicate PendingValid(p: Pending, now: int) {
    p.active && now - p.timestamp <= TIMEOUT
  }

  // A publish has to succeed before its deadline.
  predicate GoesOut(took: nat, sent: bool) {
    sent && took <= PUBLISH_TIMEOUT
  }

  function Handle(b: Bot, c: Command): Bot {
    match c
    case StopAllCommand(sent) =>
      if b.stopActive || !sent then b
      else b.(stopActive := true, published := b.published + [StopAll(|b.requests|)])
    case ResumeAllCommand(username, now) =>
      if !b.stopActive then b
      else b.(pending := Pending(true, now, username, |b.requests|), requests := b.requests + [Request(now, username)])
    case ConfirmResume(now, took, sent) =>
      if !PendingValid(b.pending, now) then b.(pending := b.pending.(active := false)) // an expired request is dropped
      else if !GoesOut(took, sent) then b
      else b.(stopActive := false, pending := b.pending.(active := false),
              published := b.published + [ResumeAll(b.pending.request, now, now + took, b.pending.username)])
    case ResumeOne(account, sent) =>
      if account == "" || !sent then b else b.(resumed := b.resumed + [account])
  }

  function Run(h: Trace<Command>): Bot {
    match h
    case Begin => Initial()
    case Then(past, c) => Handle(Run(past), c)
  }

  /* ---------------------------------------------------------------------- invariant */

  // Stops and resumes alternate, beginning with a stop.
  ghost predicate Alternates(published: seq<Published>) {
    && (published != [] ==> published[0].StopAll?)
    && (forall i, j :: 0 <= i && i + 1 == j < |published| ==> (published[i].StopAll? <==> published[j].ResumeAll?))
  }

  // A resume relies on a request that was made after the stop it ends, was at most 60 seconds old when it
  // was checked, and at most half a second more when the resume was published.
  ghost predicate Backed(requests: seq<Request>, stop: Published, resume: Published) {
    && stop.StopAll? && resume.ResumeAll?
    && stop.requestsBefore <= resume.request < |requests|
    && resume.checkedAt - requests[resume.request].at <= TIMEOUT
    && resume.publishedAt - requests[resume.request].at <= TIMEOUT + PUBLISH_TIMEOUT
    && requests[resume.request].username == resume.username
  }

  ghost predicate AllBacked(b: Bot) {
    forall i, j :: 0 <= i && i + 1 == j < |b.published| && b.published[j].ResumeAll? ==>
      Backed(b.requests, b.published[i], b.published[j])
  }

  // Every request made by the time of a stop is older than the resumes after it.
  ghost predicate StopsSeparate(b: Bot) {
    && (forall i :: 0 <= i < |b.published| && b.published[i].StopAll? ==> b.published[i].requestsBefore <= |b.requests|)
    && (forall i, j :: 0 <= i < j < |b.published| && b.published[i].ResumeAll? && b.published[j].StopAll? ==>
          b.published[i].request < b.published[j].requestsBefore)
  }

  ghost predicate PendingBacked(b: Bot) {
    b.pending.active ==>
      && b.stopActive && b.published != [] && b.published[|b.published| - 1].StopAll?
      && b.published[|b.published| - 1].requestsBefore <= b.pending.request < |b.requests|
      && b.requests[b.pending.request] == Request(b.pending.timestamp, b.pending.username)
  }

  ghost predicate Valid(b: Bot) {
    && Alternates(b.published)
    && (b.stopActive <==> b.published != [] && b.published[|b.published| - 1].StopAll?)
    && PendingBacked(b) && AllBacked(b) && StopsSeparate(b)
  }

  lemma RequestsExist(b: Bot, i: nat)
    requires Valid(b) && i < |b.published| && b.published[i].ResumeAll?
    ensures 0 < i && b.published[i].request < |b.requests|
  {
    if 0 < i {
      var h := i - 1;
      assert Backed(b.requests, b.published[h], b.published[i]);
    }
  }

  lemma StopKeepsValid(b: Bot)
    requires Valid(b) && !b.stopActive
    ensures Valid(b.(stopActive := true, published := b.published + [StopAll(|b.requests|)]))
  {
    var t := b.(stopActive := true, published := b.published + [StopAll(|b.requests|)]);
    forall i, j | 0 <= i < j < |t.published| && t.published[i].ResumeAll? && t.published[j].StopAll?
      ensures t.published[i].request < t.published[j].requestsBefore
    {
      RequestsExist(b, i);
    }
  }

  lemma RequestKeepsValid(b: Bot, r: Request)
    requires Valid(b) && b.stopActive
    ensures Valid(b.(pending := Pending(true, r.at, r.username, |b.requests|), requests := b.requests + [r]))
  {
    var requests := b.requests + [r];
    forall i, j | 0 <= i && i + 1 == j < |b.published| && b.published[j].ResumeAll?
      ensures Backed(requests, b.published[i], b.published[j])
    {
      assert Backed(b.requests, b.published[i], b.published[j]);
    }
  }

  lemma ResumeKeepsValid(b: Bot, now: int, took: nat)
    requires Valid(b) && PendingValid(b.pending, now) && GoesOut(took, true)
    ensures Valid(Handle(b, ConfirmResume(now, took, true)))
  {
    var t := Handle(b, ConfirmResume(now, took, true));
    var n := |b.published|;
    assert forall i :: 0 <= i < n ==> t.published[i] == b.published[i];
    assert Backed(t.requests, t.published[n - 1], t.published[n]);
  }

  lemma HandleKeepsValid(b: Bot, c: Command)
    requires Valid(b)
    ensures Valid(Handle(b, c))
  {
    match c
    case StopAllCommand(sent) => if !b.stopActive && sent { StopKeepsValid(b); }
    case ResumeAllCommand(username, now) => if b.stopActive { RequestKeepsValid(b, Request(now, username)); }
    case ConfirmResume(now, took, sent) => if PendingValid(b.pending, now) && GoesOut(took, sent) { ResumeKeepsValid(b, now, took); }
    case ResumeOne(_, _) =>
  }

  lemma {:induction false} RunIsValid(h: Trace<Command>)
    ensures Valid(Run(h))
  {
    if h.Then? {
      RunIsValid(h.past);
      HandleKeepsValid(Run(h.past), h.last);
    }
  }

  /* ----------------------------------------------------------------------- theorems */

  // Over every command sequence with arbitrary publish failures, published stops and resumes strictly
  // alternate, each resume is backed by a fresh request made since its stop, and no request backs two.
  lemma StopsAndResumesAlternate(h: Trace<Command>)
    ensures var b := Run(h);
            && Alternates(b.published) && AllBacked(b)
            && (forall i, j :: 0 <= i < j < |b.published| && b.published[i].ResumeAll? && b.published[j].ResumeAll? ==>
                  b.published[i].request < b.published[j].request)
  {
    RunIsValid(h);
    forall i, j | 0 <= i < j < |Run(h).published| && Run(h).published[i].ResumeAll? && Run(h).published[j].ResumeAll?
      ensures Run(h).published[i].request < Run(h).published[j].request
    {
      NoRequestTwice(Run(h), i, j);
    }
  }

  lemma NoRequestTwice(b: Bot, i: nat, j: nat)
    requires Valid(b) && i < j < |b.published| && b.published[i].ResumeAll? && b.published[j].ResumeAll?
    ensures b.published[i].request < b.published[j].request
  {
    var k := j - 1;
    assert Backed(b.requests, b.published[k], b.published[j]);
  }

  // The bot believes trading is stopped exactly while the last thing published is a stop, and waits
  // for a confirmation only then.
  lemma BeliefMatchesPublished(h: Trace<Command>)
    ensures var b := Run(h);
            && (b.stopActive <==> b.published != [] && b.published[|b.published| - 1].StopAll?)
            && (b.pending.active ==> b.stopActive)
  {
    RunIsValid(h);
  }

  // The request that a confirmation would rely on: the last one made while stopped, as long as no resume
  // has used it and no confirmation has found it too old.
  function Open(h: Trace<Command>): Option<Request> {
    match h
    case Begin => None
    case Then(past, ResumeAllCommand(username, now)) => if StopIsLast(past) then Some(Request(now, username)) else Open(past)
    case Then(past, ConfirmResume(now, took, sent)) =>
      if Open(past).None? || Confirms(Open(past).value, now, took, sent) || now - Open(past).value.at > 60_000_000_000 then None
      else Open(past)
    case Then(past, _) => Open(past)
  }

  // In time up to and including 60 seconds, and out within half a second.
  predicate Confirms(r: Request, now: int, took: nat, sent: bool) {
    now - r.at <= 60_000_000_000 && sent && took <= 500_000_000
  }

  // The last stop or resume that went out was a stop.
  predicate StopIsLast(h: Trace<Command>) {
    match h
    case Begin => false
    case Then(past, StopAllCommand(sent)) => sent || StopIsLast(past)
    case Then(past, ConfirmResume(now, took, sent)) =>
      StopIsLast(past) && !(Open(past).Some? && Confirms(Open(past).value, now, took, sent))
    case Then(past, _) => StopIsLast(past)
  }

  // After every command sequence, with any clocks, the bot holds exactly that request, and believes
  // trading is stopped exactly then.
  lemma {:induction false} HoldsOpenRequest(h: Trace<Command>)
    ensures var b := Run(h);
            && (b.stopActive <==> StopIsLast(h))
            && (b.pending.active <==> Open(h).Some?)
            && (b.pending.active ==> Request(b.pending.timestamp, b.pending.username) == Open(h).value)
  {
    if h.Then? { HoldsOpenRequest(h.past); }
  }

  // So a confirmation resumes, in the name of who asked, exactly when that request is in time and the
  // command goes out.
  lemma ConfirmsOpenRequest(h: Trace<Command>, now: int, took: nat, sent: bool)
    ensures var b, t := Run(h), Run(Then(h, ConfirmResume(now, took, sent)));
            if Open(h).Some? && Confirms(Open(h).value, now, took, sent)
              then t.published == b.published + [ResumeAll(b.pending.request, now, now + took, Open(h).value.username)]
              else t.published == b.published
  {
    HoldsOpenRequest(h);
  }

  // A confirmation resumes exactly when the last accepted request is still unused and in time, and
  // the command goes out.
  lemma ConfirmResumesIffBacked(h: Trace<Command>, now: int, took: nat, sent: bool)
    ensures var b, t := Run(h), Run(Then(h, ConfirmResume(now, took, sent)));
            && (t.published != b.published <==> PendingValid(b.pending, now) && GoesOut(took, sent))
            && (t.published != b.published ==>
                  !t.stopActive && t.published[|t.published| - 1].ResumeAll? && !t.pending.active)
            && (PendingValid(b.pending, now) && !GoesOut(took, sent) ==> t == b)
  {
    var b, t := Run(h), Run(Then(h, ConfirmResume(now, took, sent)));
    if PendingValid(b.pending, now) && GoesOut(took, sent) { assert |t.published| == |b.published| + 1; }
  }

  // No command is ignored: a stop that goes out stops, one that does not changes nothing; a request is
  // accepted exactly while stopped; and resuming one account touches neither.
  lemma CommandsTakeEffect(h: Trace<Command>, username: string, now: int, account: string, sent: bool)
    ensures var b := Run(h);
            var stopped, asked := Run(Then(h, StopAllCommand(sent))), Run(Then(h, ResumeAllCommand(username, now)));
            var one := Run(Then(h, ResumeOne(account, sent)));
            && (sent ==> stopped.stopActive && stopped.published != [] && stopped.published[|stopped.published| - 1].StopAll?)
            && (!sent ==> stopped == b)
            && (PendingValid(asked.pending, now) && asked.pending.request == |b.requests| <==> b.stopActive)
            && (!b.stopActive ==> asked == b)
            && one == b.(resumed := if account != "" && sent then b.resumed + [account] else b.resumed)
  {
    RunIsValid(h);
  }

  // A request never outlives the stop it was made in: after a resume and a new stop, confirming
  // without a new request does nothing.
  lemma NewStopNeedsNewRequest(h: Trace<Command>, at: int, took: nat, now: int, later: nat, sent: bool)
    requires PendingValid(Run(h).pending, at) && GoesOut(took, true)
    ensures var b := Run(Then(Then(h, ConfirmResume(at, took, true)), StopAllCommand(true)));
            var t := Run(Then(Then(Then(h, ConfirmResume(at, took, true)), StopAllCommand(true)), ConfirmResume(now, later, sent)));
            b.stopActive && t.stopActive && t.published == b.published
  {
  }

  /* ------------------------------------------------------------------------ the bot */

  class TelegramBot {
    var stopActive: bool
    var pendingResume: Pending
    var requests: seq<Request>
    var published: seq<Published>
    var resumed: seq<string>

    ghost function State(): Bot
      reads this
    {
      Bot(stopActive, pendingResume, requests, published, resumed)
    }

    constructor ()
      ensures State() == Initial()
    {
      stopActive, pendingResume := false, Pending(false, 0, "", 0);
      requests, published, resumed := [], [], [];
    }

    method GetPendingResume(now: int) returns (username: string, valid: bool)
      modifies `pendingResume
      ensures valid == PendingValid(old(pendingResume), now)
      ensures valid ==> username == pendingResume.username
      ensures pendingResume == if valid then old(pendingResume) else old(pendingResume).(active := false)
    {
      if !pendingResume.active {
        return "", false;
      }
      if now - pendingResume.timestamp > TIMEOUT {
        pendingResume := pendingResume.(active := false);
        return "", false;
      }
      return pendingResume.username, true;
    }

    method HandleStopAll(sent: bool)
      modifies this
      ensures State() == Handle(old(State()), StopAllCommand(sent))
    {
      if stopActive {
        return;
      }
      if !sent {
        return;
      }
      published := published + [StopAll(|requests|)];
      stopActive := true;
    }

    method HandleResumeAll(username: string, now: int)
      modifies this
      ensures State() == Handle(old(State()), ResumeAllCommand(username, now))
    {
      if !stopActive {
        return;
      }
      pendingResume := Pending(true, now, username, |requests|);
      requests := requests + [Request(now, username)];
    }

    method HandleConfirmResume(now: int, took: nat, sent: bool)
      modifies this
      ensures State() == Handle(old(State()), ConfirmResume(now, took, sent))
    {
      var username, valid := GetPendingResume(now);
      if !valid {
        return;
      }
      if !sent || took > PUBLISH_TIMEOUT {
        return;
      }
      published := published + [ResumeAll(pendingResume.request, now, now + took, username)];
      stopActive := false;
      pendingResume := pendingResume.(active := false);
    }

    method HandleResume(account: string, sent: bool)
      modifies this
      ensures State() == Handle(old(State()), ResumeOne(account, sent))
    {
      if account == "" || !sent {
        return;
      }
      resumed := resumed + [account];
    }
  }
}

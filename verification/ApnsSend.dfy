/**
 The send loop: one push against any stream of gateway answers, any clock and any other tasks using
 the same provider token meanwhile.
 */
module ApnsSend {
  import opened Prelude
  import PT = ProviderToken

  /** Retry ladders, in milliseconds. */
  const DEFAULT_BACKOFF: seq<nat> := [1_000, 4_000, 16_000]
  const IMMEDIATE_BACKOFF: seq<nat> := [1_000, 4_000, 16_000, 60_000, 120_000, 300_000]
  const IMMEDIATE_PRIORITY: nat := 10

  datatype Push = Push(priority: nat, expiration: int) {
    predicate IsImmediate() { priority >= IMMEDIATE_PRIORITY }
  }

  datatype Response = Transport(reason: string) | Http(status: nat, reason: string)

  datatype Verdict = Landed | DeadToken | StaleJwt | Retryable | Refused

  datatype Outcome =
    | Delivered
    | TokenInvalid(status: nat, reason: string)
    | Rejected(status: nat, reason: string)
    | ProviderTokenRejected(reason: string)
    | GaveUp(last: Option<nat>, reason: string)

  function Judge(r: Response): Verdict {
    match r
    case Transport(_) => Retryable
    case Http(status, reason) =>
      if status == 200 then Landed
      else if status == 410 then DeadToken
      else if status == 400 && reason in ["BadDeviceToken", "DeviceTokenNotForTopic"] then DeadToken
      else if status == 403 && reason in ["InvalidProviderToken", "ExpiredProviderToken"] then StaleJwt
      else if status == 429 || 500 <= status <= 599 then Retryable
      else Refused
  }

  /** What the loop meets in one attempt: other tasks' calls, clock readings, signing, the answer. */
  datatype Turn = Turn(
    before: seq<PT.Call>, checkedAt: int, mintedAt: int, signs: bool,
    response: Response, during: seq<PT.Call>, now: int, remintedAt: int, resigns: bool)
  {
    function Get(): PT.Call { PT.Get(checkedAt, mintedAt, signs) }

    function Report(bearer: PT.Bearer): PT.Call { PT.RemintIfCurrent(bearer, remintedAt, resigns) }

    /** The calls on the cache up to the request for a token, up to the answer, up to the report. */
    function Asked(): seq<PT.Call> { before + [Get()] }

    function Answered(): seq<PT.Call> { Asked() + during }

    function Reported(bearer: PT.Bearer): seq<PT.Call> { Answered() + [Report(bearer)] }
  }

  type World = nat -> Turn

  /** The whole second, saturating, in which a delay taken now ends. */
  function EndsAt(now: int, delay: nat): int {
    Min(now / 1_000 + Min(delay / 1_000, PT.I64_MAX), PT.I64_MAX)
  }

  function NextDelay(ladder: seq<nat>, push: Push, retries: nat, now: int): Option<nat> {
    if retries >= |ladder| then None
    else if push.expiration != 0 && EndsAt(now, ladder[retries]) >= push.expiration then None
    else Some(ladder[retries])
  }

  datatype Event =
    | Slept(bearer: PT.Bearer, response: Response, now: int, delay: nat)
    | Reminted(bearer: PT.Bearer, response: Response)

  datatype Ending =
    | Ended(outcome: Outcome, bearer: PT.Bearer, response: Response, now: int)
    | MintFailed

  /** How one send went: what it did between requests, how it ended, every call on the cache. */
  datatype Log = Log(events: seq<Event>, requests: nat, ending: Ending, calls: seq<PT.Call>)

  /** The loop's own state at the top of an attempt: the cache it shares, and its two local variables. */
  datatype Loop = Loop(cache: PT.Cache, retries: nat, reminted: bool)

  datatype Pass =
    | Stop(log: Log)
    | Continue(event: Event, calls: seq<PT.Call>, next: Loop)

  /** One trip round the loop. */
  function OnePass(t: Turn, ladder: seq<nat>, push: Push, l: Loop): Pass {
    var reply := PT.Reply(PT.RunFrom(l.cache, t.before), t.Get());
    if reply.None? then Stop(Log([], 0, MintFailed, t.Asked()))
    else
      var b := reply.value;
      var calls := t.Answered();
      var end := (outcome: Outcome) => Stop(Log([], 1, Ended(outcome, b, t.response, t.now), calls));
      match Judge(t.response)
      case Landed => end(Delivered)
      case DeadToken => end(TokenInvalid(t.response.status, t.response.reason))
      case Refused => end(Rejected(t.response.status, t.response.reason))
      case Retryable =>
        var delay := NextDelay(ladder, push, l.retries, t.now);
        if delay.None? then
          end(GaveUp(if t.response.Http? then Some(t.response.status) else None, t.response.reason))
        else
          Continue(Slept(b, t.response, t.now, delay.value), calls,
                   Loop(PT.RunFrom(l.cache, calls), l.retries + 1, l.reminted))
      case StaleJwt =>
        if l.reminted then end(ProviderTokenRejected(t.response.reason))
        else
          var all := t.Reported(b);
          if PT.Reply(PT.RunFrom(l.cache, calls), t.Report(b)).None? then Stop(Log([], 1, MintFailed, all))
          else Continue(Reminted(b, t.response), all, Loop(PT.RunFrom(l.cache, all), l.retries, true))
  }

  function After(pass: Pass, rest: Log): Log
    requires pass.Continue?
  {
    Log([pass.event] + rest.events, 1 + rest.requests, rest.ending, pass.calls + rest.calls)
  }

  function Budget(ladder: seq<nat>, l: Loop): nat {
    Max(|ladder| - l.retries, 0) + if l.reminted then 0 else 1
  }

  /** The loop from attempt `i` on. */
  function Send(w: World, ladder: seq<nat>, push: Push, i: nat, l: Loop): Log
    decreases Budget(ladder, l)
  {
    var pass := OnePass(w(i), ladder, push, l);
    if pass.Stop? then pass.log else After(pass, Send(w, ladder, push, i + 1, pass.next))
  }

  function Delays(events: seq<Event>): seq<nat> {
    if events == [] then []
    else (if events[0].Slept? then [events[0].delay] else []) + Delays(events[1..])
  }

  function Remints(events: seq<Event>): seq<PT.Bearer> {
    if events == [] then []
    else (if events[0].Reminted? then [events[0].bearer] else []) + Remints(events[1..])
  }

  /** Every event is a sleep or a remint. */
  lemma {:induction false} EventsAddUp(events: seq<Event>)
    ensures |Delays(events)| + |Remints(events)| == |events|
  {
    if events != [] {
      EventsAddUp(events[1..]);
    }
  }

  lemma AfterEvents(pass: Pass, rest: Log)
    requires pass.Continue?
    ensures Delays(After(pass, rest).events) ==
            (if pass.event.Slept? then [pass.event.delay] else []) + Delays(rest.events)
    ensures Remints(After(pass, rest).events) ==
            (if pass.event.Reminted? then [pass.event.bearer] else []) + Remints(rest.events)
  {
    assert After(pass, rest).events[1..] == rest.events;
  }

  /** An attempt that goes on either slept the ladder's next delay or leaves the ladder where it is. */
  lemma PassClimbs(t: Turn, ladder: seq<nat>, push: Push, l: Loop)
    ensures var pass := OnePass(t, ladder, push, l);
      pass.Continue? ==>
      if pass.event.Slept?
      then l.retries < |ladder| && pass.event.delay == ladder[l.retries] && pass.next.retries == l.retries + 1
      else pass.next.retries == l.retries
  {
  }

  lemma OneMoreRung(ladder: seq<nat>, n: nat, rest: seq<nat>)
    requires n < |ladder| && rest <= ladder[n + 1..]
    ensures [ladder[n]] + rest <= ladder[n..]
  {
    assert ladder[n..] == [ladder[n]] + ladder[n + 1..];
  }

  /** The sleeps are the ladder's delays, in order and from the first, each counted as one retry. */
  lemma {:induction false} SleepsFollowTheLadder(w: World, ladder: seq<nat>, push: Push, i: nat, l: Loop)
    ensures Delays(Send(w, ladder, push, i, l).events) <= ladder[Min(l.retries, |ladder|)..]
    decreases Budget(ladder, l)
  {
    var pass := OnePass(w(i), ladder, push, l);
    if pass.Continue? {
      var rest := Send(w, ladder, push, i + 1, pass.next);
      PassClimbs(w(i), ladder, push, l);
      SleepsFollowTheLadder(w, ladder, push, i + 1, pass.next);
      AfterEvents(pass, rest);
      if pass.event.Slept? {
        OneMoreRung(ladder, l.retries, Delays(rest.events));
      } else {
        assert [] + Delays(rest.events) == Delays(rest.events);
      }
    }
  }

  /** One send remints at most once. */
  lemma {:induction false} RemintsAtMostOnce(w: World, ladder: seq<nat>, push: Push, i: nat, l: Loop)
    ensures |Remints(Send(w, ladder, push, i, l).events)| <= if l.reminted then 0 else 1
    decreases Budget(ladder, l)
  {
    var pass := OnePass(w(i), ladder, push, l);
    if pass.Continue? {
      RemintsAtMostOnce(w, ladder, push, i + 1, pass.next);
      AfterEvents(pass, Send(w, ladder, push, i + 1, pass.next));
    }
  }

  lemma {:induction false} RequestsFollowEvents(w: World, ladder: seq<nat>, push: Push, i: nat, l: Loop)
    ensures var log := Send(w, ladder, push, i, l);
      |log.events| <= log.requests <= |log.events| + 1
    decreases Budget(ladder, l)
  {
    var pass := OnePass(w(i), ladder, push, l);
    if pass.Continue? {
      RequestsFollowEvents(w, ladder, push, i + 1, pass.next);
    }
  }

  /** Whatever the gateway answers, a send ends within two requests more than its ladder is long. */
  lemma SendIsBounded(w: World, ladder: seq<nat>, push: Push, i: nat, l: Loop)
    ensures var log := Send(w, ladder, push, i, l);
      log.requests <= Budget(ladder, l) + 1 && |log.events| <= log.requests <= |log.events| + 1
  {
    var events := Send(w, ladder, push, i, l).events;
    RequestsFollowEvents(w, ladder, push, i, l);
    EventsAddUp(events);
    SleepsFollowTheLadder(w, ladder, push, i, l);
    RemintsAtMostOnce(w, ladder, push, i, l);
    assert |Delays(events)| <= |ladder[Min(l.retries, |ladder|)..]|;
  }

  // -- what a send may do, and how it may end, in terms of the answers ------------------------

  predicate LandedAnswer(r: Response) { r.Http? && r.status == 200 }

  predicate DeadTokenAnswer(r: Response) {
    r.Http? && (r.status == 410 || (r.status == 400 && r.reason in ["BadDeviceToken", "DeviceTokenNotForTopic"]))
  }

  predicate StaleTokenAnswer(r: Response) {
    r.Http? && r.status == 403 && r.reason in ["InvalidProviderToken", "ExpiredProviderToken"]
  }

  predicate PassingFault(r: Response) { r.Transport? || r.status == 429 || 500 <= r.status <= 599 }

  /** The push may still wait this long: it has no deadline, or the delay ends in an earlier second. */
  predicate BeforeDeadline(push: Push, now: int, delay: nat) {
    push.expiration == 0 || now / 1_000 + Min(delay / 1_000, PT.I64_MAX) < push.expiration
  }

  predicate Legal(push: Push, e: Event) {
    match e
    case Slept(_, response, now, delay) => PassingFault(response) && BeforeDeadline(push, now, delay)
    case Reminted(_, response) => StaleTokenAnswer(response)
  }

  /** The send sleeps only after a passing fault and within the deadline, and remints only on a stale token. */
  lemma {:induction false} EveryEventIsLegal(w: World, ladder: seq<nat>, push: Push, i: nat, l: Loop)
    requires push.expiration <= PT.I64_MAX
    ensures forall e :: e in Send(w, ladder, push, i, l).events ==> Legal(push, e)
    decreases Budget(ladder, l)
  {
    var pass := OnePass(w(i), ladder, push, l);
    if pass.Continue? {
      EveryEventIsLegal(w, ladder, push, i + 1, pass.next);
    }
  }

  /** The outcome is what the last answer calls for, and carries what that answer said. */
  predicate Explained(outcome: Outcome, r: Response) {
    match outcome
    case Delivered => LandedAnswer(r)
    case TokenInvalid(status, reason) => DeadTokenAnswer(r) && r == Http(status, reason)
    case ProviderTokenRejected(reason) => StaleTokenAnswer(r) && r.reason == reason
    case GaveUp(last, reason) =>
      PassingFault(r) && r.reason == reason && last == (if r.Http? then Some(r.status) else None)
    case Rejected(status, reason) =>
      && r == Http(status, reason)
      && !LandedAnswer(r) && !DeadTokenAnswer(r) && !StaleTokenAnswer(r) && !PassingFault(r)
  }

  lemma {:induction false} EndingIsExplained(w: World, ladder: seq<nat>, push: Push, i: nat, l: Loop)
    ensures var ending := Send(w, ladder, push, i, l).ending;
      if ending.Ended? then Explained(ending.outcome, ending.response)
      else exists j :: i <= j && !(w(j).signs && w(j).resigns)
    decreases Budget(ladder, l)
  {
    var pass := OnePass(w(i), ladder, push, l);
    if pass.Continue? {
      EndingIsExplained(w, ladder, push, i + 1, pass.next);
    }
  }

  /** If it gave up, then with every delay slept or with one left that would reach the deadline. */
  predicate SpentAfter(ladder: seq<nat>, push: Push, retries: nat, log: Log) {
    var slept := retries + |Delays(log.events)|;
    log.ending.Ended? && log.ending.outcome.GaveUp? ==>
      slept >= |ladder| || !BeforeDeadline(push, log.ending.now, ladder[slept])
  }

  lemma PassGivesUp(t: Turn, ladder: seq<nat>, push: Push, l: Loop)
    requires push.expiration <= PT.I64_MAX
    ensures var pass := OnePass(t, ladder, push, l);
      pass.Stop? ==> SpentAfter(ladder, push, l.retries, pass.log)
  {
  }

  lemma SpentLater(ladder: seq<nat>, push: Push, n: nat, pass: Pass, rest: Log)
    requires pass.Continue?
    requires SpentAfter(ladder, push, n + (if pass.event.Slept? then 1 else 0), rest)
    ensures SpentAfter(ladder, push, n, After(pass, rest))
  {
    AfterEvents(pass, rest);
  }

  /** A send gives up only when the ladder is spent or the next delay would reach the deadline. */
  lemma {:induction false} GivesUpOnlyWhenSpent(w: World, ladder: seq<nat>, push: Push, i: nat, l: Loop)
    requires push.expiration <= PT.I64_MAX
    ensures SpentAfter(ladder, push, l.retries, Send(w, ladder, push, i, l))
    decreases Budget(ladder, l)
  {
    var pass := OnePass(w(i), ladder, push, l);
    PassGivesUp(w(i), ladder, push, l);
    if pass.Continue? {
      PassClimbs(w(i), ladder, push, l);
      GivesUpOnlyWhenSpent(w, ladder, push, i + 1, pass.next);
      SpentLater(ladder, push, l.retries, pass, Send(w, ladder, push, i + 1, pass.next));
    }
  }

  /** The gateway never gets further than a passing fault, while tokens can be signed. */
  ghost predicate Outage(w: World) {
    forall i :: PassingFault(w(i).response) && w(i).signs
  }

  lemma OutagePass(t: Turn, ladder: seq<nat>, push: Push, l: Loop)
    requires PassingFault(t.response) && t.signs && push.expiration == 0
    ensures var pass := OnePass(t, ladder, push, l);
      if l.retries < |ladder| then pass.Continue? && pass.event.Slept?
      else pass.Stop? && pass.log.events == [] && pass.log.ending.Ended? && pass.log.ending.outcome.GaveUp?
  {
  }

  /** Through an outage a push without a deadline sleeps every delay that is left on its ladder, and then gives up. */
  lemma {:induction false} OutageSpendsTheLadder(w: World, ladder: seq<nat>, push: Push, i: nat, l: Loop)
    requires Outage(w) && push.expiration == 0 && l.retries <= |ladder|
    ensures var log := Send(w, ladder, push, i, l);
      Delays(log.events) == ladder[l.retries..] && log.ending.Ended? && log.ending.outcome.GaveUp?
    decreases Budget(ladder, l)
  {
    var pass := OnePass(w(i), ladder, push, l);
    OutagePass(w(i), ladder, push, l);
    PassClimbs(w(i), ladder, push, l);
    if pass.Continue? {
      OutageSpendsTheLadder(w, ladder, push, i + 1, pass.next);
      AfterEvents(pass, Send(w, ladder, push, i + 1, pass.next));
      assert ladder[l.retries..] == [ladder[l.retries]] + ladder[l.retries + 1..];
    }
  }

  // -- the provider token ---------------------------------------------------------------

  /** The cache through one attempt: after the request for a token, after the others, after the report. */
  lemma AttemptRuns(t: Turn, c: PT.Cache, b: PT.Bearer)
    requires PT.Valid(c)
    ensures PT.Valid(PT.RunFrom(c, t.before)) && c.minted <= PT.RunFrom(c, t.before).minted
    ensures PT.RunFrom(c, t.Asked()) == PT.Step(PT.RunFrom(c, t.before), t.Get())
    ensures PT.Valid(PT.RunFrom(c, t.Answered()))
    ensures PT.RunFrom(c, t.Asked()).minted <= PT.RunFrom(c, t.Answered()).minted
    ensures PT.RunFrom(c, t.Reported(b)) == PT.Step(PT.RunFrom(c, t.Answered()), t.Report(b))
  {
    PT.RunFromIsValid(c, t.before);
    assert t.Asked()[..|t.Asked()| - 1] == t.before;
    PT.RunsConcatenate(c, t.Asked(), t.during);
    PT.RunFromIsValid(PT.RunFrom(c, t.Asked()), t.during);
    assert t.Reported(b)[..|t.Reported(b)| - 1] == t.Answered();
  }

  /** Where an attempt that goes on leaves the cache. */
  lemma PassRuns(t: Turn, ladder: seq<nat>, push: Push, l: Loop)
    ensures var pass := OnePass(t, ladder, push, l);
      pass.Continue? ==>
      && Some(pass.event.bearer) == PT.Reply(PT.RunFrom(l.cache, t.before), t.Get())
      && pass.calls == (if pass.event.Slept? then t.Answered() else t.Reported(pass.event.bearer))
      && pass.next.cache == PT.RunFrom(l.cache, pass.calls)
      && (pass.event.Reminted? ==>
           PT.Reply(PT.RunFrom(l.cache, t.Answered()), t.Report(pass.event.bearer)).Some?)
  {}

  /** Through a whole attempt the cache stays valid, and its newest token moves on past a reported one. */
  lemma CacheMovesOn(t: Turn, c: PT.Cache, b: PT.Bearer)
    requires PT.Valid(c) && PT.Reply(PT.RunFrom(c, t.before), t.Get()) == Some(b)
    ensures c.minted <= b + 1 <= PT.RunFrom(c, t.Asked()).minted
    ensures PT.Valid(PT.RunFrom(c, t.Answered())) && c.minted <= PT.RunFrom(c, t.Answered()).minted
    ensures PT.Reply(PT.RunFrom(c, t.Answered()), t.Report(b)).Some? ==>
              PT.Valid(PT.RunFrom(c, t.Reported(b))) && b + 1 < PT.RunFrom(c, t.Reported(b)).minted
  {
    AttemptRuns(t, c, b);
  }

  /** An attempt leaves the cache valid, and no token older than before. */
  lemma PassKeepsTheCache(t: Turn, ladder: seq<nat>, push: Push, l: Loop)
    requires PT.Valid(l.cache)
    ensures var pass := OnePass(t, ladder, push, l);
      pass.Continue? ==>
      && PT.Valid(pass.next.cache) && l.cache.minted <= pass.next.cache.minted
      && pass.next.cache == PT.RunFrom(l.cache, pass.calls)
  {
    PassRuns(t, ladder, push, l);
    var pass := OnePass(t, ladder, push, l);
    if pass.Continue? {
      CacheMovesOn(t, l.cache, pass.event.bearer);
    }
  }

  /** The token an attempt uses is no older than the newest one at its start, and a remint leaves it behind. */
  lemma PassUsesTheNewest(t: Turn, ladder: seq<nat>, push: Push, l: Loop)
    requires PT.Valid(l.cache)
    ensures var pass := OnePass(t, ladder, push, l);
      && (pass.Continue? && pass.event.Reminted? ==>
           l.cache.minted <= pass.event.bearer + 1 < pass.next.cache.minted)
      && (pass.Stop? && pass.log.ending.Ended? ==> l.cache.minted <= pass.log.ending.bearer + 1)
  {
    PassRuns(t, ladder, push, l);
    var reply := PT.Reply(PT.RunFrom(l.cache, t.before), t.Get());
    if reply.Some? {
      CacheMovesOn(t, l.cache, reply.value);
    }
  }

  lemma {:induction false} TokensDoNotGoBack(w: World, ladder: seq<nat>, push: Push, i: nat, l: Loop)
    requires PT.Valid(l.cache)
    ensures var ending := Send(w, ladder, push, i, l).ending;
      ending.Ended? ==> l.cache.minted <= ending.bearer + 1
    decreases Budget(ladder, l)
  {
    PassKeepsTheCache(w(i), ladder, push, l);
    PassUsesTheNewest(w(i), ladder, push, l);
    var pass := OnePass(w(i), ladder, push, l);
    if pass.Continue? {
      TokensDoNotGoBack(w, ladder, push, i + 1, pass.next);
    }
  }

  /**
   The misconfiguration verdict needs two different tokens, both refused as stale: whatever the other
   tasks do to the cache, the second request of the two carries a token signed after the first.
   */
  lemma {:induction false} RejectionNeedsTwoTokens(w: World, ladder: seq<nat>, push: Push, i: nat, l: Loop)
    requires PT.Valid(l.cache) && !l.reminted
    ensures var log := Send(w, ladder, push, i, l);
      log.ending.Ended? && log.ending.outcome.ProviderTokenRejected? ==>
      && StaleTokenAnswer(log.ending.response)
      && |Remints(log.events)| == 1 && Remints(log.events)[0] < log.ending.bearer
    decreases Budget(ladder, l)
  {
    PassKeepsTheCache(w(i), ladder, push, l);
    PassUsesTheNewest(w(i), ladder, push, l);
    var pass := OnePass(w(i), ladder, push, l);
    if pass.Continue? {
      AfterEvents(pass, Send(w, ladder, push, i + 1, pass.next));
      if pass.event.Reminted? {
        TokensDoNotGoBack(w, ladder, push, i + 1, pass.next);
        RemintsAtMostOnce(w, ladder, push, i + 1, pass.next);
        EndingIsExplained(w, ladder, push, i + 1, pass.next);
      } else {
        RejectionNeedsTwoTokens(w, ladder, push, i + 1, pass.next);
      }
    }
  }

  // -- joining the rotation theorem -------------------------------------------------------

  predicate HonestTurn(t: Turn, c: PT.Cache) {
    PT.HonestFrom(c, t.before) && PT.HonestFrom(PT.RunFrom(c, t.Asked()), t.during)
  }

  /** Every other task's calls, where they fall in this send, report signed tokens only. */
  predicate OthersHonest(w: World, ladder: seq<nat>, push: Push, i: nat, l: Loop)
    decreases Budget(ladder, l)
  {
    && HonestTurn(w(i), l.cache)
    && var pass := OnePass(w(i), ladder, push, l);
       pass.Continue? ==> OthersHonest(w, ladder, push, i + 1, pass.next)
  }

  function CallsOf(pass: Pass): seq<PT.Call> {
    if pass.Stop? then pass.log.calls else pass.calls
  }

  lemma AttemptIsHonest(t: Turn, c: PT.Cache, b: PT.Bearer)
    requires PT.Valid(c) && HonestTurn(t, c)
    ensures PT.HonestFrom(c, t.Asked()) && PT.HonestFrom(c, t.Answered())
    ensures b < PT.RunFrom(c, t.Asked()).minted ==> PT.HonestFrom(c, t.Reported(b))
  {
    assert t.Asked()[..|t.Asked()| - 1] == t.before;
    PT.RunsConcatenate(c, t.Asked(), t.during);
    AttemptRuns(t, c, b);
    assert t.Reported(b)[..|t.Reported(b)| - 1] == t.Answered();
  }

  lemma PassStaysHonest(t: Turn, ladder: seq<nat>, push: Push, l: Loop)
    requires PT.Valid(l.cache) && HonestTurn(t, l.cache)
    ensures PT.HonestFrom(l.cache, CallsOf(OnePass(t, ladder, push, l)))
  {
    AttemptIsHonest(t, l.cache, 0);
    AttemptRuns(t, l.cache, 0);
    var reply := PT.Reply(PT.RunFrom(l.cache, t.before), t.Get());
    if reply.Some? {
      AttemptIsHonest(t, l.cache, reply.value);
    }
  }

  /** A send reports only tokens that were signed, so any number of them meet the rotation theorem. */
  lemma {:induction false} SendStaysHonest(w: World, ladder: seq<nat>, push: Push, i: nat, l: Loop)
    requires PT.Valid(l.cache) && OthersHonest(w, ladder, push, i, l)
    ensures PT.HonestFrom(l.cache, Send(w, ladder, push, i, l).calls)
    decreases Budget(ladder, l)
  {
    PassStaysHonest(w(i), ladder, push, l);
    PassKeepsTheCache(w(i), ladder, push, l);
    var pass := OnePass(w(i), ladder, push, l);
    if pass.Continue? {
      SendStaysHonest(w, ladder, push, i + 1, pass.next);
      PT.RunsConcatenate(l.cache, pass.calls, Send(w, ladder, push, i + 1, pass.next).calls);
    }
  }

  // -- the loop itself ----------------------------------------------------------------------

  lemma {:induction false} DelaysSplit(events: seq<Event>, e: Event)
    ensures Delays(events + [e]) == Delays(events) + if e.Slept? then [e.delay] else []
  {
    if events == [] {
      assert events + [e] == [e];
    } else {
      var tail := if e.Slept? then [e.delay] else [];
      var head := if events[0].Slept? then [events[0].delay] else [];
      calc {
        Delays(events + [e]);
      == { assert (events + [e])[1..] == events[1..] + [e]; }
        head + Delays(events[1..] + [e]);
      == { DelaysSplit(events[1..], e); }
        head + (Delays(events[1..]) + tail);
      == { assert head + (Delays(events[1..]) + tail) == (head + Delays(events[1..])) + tail; }
        Delays(events) + tail;
      }
    }
  }

  /** What has been done so far, followed by what is still to come. */
  function Following(events: seq<Event>, calls: seq<PT.Call>, rest: Log): Log {
    Log(events + rest.events, |events| + rest.requests, rest.ending, calls + rest.calls)
  }

  /** One trip moves its event and its calls from what is to come to what has been done. */
  lemma LoopStep(w: World, ladder: seq<nat>, push: Push, i: nat, l: Loop, events: seq<Event>, calls: seq<PT.Call>)
    ensures
      var pass := OnePass(w(i), ladder, push, l);
      var whole := Following(events, calls, Send(w, ladder, push, i, l));
      if pass.Stop? then
        whole.ending == pass.log.ending && whole.events == events && whole.calls == calls + CallsOf(pass)
      else
        && whole == Following(events + [pass.event], calls + CallsOf(pass), Send(w, ladder, push, i + 1, pass.next))
        && |Delays(events + [pass.event])| == |Delays(events)| + (if pass.event.Slept? then 1 else 0)
        && Budget(ladder, pass.next) < Budget(ladder, l)
  {
    var pass := OnePass(w(i), ladder, push, l);
    if pass.Continue? {
      var rest := Send(w, ladder, push, i + 1, pass.next);
      assert events + ([pass.event] + rest.events) == events + [pass.event] + rest.events;
      assert calls + (pass.calls + rest.calls) == calls + pass.calls + rest.calls;
      DelaysSplit(events, pass.event);
    }
  }

  class ApnsClient {
    const token: PT.ProviderToken
    const backoff: seq<nat>
    const immediateBackoff: seq<nat>
    var retriedTotal: nat

    constructor (token: PT.ProviderToken)
      ensures this.token == token && retriedTotal == 0
      ensures Standard()
    {
      this.token, retriedTotal := token, 0;
      backoff, immediateBackoff := DEFAULT_BACKOFF, IMMEDIATE_BACKOFF;
    }

    /** The ladders a new client walks. */
    predicate Standard() {
      && backoff == [1_000, 4_000, 16_000]
      && immediateBackoff == [1_000, 4_000, 16_000, 60_000, 120_000, 300_000]
    }

    function Ladder(push: Push): seq<nat> {
      if push.IsImmediate() then immediateBackoff else backoff
    }

    /** One request and the other tasks around it; `None` when no token can be signed. */
    method Attempt(t: Turn) returns (bearer: Option<PT.Bearer>)
      modifies token
      ensures bearer == PT.Reply(PT.RunFrom(old(token.State()), t.before), t.Get())
      ensures token.State() == PT.RunFrom(old(token.State()), if bearer.Some? then t.Answered() else t.Asked())
    {
      token.Interleave(t.before);
      bearer := token.GetBearer(t.checkedAt, t.mintedAt, t.signs);
      assert t.Asked()[..|t.Asked()| - 1] == t.before;
      PT.RunsConcatenate(old(token.State()), t.Asked(), t.during);
      if bearer.Some? {
        token.Interleave(t.during);
      }
    }

    /** The body of the loop. */
    method Trip(t: Turn, push: Push, retries: nat, reminted: bool)
      returns (stop: Option<Ending>, retries': nat, reminted': bool)
      modifies this`retriedTotal, token
      ensures var pass := OnePass(t, Ladder(push), push, Loop(old(token.State()), retries, reminted));
        && token.State() == PT.RunFrom(old(token.State()), CallsOf(pass))
        && (pass.Stop? ==> stop == Some(pass.log.ending) && retriedTotal == old(retriedTotal))
        && (pass.Continue? ==> stop == None && pass.next == Loop(token.State(), retries', reminted'))
        && (pass.Continue? ==> retriedTotal == old(retriedTotal) + if pass.event.Slept? then 1 else 0)
    {
      ghost var cache := token.State();
      var bearer := Attempt(t);
      if bearer == None {
        return Some(MintFailed), retries, reminted;
      }
      stop, retries', reminted' := Settle(t, push, retries, reminted, bearer.value, cache);
    }

    /** What the answer leads to. */
    method Settle(t: Turn, push: Push, retries: nat, reminted: bool, b: PT.Bearer, ghost cache: PT.Cache)
      returns (stop: Option<Ending>, retries': nat, reminted': bool)
      requires PT.Reply(PT.RunFrom(cache, t.before), t.Get()) == Some(b)
      requires token.State() == PT.RunFrom(cache, t.Answered())
      modifies this`retriedTotal, token
      ensures var pass := OnePass(t, Ladder(push), push, Loop(cache, retries, reminted));
        && token.State() == PT.RunFrom(cache, CallsOf(pass))
        && (pass.Stop? ==> stop == Some(pass.log.ending) && retriedTotal == old(retriedTotal))
        && (pass.Continue? ==> stop == None && pass.next == Loop(token.State(), retries', reminted'))
        && (pass.Continue? ==> retriedTotal == old(retriedTotal) + if pass.event.Slept? then 1 else 0)
    {
      retries', reminted', stop := retries, reminted, None;
      match Judge(t.response) {
        case Landed => stop := Some(Ended(Delivered, b, t.response, t.now));
        case DeadToken =>
          stop := Some(Ended(TokenInvalid(t.response.status, t.response.reason), b, t.response, t.now));
        case Refused =>
          stop := Some(Ended(Rejected(t.response.status, t.response.reason), b, t.response, t.now));
        case Retryable =>
          if NextDelay(Ladder(push), push, retries, t.now).Some? {
            retries' := retries + 1;
            retriedTotal := retriedTotal + 1;
          } else {
            var last := if t.response.Http? then Some(t.response.status) else None;
            stop := Some(Ended(GaveUp(last, t.response.reason), b, t.response, t.now));
          }
        case StaleJwt =>
          if reminted {
            stop := Some(Ended(ProviderTokenRejected(t.response.reason), b, t.response, t.now));
          } else {
            reminted' := true;
            assert t.Reported(b)[..|t.Reported(b)| - 1] == t.Answered();
            var other := token.RemintIfStillCurrent(b, t.remintedAt, t.resigns);
            if other == None {
              stop := Some(MintFailed);
            }
          }
      }
    }

    /**
     The loop of one send. Through an outage a new client retries a push of priority 10 or more six times over
     eight minutes, and any other three times over 21 seconds.
     */
    method SendPush(w: World, push: Push) returns (ending: Ending, ghost slept: seq<nat>)
      modifies this`retriedTotal, token
      ensures var log := Send(w, Ladder(push), push, 0, Loop(old(token.State()), 0, false));
        && ending == log.ending && slept == Delays(log.events)
        && token.State() == PT.RunFrom(old(token.State()), log.calls)
      ensures retriedTotal == old(retriedTotal) + |slept|
      ensures Standard() && push.expiration == 0 && Outage(w) ==>
                && slept == (if push.priority >= 10 then [1_000, 4_000, 16_000, 60_000, 120_000, 300_000]
                             else [1_000, 4_000, 16_000])
                && ending.Ended? && ending.outcome.GaveUp?
    {
      var i, retries, reminted := 0, 0, false;
      ghost var ladder, before := Ladder(push), token.State();
      ghost var events, calls := [], [];
      ghost var whole := Send(w, ladder, push, 0, Loop(before, 0, false));
      slept := Delays(whole.events);
      if Outage(w) && push.expiration == 0 { OutageSpendsTheLadder(w, ladder, push, 0, Loop(before, 0, false)); }
      while true
        invariant whole == Following(events, calls, Send(w, ladder, push, i, Loop(token.State(), retries, reminted)))
        invariant token.State() == PT.RunFrom(before, calls)
        invariant retriedTotal == old(retriedTotal) + |Delays(events)|
        decreases Budget(ladder, Loop(PT.EMPTY, retries, reminted))
      {
        ghost var l := Loop(token.State(), retries, reminted);
        ghost var pass := OnePass(w(i), ladder, push, l);
        LoopStep(w, ladder, push, i, l, events, calls);
        PT.RunsConcatenate(before, calls, CallsOf(pass));
        var stop: Option<Ending>;
        stop, retries, reminted := Trip(w(i), push, retries, reminted);
        if stop.Some? {
          return stop.value, slept;
        }
        events, calls, i := events + [pass.event], calls + CallsOf(pass), i + 1;
      }
    }
  }
}

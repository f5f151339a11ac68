/**
 One item's Live Activity state and the single throttle pass every caller makes over it under the
 state lock: event handlers bring a view, the trailing-edge timer pulls one.
 */
module LiveActivity {
  import opened Prelude

  type ItemId = string
  type Token = string
  type Instant = int

  datatype Environment = Sandbox | Production

  datatype Record = Record(deviceToken: Token, updateToken: Token, env: Environment)

  /** An item view, split into what an update may refresh and what stays the event's. */
  datatype View = View(id: ItemId, status: Status, durable: int, progress: int)

  datatype Delivered = Delivered(at: Instant, status: Status, seqNo: nat)

  datatype Target = Target(token: Token, deviceToken: Token, env: Environment, topic: string)

  datatype Track = Track(
    records: seq<Record>,
    fetchedAt: Option<Instant>,
    lastSent: map<Token, Delivered>,
    pending: Option<View>,
    pendingSeq: nat,
    timerArmed: bool)

  const NEW_TRACK: Track := Track([], None, map[], None, 0, false)

  datatype Intervals = Intervals(update: nat, progress: nat)

  /** What the notifier reads during a pass: its intervals, the reader's answer, the topics. */
  datatype Context = Context(
    intervals: Intervals, hasReader: bool, live: Option<View>, bundleIds: map<Token, string>, defaultTopic: string)

  datatype Pass = Pass(track: Track, send: Option<(View, seq<Target>)>, arm: Option<Instant>)

  predicate IsProgressing(s: Status) { s.Downloading? || s.Postprocessing? }

  /** The event's view with the published numbers merged under the event's own status. */
  function Freshen(c: Context, v: View): View {
    if !c.hasReader || !IsProgressing(v.status) then v
    else if c.live.None? || c.live.value.status.IsTerminal() then v
    else v.(progress := c.live.value.progress)
  }

  /** A new view for the timer, if the published one differs from what is pending. */
  function Refreshed(c: Context, t: Track): Option<View> {
    if !c.hasReader || t.pending.None? || !IsProgressing(t.pending.value.status) then None
    else if c.live.Some? && t.pending != c.live then c.live
    else None
  }

  function Admit(t: Track, incoming: Option<View>): Track {
    if incoming.None? then t else t.(pending := incoming, pendingSeq := t.pendingSeq + 1)
  }

  function Incoming(c: Context, t: Track, event: Option<View>, fromTimer: bool): Option<View> {
    if event.Some? then Some(Freshen(c, event.value))
    else if fromTimer then Refreshed(c, t)
    else None
  }

  /** This token already has the newest view. */
  predicate UpToDate(t: Track, k: Token) {
    k in t.lastSent && t.lastSent[k].seqNo == t.pendingSeq
  }

  predicate Throttled(t: Track, status: Status, now: Instant, window: nat, k: Token) {
    && k in t.lastSent
    && t.lastSent[k].seqNo != t.pendingSeq
    && t.lastSent[k].status == status
    && now < t.lastSent[k].at + window
  }

  predicate Sends(t: Track, status: Status, now: Instant, window: nat, k: Token) {
    !UpToDate(t, k) && !Throttled(t, status, now, window, k)
  }

  function LiveActivityTopic(bundleId: string): string { bundleId + ".push-type.liveactivity" }

  function TargetOf(c: Context, r: Record): Target {
    Target(r.updateToken, r.deviceToken, r.env,
           LiveActivityTopic(if r.deviceToken in c.bundleIds then c.bundleIds[r.deviceToken] else c.defaultTopic))
  }

  /** The first `n` registrations' targets, and the earliest instant a throttled one is due. */
  function Targets(c: Context, t: Track, status: Status, now: Instant, n: nat): seq<Target>
    requires n <= |t.records|
  {
    if n == 0 then []
    else
      Targets(c, t, status, now, n - 1)
      + if Sends(t, status, now, c.intervals.update, t.records[n - 1].updateToken)
        then [TargetOf(c, t.records[n - 1])]
        else []
  }

  function Earliest(a: Option<Instant>, due: Instant): Option<Instant> {
    Some(if a.None? then due else Min(a.value, due))
  }

  function NextDue(c: Context, t: Track, status: Status, now: Instant, n: nat): Option<Instant>
    requires n <= |t.records|
  {
    if n == 0 then None
    else
      var r := t.records[n - 1];
      var before := NextDue(c, t, status, now, n - 1);
      if Throttled(t, status, now, c.intervals.update, r.updateToken)
      then Earliest(before, t.lastSent[r.updateToken].at + c.intervals.update)
      else before
  }

  function Stamp(sent: map<Token, Delivered>, targets: seq<Target>, d: Delivered): map<Token, Delivered> {
    if targets == [] then sent
    else Stamp(sent, targets[..|targets| - 1], d)[targets[|targets| - 1].token := d]
  }

  /** Sends the pending view to whoever may have it, and says when to come back. */
  function Deliver(c: Context, t: Track, fromTimer: bool, now: Instant): Pass
    requires t.pending.Some?
  {
    var view := t.pending.value;
    var targets := Targets(c, t, view.status, now, |t.records|);
    var next := NextDue(c, t, view.status, now, |t.records|);
    var stamped := t.(lastSent := Stamp(t.lastSent, targets, Delivered(now, view.status, t.pendingSeq)));
    var send := if targets == [] then None else Some((view, targets));
    var comeBack :=
      if next.Some? then next
      else if c.hasReader && IsProgressing(view.status) then Some(now + c.intervals.progress)
      else None;
    if comeBack.None? then
      Pass(stamped.(pending := None, timerArmed := if fromTimer then false else t.timerArmed), send, None)
    else if fromTimer || !t.timerArmed then
      Pass(stamped.(timerArmed := true), send, comeBack)
    else
      Pass(stamped, send, None)
  }

  /** One pass over an item's throttle state. */
  function Step(c: Context, t0: Track, event: Option<View>, fromTimer: bool, now: Instant): Pass {
    var t := Admit(t0, Incoming(c, t0, event, fromTimer));
    if t.pending.None? then
      Pass(if fromTimer then t.(timerArmed := false) else t, None, None)
    else
      Deliver(c, t, fromTimer, now)
  }

  /** A fresh registration list: a token that is gone gives up its throttle slot. */
  function StoreRecords(t: Track, records: seq<Record>, now: Instant): Track {
    t.(records := records,
       fetchedAt := Some(now),
       lastSent := map k | k in t.lastSent && k in Tokens(records) :: t.lastSent[k])
  }

  /** After a removal the cached registrations are wrong, so the next event reads them again. */
  function Invalidate(t: Track): Track { t.(fetchedAt := None) }

  /** A cancelled timer gives up its flag. */
  function Disarm(t: Track): Track { t.(timerArmed := false) }

  function Tokens(records: seq<Record>): set<Token> {
    set r | r in records :: r.updateToken
  }

  /** Each registration of one item has its own update token. */
  ghost predicate DistinctTokens(records: seq<Record>) {
    forall i, j :: 0 <= i < j < |records| ==> records[i].updateToken != records[j].updateToken
  }

  // -- what one pass decides ------------------------------------------------------

  ghost predicate Aims(targets: seq<Target>, k: Token) {
    exists x :: x in targets && x.token == k
  }

  /** A pass targets a token exactly when it is registered, behind, and not throttled. */
  lemma {:induction false} TargetsAre(c: Context, t: Track, status: Status, now: Instant, n: nat)
    requires n <= |t.records|
    ensures forall k :: Aims(Targets(c, t, status, now, n), k) <==>
                        k in Tokens(t.records[..n]) && Sends(t, status, now, c.intervals.update, k)
  {
    if n > 0 {
      var r := t.records[n - 1];
      TargetsAre(c, t, status, now, n - 1);
      var before, after := Targets(c, t, status, now, n - 1), Targets(c, t, status, now, n);
      assert t.records[..n] == t.records[..n - 1] + [r];
      forall k ensures Aims(after, k) <==> k in Tokens(t.records[..n]) && Sends(t, status, now, c.intervals.update, k) {
        if k == r.updateToken {
          assert r in t.records[..n];
          if Sends(t, status, now, c.intervals.update, k) { assert TargetOf(c, r) in after; }
        } else {
          assert Aims(after, k) <==> Aims(before, k);
          assert k in Tokens(t.records[..n]) <==> k in Tokens(t.records[..n - 1]);
        }
      }
    }
  }

  /** Each target is some registration's own. */
  lemma {:induction false} TargetsCome(c: Context, t: Track, status: Status, now: Instant, n: nat, x: Target)
    requires n <= |t.records| && x in Targets(c, t, status, now, n)
    ensures exists r :: r in t.records[..n] && x == TargetOf(c, r)
  {
    var r := t.records[n - 1];
    assert t.records[..n] == t.records[..n - 1] + [r];
    if x in Targets(c, t, status, now, n - 1) {
      TargetsCome(c, t, status, now, n - 1, x);
    } else {
      assert r in t.records[..n] && x == TargetOf(c, r);
    }
  }

  function AllTargets(c: Context, records: seq<Record>): seq<Target> {
    seq(|records|, i requires 0 <= i < |records| => TargetOf(c, records[i]))
  }

  /** The targets come in the order of the registrations. */
  lemma {:induction false} TargetsInOrder(c: Context, t: Track, status: Status, now: Instant, n: nat)
    requires n <= |t.records|
    ensures IsSubsequence(Targets(c, t, status, now, n), AllTargets(c, t.records[..n]))
  {
    if n > 0 {
      var whole := AllTargets(c, t.records[..n]);
      TargetsInOrder(c, t, status, now, n - 1);
      assert whole[..n - 1] == AllTargets(c, t.records[..n - 1]);
      var before, ts := Targets(c, t, status, now, n - 1), Targets(c, t, status, now, n);
      assert ts == before || ts[..|ts| - 1] == before;
    }
  }

  ghost predicate DistinctTargets(ts: seq<Target>) {
    forall i, j :: 0 <= i < j < |ts| ==> ts[i].token != ts[j].token
  }

  lemma OneMoreTarget(ts: seq<Target>, x: Target)
    requires DistinctTargets(ts) && !Aims(ts, x.token)
    ensures DistinctTargets(ts + [x])
  {
    forall i | 0 <= i < |ts| ensures ts[i].token != x.token { assert ts[i] in ts; }
  }

  lemma NotAimedAtBefore(c: Context, t: Track, status: Status, now: Instant, n: nat)
    requires n < |t.records| && DistinctTokens(t.records)
    ensures !Aims(Targets(c, t, status, now, n), t.records[n].updateToken)
  {
    TargetsAre(c, t, status, now, n);
    assert t.records[n].updateToken !in Tokens(t.records[..n]);
  }

  /** With distinct registrations, one pass never aims at a token twice. */
  lemma {:induction false} TargetsAreDistinct(c: Context, t: Track, status: Status, now: Instant, n: nat)
    requires n <= |t.records| && DistinctTokens(t.records)
    ensures DistinctTargets(Targets(c, t, status, now, n))
  {
    if n > 0 {
      TargetsAreDistinct(c, t, status, now, n - 1);
      NotAimedAtBefore(c, t, status, now, n - 1);
      OneMoreTarget(Targets(c, t, status, now, n - 1), TargetOf(c, t.records[n - 1]));
      assert Targets(c, t, status, now, n - 1) + [] == Targets(c, t, status, now, n - 1);
    }
  }

  /** Stamping touches the targeted tokens and no other. */
  lemma {:induction false} StampAt(sent: map<Token, Delivered>, targets: seq<Target>, d: Delivered, k: Token)
    ensures Aims(targets, k) ==> k in Stamp(sent, targets, d) && Stamp(sent, targets, d)[k] == d
    ensures !Aims(targets, k) ==>
              && (k in Stamp(sent, targets, d) <==> k in sent)
              && (k in sent ==> Stamp(sent, targets, d)[k] == sent[k])
  {
    if targets != [] {
      var init, last := targets[..|targets| - 1], targets[|targets| - 1];
      StampAt(sent, init, d, k);
      assert targets == init + [last];
      if Aims(init, k) {
        var x :| x in init && x.token == k;
        assert x in targets;
      }
    }
  }

  /** The next wake-up is the earliest instant at which a throttled registration comes due. */
  lemma {:induction false} NextDueIs(c: Context, t: Track, status: Status, now: Instant, n: nat)
    requires n <= |t.records|
    ensures var next := NextDue(c, t, status, now, n);
            && (next.None? <==>
                  forall k :: k in Tokens(t.records[..n]) ==> !Throttled(t, status, now, c.intervals.update, k))
            && (next.Some? ==>
                  && now < next.value
                  && exists k :: k in Tokens(t.records[..n]) && Throttled(t, status, now, c.intervals.update, k) &&
                                 next.value == t.lastSent[k].at + c.intervals.update)
            && (forall k :: k in Tokens(t.records[..n]) && Throttled(t, status, now, c.intervals.update, k) ==>
                  next.Some? && next.value <= t.lastSent[k].at + c.intervals.update)
  {
    if n > 0 {
      NextDueIs(c, t, status, now, n - 1);
      var r := t.records[n - 1];
      assert t.records[..n] == t.records[..n - 1] + [r];
      assert r in t.records[..n];
      assert Tokens(t.records[..n]) == Tokens(t.records[..n - 1]) + {r.updateToken};
    }
  }

  /** The registrations that do not have the newest view yet. */
  function Behind(t: Track): set<Token> {
    set k | k in Tokens(t.records) && !UpToDate(t, k)
  }

  /** What a pass over `t` at `now` does, token by token. */
  ghost predicate PassEffect(
    t: Track, v: View, now: Instant, w: nat, targets: seq<Target>, sent: map<Token, Delivered>)
  {
    && (forall k :: Aims(targets, k) <==> k in Tokens(t.records) && Sends(t, v.status, now, w, k))
    && (DistinctTokens(t.records) ==> DistinctTargets(targets))
    && (forall k :: k in sent <==> Aims(targets, k) || k in t.lastSent)
    && (forall k :: k in sent ==>
          sent[k] == if Aims(targets, k) then Delivered(now, v.status, t.pendingSeq) else t.lastSent[k])
  }

  lemma StampedEffect(c: Context, t: Track, v: View, now: Instant)
    ensures var targets := Targets(c, t, v.status, now, |t.records|);
            PassEffect(t, v, now, c.intervals.update, targets,
                       Stamp(t.lastSent, targets, Delivered(now, v.status, t.pendingSeq)))
  {
    var targets := Targets(c, t, v.status, now, |t.records|);
    assert t.records[..|t.records|] == t.records;
    TargetsAre(c, t, v.status, now, |t.records|);
    if DistinctTokens(t.records) { TargetsAreDistinct(c, t, v.status, now, |t.records|); }
    var d := Delivered(now, v.status, t.pendingSeq);
    forall k { StampAt(t.lastSent, targets, d, k); }
  }

  function SentTo(p: Pass): seq<Target> { if p.send.Some? then p.send.value.1 else [] }

  lemma DeliverUnfolds(c: Context, t: Track, fromTimer: bool, now: Instant)
    requires t.pending.Some?
    ensures var p := Deliver(c, t, fromTimer, now);
            && p.track.records == t.records && p.track.pendingSeq == t.pendingSeq && p.track.fetchedAt == t.fetchedAt
            && SentTo(p) == Targets(c, t, t.pending.value.status, now, |t.records|)
            && p.track.lastSent == Stamp(t.lastSent, SentTo(p), Delivered(now, t.pending.value.status, t.pendingSeq))
            && (p.send.Some? ==> p.send.value.0 == t.pending.value)
  {
  }

  lemma StepUnfolds(c: Context, t0: Track, event: Option<View>, fromTimer: bool, now: Instant)
    ensures var t := Admit(t0, Incoming(c, t0, event, fromTimer));
            var p := Step(c, t0, event, fromTimer, now);
            && p.track.records == t.records && p.track.pendingSeq == t.pendingSeq && p.track.fetchedAt == t.fetchedAt
            && (t.pending.None? ==> p.send.None? && p.track.lastSent == t.lastSent)
            && (t.pending.Some? ==>
                  && SentTo(p) == Targets(c, t, t.pending.value.status, now, |t.records|)
                  && p.track.lastSent ==
                     Stamp(t.lastSent, SentTo(p), Delivered(now, t.pending.value.status, t.pendingSeq))
                  && (p.send.Some? ==> p.send.value.0 == t.pending.value))
  {
    var t := Admit(t0, Incoming(c, t0, event, fromTimer));
    if t.pending.Some? { DeliverUnfolds(c, t, fromTimer, now); }
  }

  /** Whatever a pass sends goes to a registration's own device and environment, under its own app's topic. */
  lemma SendsToOwnTarget(c: Context, t0: Track, event: Option<View>, fromTimer: bool, now: Instant, x: Target)
    requires x in SentTo(Step(c, t0, event, fromTimer, now))
    ensures exists r ::
      && r in t0.records
      && x.token == r.updateToken && x.deviceToken == r.deviceToken && x.env == r.env
      && x.topic == (if r.deviceToken in c.bundleIds then c.bundleIds[r.deviceToken] else c.defaultTopic)
                    + ".push-type.liveactivity"
  {
    var t := Admit(t0, Incoming(c, t0, event, fromTimer));
    StepUnfolds(c, t0, event, fromTimer, now);
    TargetsCome(c, t, t.pending.value.status, now, |t.records|, x);
    assert t.records[..|t.records|] == t.records;
  }

  /**
   The view a pass sends or leaves pending. An event's view keeps its own id, status and durable part, and takes
   the reader's numbers exactly while both views are live; the timer takes the reader's view while what is
   pending is progressing, and counts it as new exactly when it differs.
   */
  lemma WhatIsShown(c: Context, t0: Track, event: Option<View>, fromTimer: bool, now: Instant, v: View)
    requires var p := Step(c, t0, event, fromTimer, now);
             (p.send.Some? && p.send.value.0 == v) || p.track.pending == Some(v)
    ensures event.Some? ==>
              && v.id == event.value.id && v.status == event.value.status && v.durable == event.value.durable
              && v.progress == (
                   if && c.hasReader && event.value.status in {Downloading, Postprocessing}
                      && c.live.Some? && c.live.value.status !in {Finished, Failed, Canceled}
                   then c.live.value.progress
                   else event.value.progress)
    ensures event.None? ==>
              && t0.pending.Some?
              && v == if && fromTimer && c.hasReader && t0.pending.value.status in {Downloading, Postprocessing}
                         && c.live.Some?
                      then c.live.value
                      else t0.pending.value
    ensures Step(c, t0, event, fromTimer, now).track.pendingSeq ==
            t0.pendingSeq + if event.Some? || Some(v) != t0.pending then 1 else 0
  {
    StepUnfolds(c, t0, event, fromTimer, now);
  }

  lemma StepEffect(c: Context, t0: Track, event: Option<View>, fromTimer: bool, now: Instant)
    ensures var t := Admit(t0, Incoming(c, t0, event, fromTimer));
            var p := Step(c, t0, event, fromTimer, now);
            && p.track.records == t.records && p.track.pendingSeq == t.pendingSeq && p.track.fetchedAt == t.fetchedAt
            && (t.pending.None? ==> p.send.None? && p.track.lastSent == t.lastSent)
            && (t.pending.Some? ==>
                  && PassEffect(t, t.pending.value, now, c.intervals.update, SentTo(p), p.track.lastSent)
                  && (p.send.Some? ==> p.send.value.0 == t.pending.value))
  {
    var t := Admit(t0, Incoming(c, t0, event, fromTimer));
    StepUnfolds(c, t0, event, fromTimer, now);
    if t.pending.Some? { StampedEffect(c, t, t.pending.value, now); }
  }
}

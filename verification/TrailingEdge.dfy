/**
 The trailing-edge timer: it sleeps to the next due instant, re-reads the registrations, makes one
 pass, and stops when the pass asks for no further wake-up.
 */
module TrailingEdge {
  import opened Prelude
  import opened LiveActivity

  /** The cached registrations are older than one throttle window. */
  predicate RecordsStale(c: Context, t: Track, now: Instant) {
    t.fetchedAt.None? || now >= t.fetchedAt.value + c.intervals.update
  }

  /** A wake-up's re-read; a failed one leaves the cache as it is. */
  function Refresh(c: Context, t: Track, readable: bool, now: Instant): Track {
    if RecordsStale(c, t, now) && readable then StoreRecords(t, t.records, now) else t
  }

  /** A timer waits on `t` for the earliest of the registrations that are behind. */
  ghost predicate Armed(c: Context, t: Track, due: Instant) {
    && t.pending.Some? && t.timerArmed
    && (forall k :: k in Behind(t) ==> k in t.lastSent && t.lastSent[k].status == t.pending.value.status)
    && IsEarliest(c, t, due)
  }

  /** The instant the first of those behind comes due. */
  ghost predicate IsEarliest(c: Context, t: Track, due: Instant) {
    && (forall k :: k in Behind(t) ==> k in t.lastSent && due <= t.lastSent[k].at + c.intervals.update)
    && (exists k :: k in Behind(t) && due == t.lastSent[k].at + c.intervals.update)
  }

  /** The numbers of what is pending keep moving, and there is a reader to ask for them. */
  predicate KeepsMoving(c: Context, t: Track) {
    c.hasReader && t.pending.Some? && IsProgressing(t.pending.value.status)
  }

  lemma RefreshKeepsRegistered(c: Context, t: Track, readable: bool, now: Instant)
    ensures var t' := Refresh(c, t, readable, now);
            && t'.records == t.records && t'.pending == t.pending && t'.pendingSeq == t.pendingSeq
            && t'.timerArmed == t.timerArmed && Behind(t') == Behind(t)
            && (forall k :: k in Tokens(t.records) ==>
                  && (k in t'.lastSent <==> k in t.lastSent)
                  && (k in t.lastSent ==> t'.lastSent[k] == t.lastSent[k]))
  {
    var t' := Refresh(c, t, readable, now);
    assert forall k :: k in Tokens(t.records) ==> (UpToDate(t', k) <==> UpToDate(t, k));
  }

  /** A wake-up works on registrations read at most a window ago, if they can be read, and never reads them sooner. */
  lemma ReadsOncePerWindow(c: Context, t0: Track, readable: bool, now: Instant)
    ensures var t := Step(c, Refresh(c, t0, readable, now), None, true, now).track;
      && (readable ==> t.fetchedAt == Some(now) || (t.fetchedAt.Some? && now < t.fetchedAt.value + c.intervals.update))
      && (t.fetchedAt != t0.fetchedAt ==>
            t.fetchedAt == Some(now) && (t0.fetchedAt.Some? ==> t0.fetchedAt.value + c.intervals.update <= now))
  {
    StepEffect(c, Refresh(c, t0, readable, now), None, true, now);
  }

  /** After a removal the registrations are read again at the next wake-up, however young; nothing else is lost. */
  lemma InvalidatedIsReadAgain(c: Context, t: Track, now: Instant)
    ensures Refresh(c, Invalidate(t), true, now) == StoreRecords(t, t.records, now)
    ensures Invalidate(t).(fetchedAt := t.fetchedAt) == t
  {
  }

  lemma RefreshKeepsArmed(c: Context, t: Track, readable: bool, now: Instant, due: Instant)
    requires Armed(c, t, due)
    ensures Armed(c, Refresh(c, t, readable, now), due)
  {
    RefreshKeepsRegistered(c, t, readable, now);
    var k :| k in Behind(t) && due == t.lastSent[k].at + c.intervals.update;
    var t' := Refresh(c, t, readable, now);
    assert k in Behind(t') && due == t'.lastSent[k].at + c.intervals.update;
  }

  predicate Waits(c: Context, t: Track, now: Instant, k: Token)
    requires t.pending.Some?
  {
    Throttled(t, t.pending.value.status, now, c.intervals.update, k)
  }

  /** A pass with nothing new delivers to everyone behind except those it throttles. */
  lemma QuietWake(c: Context, t: Track, now: Instant)
    requires t.pending.Some? && Incoming(c, t, None, true).None?
    ensures var p := Step(c, t, None, true, now);
            && p.track.records == t.records && p.track.pendingSeq == t.pendingSeq
            && (forall k :: Aims(SentTo(p), k) <==> k in Behind(t) && !Waits(c, t, now, k))
            && (forall k :: k in Behind(p.track) <==> k in Behind(t) && Waits(c, t, now, k))
            && (forall k :: k in Behind(p.track) ==> k in p.track.lastSent && p.track.lastSent[k] == t.lastSent[k])
            && (DistinctTokens(t.records) ==> DistinctTargets(SentTo(p)))
  {
    StepEffect(c, t, None, true, now);
    var p := Step(c, t, None, true, now);
    forall k ensures k in Behind(p.track) <==> k in Behind(t) && Waits(c, t, now, k) {
      if k in Tokens(t.records) && !UpToDate(t, k) && !Waits(c, t, now, k) { assert Aims(SentTo(p), k); }
    }
  }

  /** After a pass, those behind are the ones it found throttled, and it left their last send alone. */
  lemma ThrottledStayBehind(c: Context, t0: Track, event: Option<View>, fromTimer: bool, now: Instant, k: Token)
    ensures var t := Admit(t0, Incoming(c, t0, event, fromTimer));
      var after := Step(c, t0, event, fromTimer, now).track;
      t.pending.Some? ==>
      && (k in Behind(after) <==>
          k in Tokens(t.records) && Throttled(t, t.pending.value.status, now, c.intervals.update, k))
      && (k in Behind(after) ==> k in after.lastSent && after.lastSent[k] == t.lastSent[k])
  {
    var t := Admit(t0, Incoming(c, t0, event, fromTimer));
    StepEffect(c, t0, event, fromTimer, now);
    if t.pending.Some? && k in Tokens(t.records) && Sends(t, t.pending.value.status, now, c.intervals.update, k) {
      assert Aims(SentTo(Step(c, t0, event, fromTimer, now)), k);
    }
  }

  /**
   Whether, and for when, a pass asks to be woken: it goes on exactly while the numbers move or someone is
   behind, keeps what is pending exactly that long, and never arms a second timer beside the first.
   */
  lemma PassGoesOn(c: Context, t0: Track, event: Option<View>, fromTimer: bool, now: Instant)
    ensures var t := Admit(t0, Incoming(c, t0, event, fromTimer));
      var p := Step(c, t0, event, fromTimer, now);
      var goesOn := KeepsMoving(c, t) || (t.pending.Some? && Behind(p.track) != {});
      && p.track.pending == (if goesOn then t.pending else None)
      && p.track.timerArmed == (goesOn || (t0.timerArmed && !fromTimer))
      && (p.arm.Some? <==> goesOn && (fromTimer || !t0.timerArmed))
      && (p.arm.Some? ==>
            if Behind(p.track) == {} then p.arm.value == now + c.intervals.progress
            else now < p.arm.value && IsEarliest(c, p.track, p.arm.value))
  {
    var t := Admit(t0, Incoming(c, t0, event, fromTimer));
    if t.pending.Some? {
      NextDueIs(c, t, t.pending.value.status, now, |t.records|);
      assert t.records[..|t.records|] == t.records;
      forall k { ThrottledStayBehind(c, t0, event, fromTimer, now, k); }
    }
  }

  /**
   A cancelled timer does not wedge its item: the next event sends what it would have sent, and asks for a timer
   whenever something is left pending.
   */
  lemma DisarmUnwedges(c: Context, t: Track, event: View, now: Instant)
    ensures var p := Step(c, Disarm(t), Some(event), false, now);
      && p.send == Step(c, t, Some(event), false, now).send
      && p.track.pending == Step(c, t, Some(event), false, now).track.pending
      && (p.track.pending.Some? <==> p.arm.Some?) && p.track.timerArmed == p.arm.Some?
  {
    PassGoesOn(c, Disarm(t), Some(event), false, now);
    var admitted := Admit(t, Some(Freshen(c, event)));
    assert Admit(Disarm(t), Some(Freshen(c, event))) == Disarm(admitted);
    DisarmedAlike(c, admitted, event.status, now, |t.records|);
  }

  lemma {:induction false} DisarmedAlike(c: Context, t: Track, status: Status, now: Instant, n: nat)
    requires n <= |t.records|
    ensures Targets(c, Disarm(t), status, now, n) == Targets(c, t, status, now, n)
    ensures NextDue(c, Disarm(t), status, now, n) == NextDue(c, t, status, now, n)
  {
    if n > 0 { DisarmedAlike(c, t, status, now, n - 1); }
  }

  lemma WaitersShareTheStatus(c: Context, t0: Track, event: Option<View>, fromTimer: bool, now: Instant)
    ensures var after := Step(c, t0, event, fromTimer, now).track;
      after.pending.Some? ==>
      forall k :: k in Behind(after) ==> k in after.lastSent && after.lastSent[k].status == after.pending.value.status
  {
    PassGoesOn(c, t0, event, fromTimer, now);
    forall k { ThrottledStayBehind(c, t0, event, fromTimer, now, k); }
  }

  /** Any wake-up shares those behind between the sent and the throttled, and re-arms for the earliest of these. */
  lemma AnyWake(c: Context, t: Track, now: Instant)
    requires t.pending.Some? && !KeepsMoving(c, t)
    ensures var p := Step(c, t, None, true, now);
            && Behind(p.track) <= Behind(t)
            && (forall k :: Aims(SentTo(p), k) <==> k in Behind(t) && k !in Behind(p.track))
            && (p.arm.Some? ==> Armed(c, p.track, p.arm.value))
            && (p.arm.None? ==> Behind(p.track) == {} && p.track.pending.None? && !p.track.timerArmed)
  {
    QuietWake(c, t, now);
    PassGoesOn(c, t, None, true, now);
    WaitersShareTheStatus(c, t, None, true, now);
  }

  /** A wake-up at its due instant delivers to at least one registration. */
  lemma DueWake(c: Context, t: Track, due: Instant, now: Instant)
    requires Armed(c, t, due) && due <= now && !KeepsMoving(c, t)
    ensures Behind(Step(c, t, None, true, now).track) < Behind(t)
  {
    AnyWake(c, t, now);
    QuietWake(c, t, now);
    var k :| k in Behind(t) && due == t.lastSent[k].at + c.intervals.update;
    assert !Waits(c, t, now, k);
  }

  ghost predicate NoRepeats(s: seq<Token>) {
    forall i, j :: 0 <= i < j < |s| ==> s[i] != s[j]
  }

  function TokenSeq(targets: seq<Target>): (r: seq<Token>)
    ensures |r| == |targets|
  {
    seq(|targets|, i requires 0 <= i < |targets| => targets[i].token)
  }

  lemma PushedGrows(pushed: seq<Token>, targets: seq<Target>)
    requires NoRepeats(pushed) && DistinctTargets(targets) && forall k :: k in pushed ==> !Aims(targets, k)
    ensures NoRepeats(pushed + TokenSeq(targets))
    ensures forall k :: k in pushed + TokenSeq(targets) <==> k in pushed || Aims(targets, k)
  {
    var all, new' := pushed + TokenSeq(targets), TokenSeq(targets);
    forall i | 0 <= i < |new'| ensures Aims(targets, new'[i]) { assert targets[i] in targets; }
    forall k | Aims(targets, k) ensures k in new' {
      var x :| x in targets && x.token == k;
      var i :| 0 <= i < |targets| && targets[i] == x;
      assert new'[i] == k;
    }
    forall i, j | 0 <= i < j < |all| ensures all[i] != all[j] {
      if i < |pushed| <= j { assert all[i] in pushed && Aims(targets, all[j]); }
      else if |pushed| <= i { assert all[i] == targets[i - |pushed|].token && all[j] == targets[j - |pushed|].token; }
    }
  }

  /** Some registration is behind and not throttled. */
  ghost predicate SomeoneToServe(c: Context, t: Track, now: Instant)
    requires t.pending.Some?
  {
    exists k :: k in Behind(t) && !Waits(c, t, now, k)
  }

  lemma RefreshServesAlike(c: Context, t: Track, readable: bool, now: Instant)
    requires t.pending.Some?
    ensures SomeoneToServe(c, Refresh(c, t, readable, now), now) <==> SomeoneToServe(c, t, now)
  {
    RefreshKeepsRegistered(c, t, readable, now);
    var t' := Refresh(c, t, readable, now);
    forall k | k in Behind(t) ensures Waits(c, t', now, k) <==> Waits(c, t, now, k) {
      assert k in Tokens(t.records);
    }
  }

  /** One wake-up's worth of progress: who is left, and how the timer goes on. */
  lemma WakeProgress(c: Context, t: Track, at: Instant, now: Instant)
    requires t.pending.Some? && !KeepsMoving(c, t) && at <= now
    ensures var p := Step(c, t, None, true, now);
            && Behind(p.track) <= Behind(t) && |Behind(p.track)| <= |Behind(t)|
            && (Armed(c, t, at) ==> |Behind(p.track)| < |Behind(t)|)
            && (|Behind(p.track)| < |Behind(t)| <==> SomeoneToServe(c, t, now))
  {
    AnyWake(c, t, now);
    QuietWake(c, t, now);
    var left := Behind(Step(c, t, None, true, now).track);
    assert left + (Behind(t) - left) == Behind(t);
    if SomeoneToServe(c, t, now) {
      FewerLeft(left, Behind(t));
    } else {
      assert left == Behind(t);
    }
    if Armed(c, t, at) {
      DueWake(c, t, at, now);
    }
  }

  /** One wake-up: re-read the registrations if they are stale and readable, and make one pass. */
  method WakeOnce(c: Context, t0: Track, ghost at: Instant, now: Instant, readable: bool)
    returns (t: Track, sent: seq<Token>, arm: Option<Instant>)
    requires !KeepsMoving(c, t0) && DistinctTokens(t0.records) && at <= now
    ensures t.records == t0.records && Behind(t) <= Behind(t0) && |Behind(t)| <= |Behind(t0)|
    ensures t.pending.None? || t.pending == t0.pending
    ensures t == Step(c, Refresh(c, t0, readable, now), None, true, now).track
    ensures NoRepeats(sent) && forall k :: k in sent <==> k in Behind(t0) && k !in Behind(t)
    ensures Armed(c, t0, at) ==> |Behind(t)| < |Behind(t0)|
    ensures t0.pending.Some? ==> (|Behind(t)| < |Behind(t0)| <==> SomeoneToServe(c, t0, now))
    ensures if arm.Some? then Armed(c, t, arm.value) else t.pending.None? && !t.timerArmed
    ensures t0.pending.Some? && arm.None? ==> Behind(t) == {}
    ensures t0.pending.None? ==> arm.None? && Behind(t) == Behind(t0) && sent == []
  {
    RefreshKeepsRegistered(c, t0, readable, now);
    if Armed(c, t0, at) { RefreshKeepsArmed(c, t0, readable, now, at); }
    t := Refresh(c, t0, readable, now);
    var p := Step(c, t, None, true, now);
    if t.pending.Some? {
      RefreshServesAlike(c, t0, readable, now);
      AnyWake(c, t, now);
      PassGoesOn(c, t, None, true, now);
      WakeProgress(c, t, at, now);
      assert DistinctTargets(SentTo(p)) by { QuietWake(c, t, now); }
    } else {
      assert Behind(p.track) == Behind(t);
    }
    sent := TokenSeq(SentTo(p));
    PushedGrows([], SentTo(p));
    assert [] + sent == sent;
    t, arm := p.track, p.arm;
  }

  lemma RepeatsNothing(pushed: seq<Token>, sent: seq<Token>)
    requires NoRepeats(pushed) && NoRepeats(sent) && forall k :: k in pushed ==> k !in sent
    ensures NoRepeats(pushed + sent)
  {
    var all := pushed + sent;
    forall i, j | 0 <= i < j < |all| ensures all[i] != all[j] {
      if i < |pushed| <= j { assert all[i] in pushed && all[j] in sent; }
    }
  }

  /**
   The timer loop with fixed registrations and no reader, from any state of the item and any deadline,
   for any scheduling delay and any pattern of failed re-reads. It stops by itself, having sent what was
   pending to each registration behind once and to no one else. It takes no more wake-ups than there were
   registrations behind if someone can be served when it first wakes, as when it was armed for those behind,
   and at most one more otherwise.
   */
  method RunTimer(c: Context, t0: Track, deadline: Instant, late: nat -> nat, readable: nat -> bool)
    returns (t: Track, wakeUps: nat, pushed: seq<Token>)
    requires !KeepsMoving(c, t0) && DistinctTokens(t0.records)
    ensures wakeUps <= |Behind(t0)| + 1
    ensures Armed(c, t0, deadline) ==> wakeUps <= |Behind(t0)|
    ensures t0.pending.Some? && SomeoneToServe(c, t0, deadline + late(0)) ==> wakeUps <= |Behind(t0)|
    ensures t.records == t0.records && t.pending.None? && !t.timerArmed
    ensures NoRepeats(pushed)
    ensures t0.pending.Some? ==> Behind(t) == {} && forall k :: k in pushed <==> k in Behind(t0)
    ensures t0.pending.None? ==> Behind(t) == Behind(t0) && pushed == []
  {
    t, wakeUps, pushed := t0, 0, [];
    var at: Option<Instant> := Some(deadline);
    ghost var spare :=
      if Armed(c, t0, deadline) || (t0.pending.Some? && SomeoneToServe(c, t0, deadline + late(0))) then 0 else 1;
    while at.Some?
      invariant t.records == t0.records && Behind(t) <= Behind(t0) && !KeepsMoving(c, t)
      invariant NoRepeats(pushed) && forall k :: k in pushed <==> k in Behind(t0) && k !in Behind(t)
      invariant if wakeUps == 0 then t == t0 && at == Some(deadline)
                else if at.Some? then Armed(c, t, at.value)
                else t.pending.None? && !t.timerArmed
      invariant wakeUps > 0 ==> wakeUps + |Behind(t)| <= |Behind(t0)| + spare
      invariant t0.pending.Some? && at.None? ==> Behind(t) == {}
      invariant t0.pending.None? ==> pushed == [] && (wakeUps > 0 ==> at.None? && Behind(t) == Behind(t0))
      decreases wakeUps == 0, |Behind(t)|
    {
      var sent;
      var woken := at.value + late(wakeUps);
      t, sent, at := WakeOnce(c, t, at.value, woken, readable(wakeUps));
      RepeatsNothing(pushed, sent);
      pushed, wakeUps := pushed + sent, wakeUps + 1;
    }
  }

  /** A timer that was armed before the events that now count is woken once for nothing. */
  lemma EventsMoveTheDueInstant(c: Context, r: Record, a: View, b: View)
    requires !c.hasReader && c.intervals.update == 2000 && a.status.Downloading? && b.status.Postprocessing?
    ensures
      var t0 := StoreRecords(NEW_TRACK, [r], 0);
      var first := Step(c, t0, Some(a), false, 0);
      var armed := Step(c, first.track, Some(a), false, 1000);
      var moved := Step(c, armed.track, Some(b), false, 1200);
      var late := Step(c, moved.track, Some(b), false, 1500);
      var idle := Step(c, late.track, None, true, 2000);
      var last := Step(c, idle.track, None, true, 3200);
      && first.send.Some? && armed.arm == Some(2000) && moved.send.Some? && moved.arm == late.arm == None
      && late.track.timerArmed && |Behind(late.track)| == 1 && !Armed(c, late.track, 2000)
      && idle.send.None? && idle.arm == Some(3200)
      && last.send.Some? && last.arm.None? && Behind(last.track) == {}
  {
    var t0 := StoreRecords(NEW_TRACK, [r], 0);
    var t1 := OnePass(c, r, t0, Some(a), false, 0);
    var t2 := OnePass(c, r, t1, Some(a), false, 1000);
    var t3 := OnePass(c, r, t2, Some(b), false, 1200);
    var t4 := OnePass(c, r, t3, Some(b), false, 1500);
    var t5 := OnePass(c, r, t4, None, true, 2000);
    var t6 := OnePass(c, r, t5, None, true, 3200);
  }

  lemma OneTarget(c: Context, r: Record, t: Track, status: Status, now: Instant, d: Delivered)
    requires t.records == [r]
    ensures var target := TargetOf(c, t.records[0]);
      && Targets(c, t, status, now, 1) ==
         (if Sends(t, status, now, c.intervals.update, r.updateToken) then [target] else [])
      && NextDue(c, t, status, now, 1) ==
         (if Throttled(t, status, now, c.intervals.update, r.updateToken)
          then Some(t.lastSent[r.updateToken].at + c.intervals.update)
          else None)
      && Stamp(t.lastSent, [], d) == t.lastSent && Stamp(t.lastSent, [target], d) == t.lastSent[r.updateToken := d]
  {
    var target := TargetOf(c, t.records[0]);
    assert Targets(c, t, status, now, 0) == [] && NextDue(c, t, status, now, 0) == None;
    assert [target][..0] == [];
  }

  lemma OneBehind(r: Record, t: Track)
    requires t.records == [r]
    ensures Behind(t) == if UpToDate(t, r.updateToken) then {} else {r.updateToken}
  {
    assert t.records[0] in t.records;
    assert Tokens(t.records) == {r.updateToken};
  }

  lemma OneDelivery(c: Context, r: Record, a: Track, fromTimer: bool, now: Instant)
    requires !c.hasReader && a.records == [r] && a.pending.Some?
    ensures var p := Deliver(c, a, fromTimer, now);
      var status := a.pending.value.status;
      if Throttled(a, status, now, c.intervals.update, r.updateToken) then
        && p.send.None?
        && p.arm == (if fromTimer || !a.timerArmed
                     then Some(a.lastSent[r.updateToken].at + c.intervals.update) else None)
        && p.track == a.(timerArmed := true)
      else
        && (p.send.Some? <==> !UpToDate(a, r.updateToken)) && p.arm.None?
        && p.track == a.(
             lastSent := if UpToDate(a, r.updateToken) then a.lastSent
                         else a.lastSent[r.updateToken := Delivered(now, status, a.pendingSeq)],
             pending := None, timerArmed := if fromTimer then false else a.timerArmed)
  {
    OneTarget(c, r, a, a.pending.value.status, now, Delivered(now, a.pending.value.status, a.pendingSeq));
  }

  /** A pass over an item with one registration. */
  lemma OnePass(c: Context, r: Record, t: Track, event: Option<View>, fromTimer: bool, now: Instant) returns (t': Track)
    requires !c.hasReader && t.records == [r]
    requires event.Some? || t.pending.Some?
    ensures t' == Step(c, t, event, fromTimer, now).track && t'.records == t.records
    ensures Behind(t') == (if UpToDate(t', r.updateToken) then {} else {r.updateToken})
    ensures var a := Admit(t, event);
      var p := Step(c, t, event, fromTimer, now);
      var status := a.pending.value.status;
      if Throttled(a, status, now, c.intervals.update, r.updateToken) then
        && p.send.None?
        && p.arm == (if fromTimer || !a.timerArmed
                     then Some(a.lastSent[r.updateToken].at + c.intervals.update) else None)
        && t' == a.(timerArmed := true)
      else
        && (p.send.Some? <==> !UpToDate(a, r.updateToken)) && p.arm.None?
        && t' == a.(
             lastSent := if UpToDate(a, r.updateToken) then a.lastSent
                         else a.lastSent[r.updateToken := Delivered(now, status, a.pendingSeq)],
             pending := None, timerArmed := if fromTimer then false else a.timerArmed)
  {
    OneDelivery(c, r, Admit(t, event), fromTimer, now);
    t' := Step(c, t, event, fromTimer, now).track;
    OneBehind(r, t');
  }

  lemma FewerLeft(a: set<Token>, b: set<Token>)
    requires a < b
    ensures |a| < |b|
  {
    var k :| k in b && k !in a;
    assert b == a + (b - a);
    assert |b - a| > 0 by { assert k in b - a; }
  }

  /** A pass over what has stopped moving, if it asks for a timer, leaves the item as the timer loop expects it. */
  lemma PassArms(c: Context, t0: Track, event: Option<View>, fromTimer: bool, now: Instant)
    requires Step(c, t0, event, fromTimer, now).arm.Some?
    requires !KeepsMoving(c, Admit(t0, Incoming(c, t0, event, fromTimer)))
    ensures var p := Step(c, t0, event, fromTimer, now); Armed(c, p.track, p.arm.value)
  {
    PassGoesOn(c, t0, event, fromTimer, now);
    WaitersShareTheStatus(c, t0, event, fromTimer, now);
  }

  /** No token has been sent anything later than this, or newer than what the track counts as newest. */
  ghost predicate SentBy(t: Track, now: Instant) {
    forall k :: k in t.lastSent ==> t.lastSent[k].at <= now && t.lastSent[k].seqNo <= t.pendingSeq
  }

  lemma WakeKeepsSentBy(c: Context, t: Track, readable: bool, now: Instant)
    requires SentBy(t, now)
    ensures SentBy(Refresh(c, t, readable, now), now)
    ensures SentBy(Step(c, t, None, true, now).track, now)
  {
    StepEffect(c, t, None, true, now);
  }

  /** What a wake-up asks for lies ahead, and not further than the longer interval. */
  predicate Soon(c: Context, now: Instant, due: Instant) {
    now <= due <= now + Max(c.intervals.update, c.intervals.progress)
  }

  /**
   While the numbers move, and the reader's answer, if it gives one, moves too, a wake-up keeps something
   pending, keeps the timer, and comes back soon: after the progress interval when it leaves nobody behind.
   */
  lemma PullGoesOn(c: Context, t: Track, now: Instant)
    requires KeepsMoving(c, t) && (c.live.Some? ==> IsProgressing(c.live.value.status)) && SentBy(t, now)
    ensures var p := Step(c, t, None, true, now);
      && KeepsMoving(c, p.track) && p.track.timerArmed
      && p.arm.Some? && Soon(c, now, p.arm.value)
      && (Behind(p.track) == {} ==> p.arm.value == now + c.intervals.progress)
  {
    PassGoesOn(c, t, None, true, now);
    WakeKeepsSentBy(c, t, false, now);
  }

  lemma ArmsSoon(c: Context, t: Track, now: Instant)
    requires SentBy(t, now) && Step(c, t, None, true, now).arm.Some?
    ensures Soon(c, now, Step(c, t, None, true, now).arm.value)
  {
    PassGoesOn(c, t, None, true, now);
    WakeKeepsSentBy(c, t, false, now);
  }

  /** With a reader that keeps answering the same, nothing new is found after the first look. */
  ghost predicate Settled(c: Context, t: Track) {
    Refreshed(c, t).None?
  }

  lemma LookOnceSettles(c: Context, t: Track, now: Instant)
    ensures Settled(c, Step(c, t, None, true, now).track)
    ensures Settled(c, t) ==> Step(c, t, None, true, now).track.pendingSeq == t.pendingSeq
  {
  }

  /** After a pass, whoever is behind what is still pending is throttled. */
  lemma StillBehindWaits(c: Context, t0: Track, event: Option<View>, fromTimer: bool, now: Instant)
    ensures var after := Step(c, t0, event, fromTimer, now).track;
      after.pending.Some? ==> forall k :: k in Behind(after) ==> Waits(c, after, now, k)
  {
    var t, after := Admit(t0, Incoming(c, t0, event, fromTimer)), Step(c, t0, event, fromTimer, now).track;
    PassGoesOn(c, t0, event, fromTimer, now);
    if after.pending.Some? {
      forall k | k in Behind(after) ensures Waits(c, after, now, k) {
        ThrottledStayBehind(c, t0, event, fromTimer, now, k);
      }
    }
  }

  /** The reader's answers at the successive wake-ups. */
  type Answers = nat -> Option<View>

  ghost predicate Moving(live: Answers) {
    forall n :: live(n).Some? ==> IsProgressing(live(n).value.status)
  }

  ghost predicate Constant(live: Answers) {
    forall n :: live(n) == live(0)
  }

  /** Each wake-up comes soon after the last, but for its scheduling delay. */
  ghost predicate Paced(c: Context, deadline: Instant, woken: seq<Instant>, late: nat -> nat) {
    && (woken != [] ==> woken[0] == deadline + late(0))
    && (forall i :: 0 < i < |woken| ==> Soon(c, woken[i - 1], woken[i] - late(i)))
  }

  lemma PaceGoesOn(c: Context, deadline: Instant, woken: seq<Instant>, late: nat -> nat, due: Instant)
    requires Paced(c, deadline, woken, late)
    requires if woken == [] then due == deadline else Soon(c, woken[|woken| - 1], due)
    ensures Paced(c, deadline, woken + [due + late(|woken|)], late)
  {
    var all := woken + [due + late(|woken|)];
    forall i | 0 < i < |all| ensures Soon(c, all[i - 1], all[i] - late(i)) {
      if i < |woken| { assert all[i - 1] == woken[i - 1] && all[i] == woken[i]; }
    }
  }

  /** Whom a pass sends to: each at most once, and no one who has what a settled reader would show. */
  lemma PulledTokens(c: Context, t: Track, now: Instant)
    requires DistinctTokens(t.records)
    ensures var p := Step(c, t, None, true, now);
      var sent := TokenSeq(SentTo(p));
      && NoRepeats(sent) && (forall k :: k in sent ==> k in Tokens(t.records) && UpToDate(p.track, k))
      && (Settled(c, t) ==>
            forall k :: k in Tokens(t.records) && UpToDate(t, k) ==> k !in sent && UpToDate(p.track, k))
      && (SentBy(t, now) ==>
            forall k :: UpToDate(p.track, k) && k !in sent ==> UpToDate(t, k) && p.track.pendingSeq == t.pendingSeq)
  {
    var p := Step(c, t, None, true, now);
    StepEffect(c, t, None, true, now);
    PushedGrows([], SentTo(p));
    assert [] + TokenSeq(SentTo(p)) == TokenSeq(SentTo(p));
  }

  /** How the timer goes on after a wake-up with a reader. */
  lemma PulledTimer(c: Context, t: Track, now: Instant)
    requires SentBy(t, now)
    ensures var p := Step(c, t, None, true, now);
      && SentBy(p.track, now) && Settled(c, p.track)
      && (p.arm.Some? ==> Soon(c, now, p.arm.value))
      && (KeepsMoving(c, t) && (c.live.Some? ==> IsProgressing(c.live.value.status)) ==>
            p.arm.Some? && p.track.timerArmed && KeepsMoving(c, p.track))
  {
    WakeKeepsSentBy(c, t, false, now);
    LookOnceSettles(c, t, now);
    if Step(c, t, None, true, now).arm.Some? { ArmsSoon(c, t, now); }
    if KeepsMoving(c, t) && (c.live.Some? ==> IsProgressing(c.live.value.status)) { PullGoesOn(c, t, now); }
  }

  /** One wake-up with a reader. */
  method PullOnce(c: Context, t0: Track, now: Instant, readable: bool)
    returns (t: Track, sent: seq<Token>, arm: Option<Instant>)
    requires c.hasReader && DistinctTokens(t0.records) && SentBy(t0, now)
    ensures t.fetchedAt == Refresh(c, t0, readable, now).fetchedAt
    ensures t.records == t0.records && SentBy(t, now) && Settled(c, t)
    ensures arm.Some? ==> Soon(c, now, arm.value)
    ensures t.pending.Some? ==> forall k :: k in Behind(t) ==> Waits(c, t, now, k)
    ensures KeepsMoving(c, t0) && (c.live.Some? ==> IsProgressing(c.live.value.status)) ==>
              arm.Some? && t.timerArmed && KeepsMoving(c, t)
    ensures NoRepeats(sent) && forall k :: k in sent ==> k in Tokens(t.records) && UpToDate(t, k)
    ensures Settled(c, t0) ==>
              forall k :: k in Tokens(t.records) && UpToDate(t0, k) ==> k !in sent && UpToDate(t, k)
    ensures forall k :: k in Tokens(t.records) && UpToDate(t, k) && k !in sent ==>
              UpToDate(t0, k) && t.pendingSeq == t0.pendingSeq
  {
    RefreshKeepsRegistered(c, t0, readable, now);
    WakeKeepsSentBy(c, t0, readable, now);
    t := Refresh(c, t0, readable, now);
    PulledTokens(c, t, now);
    PulledTimer(c, t, now);
    StillBehindWaits(c, t, None, true, now);
    var p := Step(c, t, None, true, now);
    StepKeepsRecords(c, t, None, true, now);
    t, sent, arm := p.track, TokenSeq(SentTo(p)), p.arm;
  }

  lemma StepKeepsRecords(c: Context, t: Track, event: Option<View>, fromTimer: bool, now: Instant)
    ensures var after := Step(c, t, event, fromTimer, now).track;
      after.records == t.records && after.fetchedAt == t.fetchedAt
  {
  }

  /**
   The timer loop with a reader, for any answers, over any number of wake-ups. While the item and the answers
   are progressing it never stops, and comes back each time within the longer interval. Whatever it leaves
   pending is the reader's last view, and whoever is behind it is throttled. Once the reader answers with a
   view that is not progressing the numbers have stopped, and the loop ends as `RunTimer` says. If the
   reader keeps answering the same, no registration gets more than one push; and none comes to have a view
   it did not have without one.
   */
  method RunTimerWithReader(
    c: Context, live: Answers, t0: Track, deadline: Instant, late: nat -> nat, readable: nat -> bool, most: nat)
    returns (t: Track, at: Option<Instant>, woken: seq<Instant>, pushed: seq<Token>)
    requires c.hasReader && DistinctTokens(t0.records) && SentBy(t0, deadline)
    ensures t.records == t0.records && |woken| <= most
    ensures at.Some? ==> |woken| == most
    ensures KeepsMoving(c, t0) && Moving(live) ==>
              at.Some? && KeepsMoving(c, t) && (woken != [] ==> t.timerArmed)
    ensures Paced(c, deadline, woken, late)
    ensures woken != [] && t.pending.Some? ==> forall k :: k in Behind(t) ==> Waits(c, t, woken[|woken| - 1], k)
    ensures woken != [] && KeepsMoving(c, t) && live(|woken| - 1).Some? ==> t.pending == live(|woken| - 1)
    ensures Constant(live) ==> NoRepeats(pushed)
    ensures forall k :: k in Tokens(t.records) && UpToDate(t, k) ==>
              k in pushed || (UpToDate(t0, k) && t.pendingSeq == t0.pendingSeq)
  {
    t, at, woken, pushed := t0, Some(deadline), [], [];
    while |woken| < most && at.Some?
      invariant |woken| <= most && t.records == t0.records
      invariant at.Some? ==> SentBy(t, at.value)
      invariant KeepsMoving(c, t0) && Moving(live) ==>
                  at.Some? && KeepsMoving(c, t) && (woken != [] ==> t.timerArmed)
      invariant at.Some? ==> if woken == [] then at.value == deadline else Soon(c, woken[|woken| - 1], at.value)
      invariant Paced(c, deadline, woken, late)
      invariant woken != [] && t.pending.Some? ==> forall k :: k in Behind(t) ==> Waits(c, t, woken[|woken| - 1], k)
      invariant woken != [] ==> Settled(c.(live := live(|woken| - 1)), t)
      invariant woken == [] ==> pushed == [] && t == t0
      invariant Constant(live) ==>
                  NoRepeats(pushed) && forall k :: k in pushed ==> k in Tokens(t.records) && UpToDate(t, k)
      invariant forall k :: k in Tokens(t.records) && UpToDate(t, k) ==>
                  k in pushed || (UpToDate(t0, k) && t.pendingSeq == t0.pendingSeq)
      decreases most - |woken|
    {
      var now := at.value + late(|woken|);
      PaceGoesOn(c, deadline, woken, late, at.value);
      ghost var n := |woken|;
      assert Constant(live) && n > 0 ==> live(n - 1) == live(n);
      var sent;
      t, sent, at := PullOnce(c.(live := live(|woken|)), t, now, readable(|woken|));
      if Constant(live) { RepeatsNothing(pushed, sent); }
      pushed, woken := pushed + sent, woken + [now];
    }
  }
}

/**
 The notifier's shared memory as an object: each method is one critical section under the state
 lock, proved against the item-level and timestamp-level functions the run theorems are about.
 */
module Notifier {
  import opened Prelude
  import LA = LiveActivity
  import T = Timestamps

  const MAX_INFLIGHT_TASKS: nat := 256

  class Shared {
    const intervals: LA.Intervals
    const hasReader: bool
    const defaultTopic: string
    var started: set<T.ItemId>
    var items: map<T.ItemId, LA.Track>
    var bundleIds: map<T.Token, string>
    var bundleIdsAt: Option<LA.Instant>
    var startTs: map<T.Token, int>
    var activityTs: map<T.Token, int>
    var startedTs: map<T.ItemId, int>
    var ended: set<T.ItemId>

    constructor (intervals: LA.Intervals, hasReader: bool, defaultTopic: string)
      ensures items == map[] && bundleIdsAt.None? && Stamps() == T.EMPTY
    {
      this.intervals, this.hasReader, this.defaultTopic := intervals, hasReader, defaultTopic;
      started, items, bundleIds, bundleIdsAt := {}, map[], map[], None;
      startTs, activityTs, startedTs, ended := map[], map[], map[], {};
    }

    function Stamps(): T.Stamps
      reads this
    {
      T.Stamps(startTs, activityTs, startedTs, ended, started)
    }

    function Context(live: Option<LA.View>): LA.Context
      reads this
    {
      LA.Context(intervals, hasReader, live, bundleIds, defaultTopic)
    }

    // -- the start latch and the timestamps ------------------------------------------

    method MarkStarted(id: T.ItemId) returns (won: bool)
      modifies this`started
      ensures (Stamps(), if won then [T.Latched(id)] else []) == T.Run1(old(Stamps()), T.Latch(id))
    {
      won := id !in started;
      started := started + {id};
    }

    method MarkEnded(id: T.ItemId)
      modifies this`ended
      ensures Stamps() == T.Run1(old(Stamps()), T.MarkEnded(id)).0
    {
      ended := ended + {id};
    }

    method ClearEnded(id: T.ItemId)
      modifies this`ended
      ensures Stamps() == T.Run1(old(Stamps()), T.ClearEnded(id)).0
    {
      ended := ended - {id};
    }

    /** Drops every trace of these items but the end mark and the tokens' own timestamps. */
    method Forget(ids: seq<T.ItemId>)
      modifies this`started, this`items, this`startedTs
      ensures Stamps() == T.Run1(old(Stamps()), T.Forget(set id | id in ids)).0
      ensures items == old(items) - (set id | id in ids)
    {
      for i := 0 to |ids|
        invariant started == old(started) - (set id | id in ids[..i])
        invariant items == old(items) - (set id | id in ids[..i])
        invariant startedTs == old(startedTs) - (set id | id in ids[..i])
      {
        started := started - {ids[i]};
        items := items - {ids[i]};
        startedTs := startedTs - {ids[i]};
        assert ids[..i + 1] == ids[..i] + [ids[i]];
      }
      assert ids[..|ids|] == ids;
    }

    /** One slot of the activity timestamps. */
    method AllocActivity(key: T.Token, now: int, floor: int) returns (ts: int)
      requires now <= T.I64_MAX
      modifies this`activityTs
      ensures ts == T.NextStamp(old(activityTs), key, now, floor)
      ensures activityTs == old(activityTs)[key := ts]
    {
      var prev := Max(if key in activityTs then activityTs[key] else 0, floor);
      ts := Max(now, T.SaturatingInc(prev));
      activityTs := activityTs[key := ts];
    }

    method ClaimStart(item: T.ItemId, startToken: T.Token, now: int) returns (ts: int)
      requires now <= T.I64_MAX
      modifies this`startTs, this`startedTs
      ensures (Stamps(), [T.Start(item, startToken, ts)]) == T.Run1(old(Stamps()), T.ClaimStart(item, startToken, now))
    {
      ts := Max(now, T.SaturatingInc(Max(if startToken in startTs then startTs[startToken] else 0, 0)));
      startTs := startTs[startToken := ts];
      var floor := if item in startedTs then startedTs[item] else 0;
      startedTs := startedTs[item := Max(floor, ts)];
    }

    method ClaimAll(tokens: seq<T.Token>, now: int, floor: int) returns (stamps: seq<int>)
      requires now <= T.I64_MAX
      modifies this`activityTs
      ensures (activityTs, stamps) == T.AllocAll(old(activityTs), tokens, now, floor)
    {
      stamps := [];
      for i := 0 to |tokens|
        invariant (activityTs, stamps) == T.AllocAll(old(activityTs), tokens[..i], now, floor)
      {
        assert tokens[..i + 1][..i] == tokens[..i];
        var ts := AllocActivity(tokens[i], now, floor);
        stamps := stamps + [ts];
      }
      assert tokens[..|tokens|] == tokens;
    }

    /** A stale task may call this long after its pass: an ended item yields nothing. */
    method ClaimUpdates(id: T.ItemId, targets: seq<T.Token>, now: int) returns (stamps: Option<seq<int>>)
      requires now <= T.I64_MAX
      modifies this`activityTs
      ensures stamps.None? <==> id in ended
      ensures Stamps() == T.Run1(old(Stamps()), T.ClaimUpdates(id, targets, now)).0
      ensures stamps.Some? ==>
                && |stamps.value| == |targets|
                && T.Run1(old(Stamps()), T.ClaimUpdates(id, targets, now)).1
                   == T.Claimed(id, targets, stamps.value, now, false)
    {
      if id in ended {
        return None;
      }
      var floor := if id in startedTs then startedTs[id] else 0;
      var out := ClaimAll(targets, now, floor);
      T.AllocAllLength(old(activityTs), targets, now, floor);
      return Some(out);
    }

    method ClaimEndTimestamps(id: T.ItemId, tokens: seq<T.Token>, now: int) returns (stamps: seq<int>)
      requires now <= T.I64_MAX
      modifies this`activityTs, this`ended
      ensures |stamps| == |tokens|
      ensures (Stamps(), [T.Closed(id)] + T.Claimed(id, tokens, stamps, now, true))
           == T.Run1(old(Stamps()), T.ClaimEnds(id, tokens, now))
    {
      ended := ended + {id};
      var floor := if id in startedTs then startedTs[id] else 0;
      stamps := ClaimAll(tokens, now, floor);
      T.AllocAllLength(old(activityTs), tokens, now, floor);
    }

    // -- the throttle ------------------------------------------------------------------

    method StoreRecords(id: T.ItemId, records: seq<LA.Record>, now: int)
      modifies this`items
      ensures items == old(items)[id :=
                LA.StoreRecords(if id in old(items) then old(items)[id] else LA.NEW_TRACK, records, now)]
    {
      var track := if id in items then items[id] else LA.NEW_TRACK;
      var live := set r | r in records :: r.updateToken;
      track := track.(lastSent := map k | k in track.lastSent && k in live :: track.lastSent[k]);
      track := track.(records := records);
      track := track.(fetchedAt := Some(now));
      items := items[id := track];
    }

    /** Partitions the registrations: up to date, throttled until some instant, or targets. */
    method Choose(c: LA.Context, t: LA.Track, status: Status, now: int)
      returns (targets: seq<LA.Target>, next: Option<int>)
      ensures targets == LA.Targets(c, t, status, now, |t.records|)
      ensures next == LA.NextDue(c, t, status, now, |t.records|)
    {
      targets, next := [], None;
      for i := 0 to |t.records|
        invariant targets == LA.Targets(c, t, status, now, i)
        invariant next == LA.NextDue(c, t, status, now, i)
      {
        var r := t.records[i];
        if r.updateToken in t.lastSent && t.lastSent[r.updateToken].seqNo == t.pendingSeq {
        } else if r.updateToken in t.lastSent && t.lastSent[r.updateToken].status == status
               && now < t.lastSent[r.updateToken].at + c.intervals.update {
          next := LA.Earliest(next, t.lastSent[r.updateToken].at + c.intervals.update);
        } else {
          targets := targets + [LA.TargetOf(c, r)];
        }
      }
    }

    method StampSent(sent: map<T.Token, LA.Delivered>, targets: seq<LA.Target>, d: LA.Delivered)
      returns (stamped: map<T.Token, LA.Delivered>)
      ensures stamped == LA.Stamp(sent, targets, d)
    {
      stamped := sent;
      for i := 0 to |targets|
        invariant stamped == LA.Stamp(sent, targets[..i], d)
      {
        assert targets[..i + 1][..i] == targets[..i];
        stamped := stamped[targets[i].token := d];
      }
      assert targets[..|targets|] == targets;
    }

    /** The pass itself, over the item's own state. */
    method PassOver(c: LA.Context, t0: LA.Track, event: Option<LA.View>, fromTimer: bool, now: int)
      returns (t: LA.Track, send: Option<(LA.View, seq<LA.Target>)>, arm: Option<int>)
      ensures LA.Pass(t, send, arm) == LA.Step(c, t0, event, fromTimer, now)
    {
      t, send, arm := t0, None, None;
      var incoming := LA.Incoming(c, t, event, fromTimer);
      if incoming.Some? {
        t := t.(pending := incoming, pendingSeq := t.pendingSeq + 1);
      }
      if t.pending.None? {
        t := if fromTimer then t.(timerArmed := false) else t;
        return;
      }
      t, send, arm := Deliver(c, t, fromTimer, now);
    }

    method Deliver(c: LA.Context, t0: LA.Track, fromTimer: bool, now: int)
      returns (t: LA.Track, send: Option<(LA.View, seq<LA.Target>)>, arm: Option<int>)
      requires t0.pending.Some?
      ensures LA.Pass(t, send, arm) == LA.Deliver(c, t0, fromTimer, now)
    {
      var view := t0.pending.value;
      var targets, next := Choose(c, t0, view.status, now);
      var stamped := StampSent(t0.lastSent, targets, LA.Delivered(now, view.status, t0.pendingSeq));
      var free := fromTimer || !t0.timerArmed;
      t, arm := t0.(lastSent := stamped), None;
      var keepPulling := c.hasReader && LA.IsProgressing(view.status);
      if next.Some? || keepPulling {
        if free {
          t := t.(timerArmed := true);
          arm := if next.Some? then next else Some(now + c.intervals.progress);
        }
      } else {
        t := t.(pending := None, timerArmed := if fromTimer then false else t.timerArmed);
      }
      send := if targets == [] then None else Some((view, targets));
    }

    /** One pass over an item's throttle state. */
    method Step(id: T.ItemId, event: Option<LA.View>, fromTimer: bool, live: Option<LA.View>, now: int)
      returns (send: Option<(LA.View, seq<LA.Target>)>, arm: Option<int>)
      modifies this`items
      ensures id !in old(items) ==> items == old(items) && send.None? && arm.None?
      ensures id in old(items) ==>
                var p := LA.Step(Context(live), old(items)[id], event, fromTimer, now);
                items == old(items)[id := p.track] && send == p.send && arm == p.arm
    {
      if id !in items {
        return None, None;
      }
      var track;
      track, send, arm := PassOver(Context(live), items[id], event, fromTimer, now);
      items := items[id := track];
    }

    /** Releases the timer flag on cancellation. */
    method Disarm(id: T.ItemId)
      modifies this`items
      ensures items == if id in old(items) then old(items)[id := LA.Disarm(old(items)[id])] else old(items)
    {
      if id in items {
        items := items[id := items[id].(timerArmed := false)];
      }
    }

    /** After a removal every cached registration list and the cached topics count as stale. */
    method InvalidateCaches()
      modifies this`items, this`bundleIdsAt
      ensures bundleIdsAt.None?
      ensures items.Keys == old(items).Keys
      ensures forall id :: id in items ==> items[id] == LA.Invalidate(old(items)[id])
    {
      bundleIdsAt := None;
      var todo := items.Keys;
      while todo != {}
        invariant bundleIdsAt.None? && todo <= items.Keys == old(items).Keys
        invariant forall id :: id in items ==>
                    items[id] == if id in todo then old(items)[id] else LA.Invalidate(old(items)[id])
        decreases |todo|
      {
        var id :| id in todo;
        items := items[id := items[id].(fetchedAt := None)];
        todo := todo - {id};
      }
    }
  }

  /** The bounded task set: one slot per accepted task, given back on drop, panic or not. */
  class TaskSet {
    var outstanding: nat
    ghost var live: set<nat>
    ghost var issued: nat

    ghost predicate Valid()
      reads this
    {
      && outstanding == |live| <= MAX_INFLIGHT_TASKS
      && forall slot :: slot in live ==> slot < issued
    }

    constructor ()
      ensures Valid() && live == {}
    {
      outstanding, live, issued := 0, {}, 0;
    }

    method Spawn() returns (accepted: bool, ghost slot: nat)
      requires Valid()
      modifies this
      ensures Valid()
      ensures accepted <==> |old(live)| < 256
      ensures accepted ==> slot !in old(live) && live == old(live) + {slot}
      ensures !accepted ==> live == old(live)
    {
      slot := issued;
      accepted := false;
      if outstanding < MAX_INFLIGHT_TASKS {
        outstanding := outstanding + 1;
        accepted := true;
        live, issued := live + {slot}, issued + 1;
      }
    }

    method Drop(ghost slot: nat)
      requires Valid() && slot in live
      modifies this
      ensures Valid()
      ensures live == old(live) - {slot}
    {
      outstanding := Max(outstanding - 1, 0);
      live := live - {slot};
    }
  }
}

/**
 The `aps.timestamp` protocol. iOS drops a Live Activity push whose timestamp is not newer than the
 last one, so every claim is made under the state lock; the wall clock may jump either way.
 */
module Timestamps {
  import opened Prelude

  type ItemId = string
  type Token = string

  const I64_MAX: int := 0x7fff_ffff_ffff_ffff

  function SaturatingInc(x: int): int { Min(x + 1, I64_MAX) }

  /** The next timestamp for a key: the wall clock, pushed above the key's last one and the floor. */
  function NextStamp(m: map<Token, int>, key: Token, now: int, floor: int): (ts: int)
    requires now <= I64_MAX
    ensures ts >= now
    ensures ts <= I64_MAX
  {
    var prev := Max(if key in m then m[key] else 0, floor);
    Max(now, SaturatingInc(prev))
  }

  /** The part of the notifier's memory the timestamps live in. */
  datatype Stamps = Stamps(
    startTs: map<Token, int>, activityTs: map<Token, int>, startedTs: map<ItemId, int>,
    ended: set<ItemId>, started: set<ItemId>)
  {
    function Floor(item: ItemId): int { if item in startedTs then startedTs[item] else 0 }
  }

  function AllocAll(m: map<Token, int>, tokens: seq<Token>, now: int, floor: int): (map<Token, int>, seq<int>)
    requires now <= I64_MAX
  {
    if tokens == [] then (m, [])
    else
      var (before, stamps) := AllocAll(m, tokens[..|tokens| - 1], now, floor);
      var key := tokens[|tokens| - 1];
      var ts := NextStamp(before, key, now, floor);
      (before[key := ts], stamps + [ts])
  }

  lemma {:induction false} AllocAllLength(m: map<Token, int>, tokens: seq<Token>, now: int, floor: int)
    requires now <= I64_MAX
    ensures |AllocAll(m, tokens, now, floor).1| == |tokens|
  {
    if tokens != [] { AllocAllLength(m, tokens[..|tokens| - 1], now, floor); }
  }

  // -- the atomic sections --------------------------------------------------------

  /** One critical section, with the wall clock it read. */
  datatype Section =
    | ClaimStart(item: ItemId, startToken: Token, now: int)
    | ClaimUpdates(item: ItemId, targets: seq<Token>, now: int)
    | ClaimEnds(item: ItemId, tokens: seq<Token>, now: int)
    | MarkEnded(item: ItemId)
    | ClearEnded(item: ItemId)
    | Forget(ids: set<ItemId>)
    | Latch(item: ItemId)

  /** What a section did, in the order it did it; an activity claim also records the clock it read. */
  datatype Claim =
    | Start(item: ItemId, token: Token, ts: int)
    | Update(item: ItemId, token: Token, ts: int, read: int)
    | End(item: ItemId, token: Token, ts: int, read: int)
    | Closed(item: ItemId)
    | Reopened(item: ItemId)
    | Forgot(ids: set<ItemId>)
    | Latched(item: ItemId)

  ghost predicate ReadsI64(s: Section) {
    (s.ClaimStart? || s.ClaimUpdates? || s.ClaimEnds?) ==> s.now <= I64_MAX
  }

  function Claimed(item: ItemId, tokens: seq<Token>, stamps: seq<int>, now: int, ending: bool): (r: seq<Claim>)
    requires |tokens| == |stamps|
    ensures |r| == |tokens|
  {
    seq(|tokens|, i requires 0 <= i < |tokens| =>
      if ending then End(item, tokens[i], stamps[i], now) else Update(item, tokens[i], stamps[i], now))
  }

  function Run1(st: Stamps, s: Section): (Stamps, seq<Claim>)
    requires ReadsI64(s)
  {
    match s
    case ClaimStart(item, token, now) =>
      var ts := NextStamp(st.startTs, token, now, 0);
      (st.(startTs := st.startTs[token := ts], startedTs := st.startedTs[item := Max(st.Floor(item), ts)]),
       [Start(item, token, ts)])
    case ClaimUpdates(item, targets, now) =>
      if item in st.ended then (st, [])
      else
        AllocAllLength(st.activityTs, targets, now, st.Floor(item));
        var (m, stamps) := AllocAll(st.activityTs, targets, now, st.Floor(item));
        (st.(activityTs := m), Claimed(item, targets, stamps, now, false))
    case ClaimEnds(item, tokens, now) =>
      AllocAllLength(st.activityTs, tokens, now, st.Floor(item));
      var (m, stamps) := AllocAll(st.activityTs, tokens, now, st.Floor(item));
      (st.(activityTs := m, ended := st.ended + {item}), [Closed(item)] + Claimed(item, tokens, stamps, now, true))
    case MarkEnded(item) => (st.(ended := st.ended + {item}), [Closed(item)])
    case ClearEnded(item) => (st.(ended := st.ended - {item}), [Reopened(item)])
    case Forget(ids) => (st.(startedTs := st.startedTs - ids, started := st.started - ids), [Forgot(ids)])
    case Latch(item) =>
      // `HashSet::insert`: only the call that found the latch open passes.
      (st.(started := st.started + {item}), if item in st.started then [] else [Latched(item)])
  }

  const EMPTY: Stamps := Stamps(map[], map[], map[], {}, {})

  /** Any interleaving of the tasks is some sequence of sections. */
  function Run(sections: seq<Section>): (Stamps, seq<Claim>)
    requires forall s :: s in sections ==> ReadsI64(s)
  {
    if sections == [] then (EMPTY, [])
    else
      var (st, log) := Run(sections[..|sections| - 1]);
      var (st', claims) := Run1(st, sections[|sections| - 1]);
      (st', log + claims)
  }

  // -- what every run keeps --------------------------------------------------------

  predicate IsActivity(c: Claim) { c.Update? || c.End? }

  /** Strictly newer, except at the very top of the range where the counter saturates. */
  predicate Newer(ts: int, than: int) { than < ts || ts == I64_MAX }

  ghost predicate Unforgotten(log: seq<Claim>, i: int, j: int, item: ItemId) {
    forall k :: 0 <= i < k < j <= |log| && log[k].Forgot? ==> item !in log[k].ids
  }

  /** Timestamps to one activity token strictly increase, whoever claims them. */
  ghost predicate TokensIncrease(log: seq<Claim>) {
    && (forall i, j :: 0 <= i < j < |log| && IsActivity(log[i]) && IsActivity(log[j]) && log[i].token == log[j].token
          ==> Newer(log[j].ts, log[i].ts))
    && (forall i, j :: 0 <= i < j < |log| && log[i].Start? && log[j].Start? && log[i].token == log[j].token
          ==> Newer(log[j].ts, log[i].ts))
  }

  /** An update or an end outranks every start of its item not forgotten since. */
  ghost predicate AboveStarts(log: seq<Claim>) {
    forall i, j :: 0 <= i < j < |log| && log[i].Start? && IsActivity(log[j]) && log[i].item == log[j].item
                   && Unforgotten(log, i, j, log[i].item)
      ==> Newer(log[j].ts, log[i].ts)
  }

  /** Between an item's end and its next update there is a start edge. */
  ghost predicate EndIsFinal(log: seq<Claim>) {
    forall i, j :: 0 <= i < j < |log| && log[i].Closed? && log[j].Update? && log[i].item == log[j].item
      ==> exists k :: i < k < j && log[k] == Reopened(log[i].item)
  }

  /** Two start tasks of one item both pass the latch only if the item was forgotten in between. */
  ghost predicate StartsOnce(log: seq<Claim>) {
    forall i, j :: 0 <= i < j < |log| && log[i].Latched? && log[j] == log[i] ==> !Unforgotten(log, i, j, log[i].item)
  }

  /** What the maps remember of the log. */
  ghost predicate Remembers(st: Stamps, log: seq<Claim>) {
    && (forall i :: 0 <= i < |log| && IsActivity(log[i]) ==>
          log[i].token in st.activityTs && log[i].ts <= st.activityTs[log[i].token])
    && (forall i :: 0 <= i < |log| && log[i].Start? ==>
          log[i].token in st.startTs && log[i].ts <= st.startTs[log[i].token])
    && (forall i :: 0 <= i < |log| && log[i].Start? && Unforgotten(log, i, |log|, log[i].item) ==>
          log[i].ts <= st.Floor(log[i].item))
    && (forall i :: 0 <= i < |log| && log[i].Closed? && log[i].item !in st.ended ==>
          exists k :: i < k < |log| && log[k] == Reopened(log[i].item))
    && (forall i :: 0 <= i < |log| && log[i].Latched? && Unforgotten(log, i, |log|, log[i].item) ==>
          log[i].item in st.started)
  }

  ghost predicate Bounded(st: Stamps) {
    && (forall t :: t in st.activityTs ==> st.activityTs[t] <= I64_MAX)
    && (forall t :: t in st.startTs ==> st.startTs[t] <= I64_MAX)
  }

  ghost predicate Safe(st: Stamps, log: seq<Claim>) {
    Bounded(st) && Remembers(st, log) && TokensIncrease(log) && AboveStarts(log) && EndIsFinal(log) && StartsOnce(log)
  }

  lemma StampIsNewer(m: map<Token, int>, key: Token, now: int, floor: int, prior: int)
    requires now <= I64_MAX
    requires prior <= floor || (key in m && prior <= m[key])
    ensures Newer(NextStamp(m, key, now, floor), prior)
  {
  }

  lemma Prefix(log: seq<Claim>, c: Claim, i: int, item: ItemId)
    requires 0 <= i < |log|
    ensures Unforgotten(log + [c], i, |log| + 1, item) <==>
            Unforgotten(log, i, |log|, item) && (c.Forgot? ==> item !in c.ids)
    ensures Unforgotten(log + [c], i, |log|, item) <==> Unforgotten(log, i, |log|, item)
  {
    var log' := log + [c];
    assert log'[|log|] == c;
    assert forall k :: i < k < |log| ==> log'[k] == log[k];
    if Unforgotten(log', i, |log| + 1, item) {
      forall k | i < k < |log| && log[k].Forgot? ensures item !in log[k].ids { assert log'[k] == log[k]; }
    }
    if Unforgotten(log', i, |log|, item) {
      forall k | i < k < |log| && log[k].Forgot? ensures item !in log[k].ids { assert log'[k] == log[k]; }
    }
  }

  /** Appending a claim keeps what was remembered, whatever it adds itself. */
  lemma ExtendRemembers(st: Stamps, log: seq<Claim>, c: Claim, st': Stamps)
    requires Remembers(st, log)
    requires forall t :: t in st.activityTs ==> t in st'.activityTs && st.activityTs[t] <= st'.activityTs[t]
    requires forall t :: t in st.startTs ==> t in st'.startTs && st.startTs[t] <= st'.startTs[t]
    requires forall item :: (c.Forgot? ==> item !in c.ids) ==> st.Floor(item) <= st'.Floor(item)
    requires forall item :: item in st.ended ==> item in st'.ended || c == Reopened(item)
    requires IsActivity(c) ==> c.token in st'.activityTs && c.ts <= st'.activityTs[c.token]
    requires c.Start? ==> c.token in st'.startTs && c.ts <= st'.startTs[c.token] && c.ts <= st'.Floor(c.item)
    requires c.Closed? ==> c.item in st'.ended
    requires forall item :: item in st.started ==> item in st'.started || (c.Forgot? && item in c.ids)
    requires c.Latched? ==> c.item in st'.started
    ensures Remembers(st', log + [c])
  {
    var log' := log + [c];
    forall i | 0 <= i < |log'| && log'[i].Start? && Unforgotten(log', i, |log'|, log'[i].item)
      ensures log'[i].ts <= st'.Floor(log'[i].item) {
      if i < |log| { Prefix(log, c, i, log[i].item); }
    }
    forall i | 0 <= i < |log'| && log'[i].Latched? && Unforgotten(log', i, |log'|, log'[i].item)
      ensures log'[i].item in st'.started {
      if i < |log| { Prefix(log, c, i, log[i].item); }
    }
    forall i | 0 <= i < |log'| && log'[i].Closed? && log'[i].item !in st'.ended
      ensures exists k :: i < k < |log'| && log'[k] == Reopened(log'[i].item) {
      if log[i].item in st.ended {
        assert log'[|log|] == Reopened(log[i].item);
      } else {
        var k :| i < k < |log| && log[k] == Reopened(log[i].item);
        assert log'[k] == Reopened(log[i].item);
      }
    }
  }

  /** An appended claim that outranks the maps keeps the tokens' order ... */
  lemma TokensGoOn(st: Stamps, log: seq<Claim>, c: Claim)
    requires Remembers(st, log) && TokensIncrease(log)
    requires IsActivity(c) ==> c.token in st.activityTs ==> Newer(c.ts, st.activityTs[c.token])
    requires c.Start? ==> c.token in st.startTs ==> Newer(c.ts, st.startTs[c.token])
    ensures TokensIncrease(log + [c])
  {
    assert (log + [c])[|log|] == c && forall k :: 0 <= k < |log| ==> (log + [c])[k] == log[k];
  }

  lemma UnforgottenBefore(log: seq<Claim>, c: Claim, i: int, j: int, item: ItemId)
    requires 0 <= i < j <= |log|
    ensures Unforgotten(log + [c], i, j, item) <==> Unforgotten(log, i, j, item)
  {
    assert forall k :: i < k < j ==> (log + [c])[k] == log[k];
    if Unforgotten(log + [c], i, j, item) {
      forall k | i < k < j && log[k].Forgot? ensures item !in log[k].ids { assert (log + [c])[k] == log[k]; }
    }
  }

  /** ... one that outranks the floor stays above the starts ... */
  lemma StartsStayBelow(st: Stamps, log: seq<Claim>, c: Claim)
    requires Remembers(st, log) && AboveStarts(log)
    requires IsActivity(c) ==> Newer(c.ts, st.Floor(c.item))
    ensures AboveStarts(log + [c])
  {
    var log' := log + [c];
    forall i, j | 0 <= i < j < |log'| && log'[i].Start? && IsActivity(log'[j]) && log'[i].item == log'[j].item
                  && Unforgotten(log', i, j, log'[i].item)
      ensures Newer(log'[j].ts, log'[i].ts) {
      assert log'[i] == log[i];
      UnforgottenBefore(log, c, i, j, log[i].item);
      if j < |log| { assert log'[j] == log[j]; }
    }
  }

  /** ... an update of an open item keeps ends final ... */
  lemma EndsStayFinal(st: Stamps, log: seq<Claim>, c: Claim)
    requires Remembers(st, log) && EndIsFinal(log)
    requires c.Update? ==> c.item !in st.ended
    ensures EndIsFinal(log + [c])
  {
    var log' := log + [c];
    forall i, j | 0 <= i < j < |log'| && log'[i].Closed? && log'[j].Update? && log'[i].item == log'[j].item
      ensures exists k :: i < k < j && log'[k] == Reopened(log'[i].item) {
      var k :| i < k < j && log[k] == Reopened(log[i].item);
      assert log'[k] == Reopened(log'[i].item);
    }
  }

  /** ... and a start task that found the latch open is the first since the last forget. */
  lemma StartsStaySingle(st: Stamps, log: seq<Claim>, c: Claim)
    requires Remembers(st, log) && StartsOnce(log)
    requires c.Latched? ==> c.item !in st.started
    ensures StartsOnce(log + [c])
  {
    var log' := log + [c];
    forall i, j | 0 <= i < j < |log'| && log'[i].Latched? && log'[j] == log'[i]
      ensures !Unforgotten(log', i, j, log'[i].item) {
      assert log'[i] == log[i];
      UnforgottenBefore(log, c, i, j, log[i].item);
      if j < |log| { assert log'[j] == log[j]; }
    }
  }

  /** The orders survive an appended claim that is itself in order. */
  lemma ExtendOrders(st: Stamps, log: seq<Claim>, c: Claim)
    requires Safe(st, log)
    requires IsActivity(c) ==>
               && (c.token in st.activityTs ==> Newer(c.ts, st.activityTs[c.token]))
               && Newer(c.ts, st.Floor(c.item))
    requires c.Start? ==> (c.token in st.startTs ==> Newer(c.ts, st.startTs[c.token]))
    requires c.Update? ==> c.item !in st.ended
    requires c.Latched? ==> c.item !in st.started
    ensures TokensIncrease(log + [c]) && AboveStarts(log + [c]) && EndIsFinal(log + [c]) && StartsOnce(log + [c])
  {
    TokensGoOn(st, log, c);
    StartsStayBelow(st, log, c);
    EndsStayFinal(st, log, c);
    StartsStaySingle(st, log, c);
  }

  lemma ActivityKeepsSafe(st: Stamps, log: seq<Claim>, c: Claim, now: int)
    requires Safe(st, log) && IsActivity(c) && now <= I64_MAX
    requires c.ts == NextStamp(st.activityTs, c.token, now, st.Floor(c.item))
    requires c.Update? ==> c.item !in st.ended
    ensures Safe(st.(activityTs := st.activityTs[c.token := c.ts]), log + [c])
  {
    if c.token in st.activityTs { StampIsNewer(st.activityTs, c.token, now, st.Floor(c.item), st.activityTs[c.token]); }
    StampIsNewer(st.activityTs, c.token, now, st.Floor(c.item), st.Floor(c.item));
    ExtendOrders(st, log, c);
    ExtendRemembers(st, log, c, st.(activityTs := st.activityTs[c.token := c.ts]));
  }

  lemma StartKeepsSafe(st: Stamps, log: seq<Claim>, item: ItemId, token: Token, now: int)
    requires Safe(st, log) && now <= I64_MAX
    ensures var (st', claims) := Run1(st, ClaimStart(item, token, now)); Safe(st', log + claims)
  {
    var ts := NextStamp(st.startTs, token, now, 0);
    if token in st.startTs { StampIsNewer(st.startTs, token, now, 0, st.startTs[token]); }
    ExtendOrders(st, log, Start(item, token, ts));
    ExtendRemembers(st, log, Start(item, token, ts), Run1(st, ClaimStart(item, token, now)).0);
  }

  lemma MarkKeepsSafe(st: Stamps, log: seq<Claim>, s: Section)
    requires Safe(st, log) && (s.MarkEnded? || s.ClearEnded? || s.Forget? || s.Latch?)
    ensures var (st', claims) := Run1(st, s); Safe(st', log + claims)
  {
    var (st', claims) := Run1(st, s);
    if claims == [] {
      assert log + [] == log;
      assert st' == st;
      return;
    }
    ExtendOrders(st, log, claims[0]);
    ExtendRemembers(st, log, claims[0], st');
  }

  /** The last claim of a section, and the section without it. */
  lemma ClaimsUnfold(
    m: map<Token, int>, log: seq<Claim>, item: ItemId, tokens: seq<Token>, now: int, floor: int, ending: bool)
    returns (c: Claim)
    requires tokens != [] && now <= I64_MAX
    ensures |AllocAll(m, tokens, now, floor).1| == |tokens|
    ensures |AllocAll(m, tokens[..|tokens| - 1], now, floor).1| == |tokens| - 1
    ensures var init := tokens[..|tokens| - 1];
      var (before, earlier) := AllocAll(m, init, now, floor);
      var (after, stamps) := AllocAll(m, tokens, now, floor);
      && IsActivity(c) && c.item == item && c.token == tokens[|tokens| - 1] && c.read == now && c.End? == ending
      && c.ts == NextStamp(before, c.token, now, floor) && after == before[c.token := c.ts]
      && log + Claimed(item, tokens, stamps, now, ending) == log + Claimed(item, init, earlier, now, ending) + [c]
  {
    var init, token := tokens[..|tokens| - 1], tokens[|tokens| - 1];
    AllocAllLength(m, tokens, now, floor);
    AllocAllLength(m, init, now, floor);
    var ts := NextStamp(AllocAll(m, init, now, floor).0, token, now, floor);
    c := if ending then End(item, token, ts, now) else Update(item, token, ts, now);
    var earlier, stamps := AllocAll(m, init, now, floor).1, AllocAll(m, tokens, now, floor).1;
    assert Claimed(item, tokens, stamps, now, ending) == Claimed(item, init, earlier, now, ending) + [c];
  }

  lemma {:induction false} ClaimsKeepSafe(
    st: Stamps, log: seq<Claim>, item: ItemId, tokens: seq<Token>, now: int, ending: bool)
    requires Safe(st, log) && now <= I64_MAX && (ending || item !in st.ended)
    ensures |AllocAll(st.activityTs, tokens, now, st.Floor(item)).1| == |tokens|
    ensures var (m, stamps) := AllocAll(st.activityTs, tokens, now, st.Floor(item));
            Safe(st.(activityTs := m), log + Claimed(item, tokens, stamps, now, ending))
  {
    AllocAllLength(st.activityTs, tokens, now, st.Floor(item));
    var (m, stamps) := AllocAll(st.activityTs, tokens, now, st.Floor(item));
    if tokens == [] {
      assert log + Claimed(item, tokens, stamps, now, ending) == log;
    } else {
      var init := tokens[..|tokens| - 1];
      ClaimsKeepSafe(st, log, item, init, now, ending);
      var c := ClaimsUnfold(st.activityTs, log, item, tokens, now, st.Floor(item), ending);
      var (before, earlier) := AllocAll(st.activityTs, init, now, st.Floor(item));
      var done := log + Claimed(item, init, earlier, now, ending);
      ActivityKeepsSafe(st.(activityTs := before), done, c, now);
    }
  }

  /** An end section is a mark followed by claims. */
  lemma EndsUnfold(st: Stamps, log: seq<Claim>, item: ItemId, tokens: seq<Token>, now: int)
    requires now <= I64_MAX
    ensures |AllocAll(st.activityTs, tokens, now, st.Floor(item)).1| == |tokens|
    ensures var (st', claims) := Run1(st, ClaimEnds(item, tokens, now));
      var (m, stamps) := AllocAll(st.activityTs, tokens, now, st.Floor(item));
      && st' == st.(ended := st.ended + {item}).(activityTs := m)
      && log + claims == (log + [Closed(item)]) + Claimed(item, tokens, stamps, now, true)
  {
    AllocAllLength(st.activityTs, tokens, now, st.Floor(item));
  }

  lemma ClosingKeepsSafe(st: Stamps, log: seq<Claim>, item: ItemId)
    requires Safe(st, log)
    ensures Safe(st.(ended := st.ended + {item}), log + [Closed(item)])
  {
    ExtendOrders(st, log, Closed(item));
    ExtendRemembers(st, log, Closed(item), st.(ended := st.ended + {item}));
  }

  lemma EndsKeepSafe(st: Stamps, log: seq<Claim>, item: ItemId, tokens: seq<Token>, now: int)
    requires Safe(st, log) && now <= I64_MAX
    ensures var (st', claims) := Run1(st, ClaimEnds(item, tokens, now)); Safe(st', log + claims)
  {
    var closed := st.(ended := st.ended + {item});
    ClosingKeepsSafe(st, log, item);
    ClaimsKeepSafe(closed, log + [Closed(item)], item, tokens, now, true);
    EndsUnfold(st, log, item, tokens, now);
  }

  lemma SectionKeepsSafe(st: Stamps, log: seq<Claim>, s: Section)
    requires Safe(st, log) && ReadsI64(s)
    ensures var (st', claims) := Run1(st, s); Safe(st', log + claims)
  {
    match s
    case ClaimStart(item, token, now) => StartKeepsSafe(st, log, item, token, now);
    case ClaimUpdates(item, targets, now) =>
      if item in st.ended {
        assert log + [] == log;
      } else {
        ClaimsKeepSafe(st, log, item, targets, now, false);
      }
    case ClaimEnds(item, tokens, now) => EndsKeepSafe(st, log, item, tokens, now);
    case _ => MarkKeepsSafe(st, log, s);
  }

  /**
   The timestamp and end protocol, for every interleaving and any wall clock: claims to one token
   strictly increase, an activity claim outranks the item's starts since it was last forgotten, and
   after an end no update is claimed until a start edge reopens the item; and however many start
   tasks race, one passes the latch between two forgets.
   */
  lemma {:induction false} TimestampProtocol(sections: seq<Section>)
    requires forall s :: s in sections ==> ReadsI64(s)
    ensures Safe(Run(sections).0, Run(sections).1)
  {
    if sections != [] {
      var init := sections[..|sections| - 1];
      TimestampProtocol(init);
      SectionKeepsSafe(Run(init).0, Run(init).1, sections[|sections| - 1]);
    }
  }

  // -- what a section claims, told by the sections before it --------------------------

  predicate Closes(s: Section, item: ItemId) { (s.MarkEnded? || s.ClaimEnds?) && s.item == item }

  /** The item was ended, and no start edge has reopened it since. */
  ghost predicate ClosedBy(sections: seq<Section>, item: ItemId) {
    exists i :: 0 <= i < |sections| && Closes(sections[i], item)
                && forall k :: i < k < |sections| ==> sections[k] != ClearEnded(item)
  }

  /** Some start task tried the latch, and the item has not been forgotten since. */
  ghost predicate LatchedBy(sections: seq<Section>, item: ItemId) {
    exists i :: 0 <= i < |sections| && sections[i] == Latch(item)
                && forall k :: i < k < |sections| && sections[k].Forget? ==> item !in sections[k].ids
  }

  lemma ClosedNext(sections: seq<Section>, s: Section, item: ItemId)
    ensures ClosedBy(sections + [s], item) <==>
            Closes(s, item) || (ClosedBy(sections, item) && s != ClearEnded(item))
  {
    var all := sections + [s];
    assert all[|sections|] == s && forall k :: 0 <= k < |sections| ==> all[k] == sections[k];
    if ClosedBy(sections, item) && s != ClearEnded(item) {
      var i :| 0 <= i < |sections| && Closes(sections[i], item)
               && forall k :: i < k < |sections| ==> sections[k] != ClearEnded(item);
      assert Closes(all[i], item);
    }
    if ClosedBy(all, item) && !Closes(s, item) {
      var i :| 0 <= i < |all| && Closes(all[i], item) && forall k :: i < k < |all| ==> all[k] != ClearEnded(item);
      assert Closes(sections[i], item);
    }
  }

  lemma LatchedNext(sections: seq<Section>, s: Section, item: ItemId)
    ensures LatchedBy(sections + [s], item) <==>
            s == Latch(item) || (LatchedBy(sections, item) && !(s.Forget? && item in s.ids))
  {
    var all := sections + [s];
    assert all[|sections|] == s && forall k :: 0 <= k < |sections| ==> all[k] == sections[k];
    if LatchedBy(sections, item) && !(s.Forget? && item in s.ids) {
      var i :| 0 <= i < |sections| && sections[i] == Latch(item)
               && forall k :: i < k < |sections| && sections[k].Forget? ==> item !in sections[k].ids;
      assert all[i] == Latch(item);
    }
    if LatchedBy(all, item) && s != Latch(item) {
      var i :| 0 <= i < |all| && all[i] == Latch(item)
               && forall k :: i < k < |all| && all[k].Forget? ==> item !in all[k].ids;
      assert sections[i] == Latch(item);
    }
  }

  /** The two sets hold exactly the items the sections so far have ended, and latched. */
  lemma {:induction false} MarksAre(sections: seq<Section>, item: ItemId)
    requires forall s :: s in sections ==> ReadsI64(s)
    ensures item in Run(sections).0.ended <==> ClosedBy(sections, item)
    ensures item in Run(sections).0.started <==> LatchedBy(sections, item)
  {
    if sections != [] {
      var init, s := sections[..|sections| - 1], sections[|sections| - 1];
      assert sections == init + [s];
      MarksAre(init, item);
      ClosedNext(init, s, item);
      LatchedNext(init, s, item);
    }
  }

  /** What the section `s` claims after the sections before it. */
  function ClaimsOf(sections: seq<Section>, s: Section): seq<Claim>
    requires ReadsI64(s) && forall x :: x in sections ==> ReadsI64(x)
  {
    Run1(Run(sections).0, s).1
  }

  /**
   However many start tasks race for an item, one passes the latch between two forgets: a task passes exactly
   if none has tried before it since the item was last forgotten.
   */
  lemma FirstStartPasses(sections: seq<Section>, item: ItemId)
    requires forall s :: s in sections ==> ReadsI64(s)
    ensures Run(sections + [Latch(item)]).1 ==
            Run(sections).1 + if LatchedBy(sections, item) then [] else [Latched(item)]
  {
    RunOne(sections, Latch(item));
    MarksAre(sections, item);
  }

  /** Each target gets one timestamp of the kind asked for. */
  ghost predicate OneEach(claims: seq<Claim>, item: ItemId, tokens: seq<Token>, now: int, ending: bool) {
    && |claims| == |tokens|
    && forall i :: 0 <= i < |claims| ==>
         && (if ending then claims[i].End? else claims[i].Update?)
         && claims[i].item == item && claims[i].token == tokens[i] && claims[i].read == now <= claims[i].ts
  }

  lemma {:induction false} AllocReads(m: map<Token, int>, tokens: seq<Token>, now: int, floor: int)
    requires now <= I64_MAX
    ensures forall i :: 0 <= i < |AllocAll(m, tokens, now, floor).1| ==> now <= AllocAll(m, tokens, now, floor).1[i]
  {
    if tokens != [] {
      AllocReads(m, tokens[..|tokens| - 1], now, floor);
    }
  }

  lemma ClaimsOneEach(st: Stamps, item: ItemId, tokens: seq<Token>, now: int, ending: bool)
    requires now <= I64_MAX
    ensures var stamps := AllocAll(st.activityTs, tokens, now, st.Floor(item)).1;
      |stamps| == |tokens| && OneEach(Claimed(item, tokens, stamps, now, ending), item, tokens, now, ending)
  {
    AllocAllLength(st.activityTs, tokens, now, st.Floor(item));
    AllocReads(st.activityTs, tokens, now, st.Floor(item));
  }

  /** Updates are claimed, one for each target, exactly while the item has not been ended since its last start edge. */
  lemma UpdatesWhileOpen(sections: seq<Section>, item: ItemId, targets: seq<Token>, now: int)
    requires now <= I64_MAX && forall s :: s in sections ==> ReadsI64(s)
    ensures var s := ClaimUpdates(item, targets, now);
      && Run(sections + [s]).1 == Run(sections).1 + ClaimsOf(sections, s)
      && if ClosedBy(sections, item) then ClaimsOf(sections, s) == []
         else OneEach(ClaimsOf(sections, s), item, targets, now, false)
  {
    var st := Run(sections).0;
    RunOne(sections, ClaimUpdates(item, targets, now));
    MarksAre(sections, item);
    ClaimsOneEach(st, item, targets, now, false);
  }

  /** An end closes the item and claims one end for each token, whether or not it was closed before. */
  lemma EndsAreClaimed(sections: seq<Section>, item: ItemId, tokens: seq<Token>, now: int)
    requires now <= I64_MAX && forall s :: s in sections ==> ReadsI64(s)
    ensures var s := ClaimEnds(item, tokens, now);
      var claims := ClaimsOf(sections, s);
      && Run(sections + [s]).1 == Run(sections).1 + claims
      && claims != [] && claims[0] == Closed(item) && OneEach(claims[1..], item, tokens, now, true)
  {
    var st := Run(sections).0;
    RunOne(sections, ClaimEnds(item, tokens, now));
    ClaimsOneEach(st, item, tokens, now, true);
  }

  /** Without the saturation corner: below the top of the range, "newer" is strict. */
  lemma EndIsNewest(sections: seq<Section>, i: int, j: int)
    requires forall s :: s in sections ==> ReadsI64(s)
    requires var log := Run(sections).1;
             0 <= i < j < |log| && log[i].Update? && log[j].End? && log[i].token == log[j].token
             && log[j].ts < 0x7fff_ffff_ffff_ffff
    ensures Run(sections).1[i].ts < Run(sections).1[j].ts
  {
    TimestampProtocol(sections);
  }

  /** Forgetting an item drops its floor: a later update may then fall below the earlier start. */
  lemma ForgetDropsTheFloor()
    ensures var sections := [ClaimStart("a", "s", 100), Forget({"a"}), ClaimUpdates("a", ["u"], 50)];
            Run(sections).1 == [Start("a", "s", 100), Forgot({"a"}), Update("a", "u", 50, 50)]
  {
    var a, b, c := ClaimStart("a", "s", 100), Forget({"a"}), ClaimUpdates("a", ["u"], 50);
    var s1 := Stamps(map["s" := 100], map[], map["a" := 100], {}, {});
    var s2 := Stamps(map["s" := 100], map[], map[], {}, {});
    assert Run1(EMPTY, a) == (s1, [Start("a", "s", 100)]);
    assert s1.startedTs - {"a"} == map[] && s1.started - {"a"} == {};
    assert Run1(s1, b) == (s2, [Forgot({"a"})]);
    RunOne([], a);
    RunOne([a], b);
    RunOne([a, b], c);
    assert [] + [a] == [a] && [a] + [b] == [a, b] && [a, b] + [c] == [a, b, c];
    assert ["u"][..0] == [];
    var before := AllocAll(map[], [], 50, 0);
    assert AllocAll(map[], ["u"], 50, 0) == (before.0["u" := 50], before.1 + [50]);
    assert Claimed("a", ["u"], [50], 50, false) == [Update("a", "u", 50, 50)];
  }

  lemma RunOne(sections: seq<Section>, s: Section)
    requires ReadsI64(s) && forall x :: x in sections ==> ReadsI64(x)
    ensures forall x :: x in sections + [s] ==> ReadsI64(x)
    ensures Run(sections + [s]) == (Run1(Run(sections).0, s).0, Run(sections).1 + Run1(Run(sections).0, s).1)
  {
    assert (sections + [s])[..|sections|] == sections;
  }
}

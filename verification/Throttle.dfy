/**
 Whole runs of one `Track`: any order of throttle passes, registration refreshes, cache
 invalidations and timer releases, on a clock that never goes back. The log records what went out
 and which tokens each refresh kept.
 */
module Throttle {
  import opened Prelude
  import opened LiveActivity

  datatype Event =
    | DoPass(c: Context, event: Option<View>, fromTimer: bool, now: Instant)
    | DoStore(records: seq<Record>, now: Instant)
    | DoInvalidate(now: Instant)
    | DoDisarm(now: Instant)

  datatype Entry =
    | Pushed(tokens: set<Token>, view: View, seqNo: nat, at: Instant)
    | Stored(live: set<Token>)

  /** The track, every view that was ever pending, and the log. */
  datatype History = History(track: Track, views: seq<View>, log: seq<Entry>, clock: Instant)

  const BEGIN: History := History(NEW_TRACK, [], [], 0)

  function TokensOf(targets: seq<Target>): set<Token> {
    set x | x in targets :: x.token
  }

  ghost predicate Allowed(h: History, e: Event, window: nat) {
    && h.clock <= e.now
    && (e.DoPass? ==> e.c.intervals.update == window)
    && (e.DoStore? ==> DistinctTokens(e.records))
  }

  function Next(h: History, e: Event): History {
    match e
    case DoPass(c, event, fromTimer, now) =>
      var incoming := Incoming(c, h.track, event, fromTimer);
      var p := Step(c, h.track, event, fromTimer, now);
      History(
        p.track,
        if incoming.Some? then h.views + [incoming.value] else h.views,
        if p.send.Some?
        then h.log + [Pushed(TokensOf(p.send.value.1), p.send.value.0, p.track.pendingSeq, now)]
        else h.log,
        now)
    case DoStore(records, now) =>
      History(StoreRecords(h.track, records, now), h.views, h.log + [Stored(Tokens(records))], now)
    case DoInvalidate(now) => h.(track := Invalidate(h.track), clock := now)
    case DoDisarm(now) => h.(track := Disarm(h.track), clock := now)
  }

  ghost predicate Reaches(h: History, events: seq<Event>, window: nat, end: History)
    decreases |events|
  {
    if events == [] then end == h
    else Allowed(h, events[0], window) && Reaches(Next(h, events[0]), events[1..], window, end)
  }

  // -- what the log says ---------------------------------------------------------------

  ghost predicate Sent(log: seq<Entry>, i: int, k: Token) {
    0 <= i < |log| && log[i].Pushed? && k in log[i].tokens
  }

  /** The token stayed registered from entry `i` up to `j`. */
  ghost predicate Held(log: seq<Entry>, i: int, j: int, k: Token) {
    forall m :: 0 <= i < m < j <= |log| && log[m].Stored? ==> k in log[m].live
  }

  ghost predicate NoneBetween(log: seq<Entry>, i: int, j: int, k: Token) {
    forall m :: 0 <= i < m < j <= |log| ==> !Sent(log, m, k)
  }

  /** No token is sent the same view twice, or an older one after a newer. */
  ghost predicate Fresh(log: seq<Entry>) {
    forall i, j, k {:trigger Sent(log, i, k), Sent(log, j, k)} ::
      i < j && Sent(log, i, k) && Sent(log, j, k) && Held(log, i, j, k) ==> log[i].seqNo < log[j].seqNo
  }

  /** Consecutive sends of one status word to one token are a full window apart. */
  ghost predicate Spaced(log: seq<Entry>, window: nat) {
    forall i, j, k {:trigger Sent(log, i, k), Sent(log, j, k)} ::
      i < j && Sent(log, i, k) && Sent(log, j, k) && Held(log, i, j, k) && NoneBetween(log, i, j, k)
      && log[i].view.status == log[j].view.status
      ==> log[i].at + window <= log[j].at
  }

  /** What `last_sent` remembers of the log. */
  ghost predicate Recalls(t: Track, log: seq<Entry>) {
    && (forall i, k {:trigger Sent(log, i, k)} :: Sent(log, i, k) && Held(log, i, |log|, k) ==>
          && k in t.lastSent
          && log[i].seqNo <= t.lastSent[k].seqNo
          && (NoneBetween(log, i, |log|, k) ==>
                t.lastSent[k] == Delivered(log[i].at, log[i].view.status, log[i].seqNo)))
    && (forall k :: k in t.lastSent ==>
          exists i :: Sent(log, i, k) && Held(log, i, |log|, k) && log[i].seqNo == t.lastSent[k].seqNo)
  }

  /** The sequence number names the view: entry `n` of the history is what number `n` means. */
  ghost predicate Numbered(t: Track, views: seq<View>, log: seq<Entry>) {
    && t.pendingSeq == |views|
    && (t.pending.Some? ==> views != [] && t.pending.value == views[|views| - 1])
    && (forall k :: k in t.lastSent ==> t.lastSent[k].seqNo <= |views|)
    && (forall i :: 0 <= i < |log| && log[i].Pushed? ==>
          0 < log[i].seqNo <= |views| && log[i].view == views[log[i].seqNo - 1])
  }

  ghost predicate Good(h: History, window: nat) {
    && DistinctTokens(h.track.records)
    && Recalls(h.track, h.log) && Fresh(h.log) && Spaced(h.log, window)
    && Numbered(h.track, h.views, h.log)
  }

  lemma HeldPrefix(log: seq<Entry>, e: Entry, i: int, k: Token)
    requires 0 <= i < |log|
    ensures Held(log + [e], i, |log|, k) <==> Held(log, i, |log|, k)
    ensures Held(log + [e], i, |log| + 1, k) <==> Held(log, i, |log|, k) && (e.Stored? ==> k in e.live)
    ensures Sent(log + [e], i, k) <==> Sent(log, i, k)
    ensures NoneBetween(log + [e], i, |log|, k) <==> NoneBetween(log, i, |log|, k)
    ensures NoneBetween(log + [e], i, |log| + 1, k) <==> NoneBetween(log, i, |log|, k) && !(e.Pushed? && k in e.tokens)
  {
    var log' := log + [e];
    assert log'[|log|] == e && forall m :: 0 <= m < |log| ==> log'[m] == log[m];
    assert forall m :: 0 <= m < |log| ==> (Sent(log', m, k) <==> Sent(log, m, k));
    assert Sent(log', |log|, k) <==> e.Pushed? && k in e.tokens;
    if Held(log', i, |log|, k) {
      forall m | i < m < |log| && log[m].Stored? ensures k in log[m].live { assert log'[m].Stored?; }
    }
    if Held(log', i, |log| + 1, k) {
      forall m | i < m < |log| && log[m].Stored? ensures k in log[m].live { assert log'[m].Stored?; }
    }
  }

  /** The prefix facts for a pair of entries that were there before. */
  lemma PairPrefix(log: seq<Entry>, e: Entry, i: int, j: int, k: Token)
    requires 0 <= i < j < |log|
    ensures Held(log + [e], i, j, k) <==> Held(log, i, j, k)
    ensures NoneBetween(log + [e], i, j, k) <==> NoneBetween(log, i, j, k)
  {
    var log' := log + [e];
    assert forall m :: 0 <= m < |log| ==> log'[m] == log[m];
    assert forall m :: 0 <= m < |log| ==> (Sent(log', m, k) <==> Sent(log, m, k));
    if Held(log', i, j, k) {
      forall m | i < m < j && log[m].Stored? ensures k in log[m].live { assert log'[m].Stored?; }
    }
  }

  /** A refresh only forgets tokens that are gone. */
  lemma StoreKeepsGood(h: History, records: seq<Record>, now: Instant, window: nat)
    requires Good(h, window) && DistinctTokens(records)
    ensures Good(Next(h, DoStore(records, now)), window)
  {
    var e := Stored(Tokens(records));
    var log, log' := h.log, h.log + [e];
    var t' := StoreRecords(h.track, records, now);
    assert log'[|log|] == e && forall m :: 0 <= m < |log| ==> log'[m] == log[m];
    forall i, k | Sent(log', i, k) && Held(log', i, |log'|, k)
      ensures k in t'.lastSent && log'[i].seqNo <= t'.lastSent[k].seqNo
      ensures NoneBetween(log', i, |log'|, k) ==>
                t'.lastSent[k] == Delivered(log'[i].at, log'[i].view.status, log'[i].seqNo) {
      HeldPrefix(log, e, i, k);
    }
    forall k | k in t'.lastSent
      ensures exists i :: Sent(log', i, k) && Held(log', i, |log'|, k) && log'[i].seqNo == t'.lastSent[k].seqNo {
      var i :| Sent(log, i, k) && Held(log, i, |log|, k) && log[i].seqNo == h.track.lastSent[k].seqNo;
      HeldPrefix(log, e, i, k);
    }
    OrdersExtend(log, e, window);
  }

  /** An appended refresh, or a push in order, keeps both orders. */
  lemma OrdersExtend(log: seq<Entry>, e: Entry, window: nat)
    requires Fresh(log) && Spaced(log, window)
    requires e.Pushed? ==>
               forall i, k {:trigger Sent(log, i, k)} ::
               Sent(log, i, k) && k in e.tokens && Held(log, i, |log|, k) ==>
               && log[i].seqNo < e.seqNo
               && (NoneBetween(log, i, |log|, k) && log[i].view.status == e.view.status ==> log[i].at + window <= e.at)
    ensures Fresh(log + [e]) && Spaced(log + [e], window)
  {
    var log' := log + [e];
    assert log'[|log|] == e && forall m :: 0 <= m < |log| ==> log'[m] == log[m];
    forall i, j, k | i < j && Sent(log', i, k) && Sent(log', j, k) && Held(log', i, j, k)
      ensures log'[i].seqNo < log'[j].seqNo
      ensures NoneBetween(log', i, j, k) && log'[i].view.status == log'[j].view.status ==>
                log'[i].at + window <= log'[j].at {
      HeldPrefix(log, e, i, k);
      if j < |log| {
        HeldPrefix(log, e, j, k);
        PairPrefix(log, e, i, j, k);
      }
    }
  }

  lemma TokensOfAim(targets: seq<Target>)
    ensures forall k :: k in TokensOf(targets) <==> Aims(targets, k)
  {
  }

  /** A pass over an admitted track pushes only in order ... */
  lemma PushIsInOrder(t: Track, v: View, now: Instant, window: nat, targets: seq<Target>, t': Track,
                      log: seq<Entry>, i: int, k: Token)
    requires Recalls(t, log) && forall k :: k in t.lastSent ==> t.lastSent[k].seqNo <= t.pendingSeq
    requires PassEffect(t, v, now, window, targets, t'.lastSent)
    requires Sent(log, i, k) && Aims(targets, k) && Held(log, i, |log|, k)
    ensures log[i].seqNo < t.pendingSeq
    ensures NoneBetween(log, i, |log|, k) && log[i].view.status == v.status ==> log[i].at + window <= now
  {
    assert Sends(t, v.status, now, window, k);
  }

  /** ... remembers what it pushed, on top of what was remembered ... */
  lemma PushIsRecalled(t: Track, v: View, now: Instant, window: nat, targets: seq<Target>, t': Track,
                       log: seq<Entry>, e: Entry, i: int, k: Token)
    requires Recalls(t, log) && forall k :: k in t.lastSent ==> t.lastSent[k].seqNo <= t.pendingSeq
    requires PassEffect(t, v, now, window, targets, t'.lastSent)
    requires e == Pushed(TokensOf(targets), v, t.pendingSeq, now)
    requires Sent(log + [e], i, k) && Held(log + [e], i, |log| + 1, k)
    ensures k in t'.lastSent && (log + [e])[i].seqNo <= t'.lastSent[k].seqNo
    ensures NoneBetween(log + [e], i, |log| + 1, k) ==>
              t'.lastSent[k] == Delivered((log + [e])[i].at, (log + [e])[i].view.status, (log + [e])[i].seqNo)
  {
    TokensOfAim(targets);
    if i < |log| { HeldPrefix(log, e, i, k); }
  }

  /** ... and remembers nothing that was not pushed. */
  lemma PushIsTraced(t: Track, v: View, now: Instant, window: nat, targets: seq<Target>, t': Track,
                     log: seq<Entry>, e: Entry, k: Token)
    requires Recalls(t, log) && PassEffect(t, v, now, window, targets, t'.lastSent)
    requires e == Pushed(TokensOf(targets), v, t.pendingSeq, now) && k in t'.lastSent
    ensures exists i :: Sent(log + [e], i, k) && Held(log + [e], i, |log| + 1, k)
                        && (log + [e])[i].seqNo == t'.lastSent[k].seqNo
  {
    TokensOfAim(targets);
    if Aims(targets, k) {
      assert Sent(log + [e], |log|, k);
    } else {
      var i :| Sent(log, i, k) && Held(log, i, |log|, k) && log[i].seqNo == t.lastSent[k].seqNo;
      HeldPrefix(log, e, i, k);
    }
  }

  lemma PushKeepsRecall(t: Track, v: View, now: Instant, window: nat, targets: seq<Target>, t': Track, log: seq<Entry>)
    requires Recalls(t, log) && forall k :: k in t.lastSent ==> t.lastSent[k].seqNo <= t.pendingSeq
    requires PassEffect(t, v, now, window, targets, t'.lastSent)
    ensures Recalls(t', log + [Pushed(TokensOf(targets), v, t.pendingSeq, now)])
  {
    var e := Pushed(TokensOf(targets), v, t.pendingSeq, now);
    var log' := log + [e];
    forall i, k | Sent(log', i, k) && Held(log', i, |log'|, k)
      ensures k in t'.lastSent && log'[i].seqNo <= t'.lastSent[k].seqNo
      ensures NoneBetween(log', i, |log'|, k) ==>
                t'.lastSent[k] == Delivered(log'[i].at, log'[i].view.status, log'[i].seqNo) {
      PushIsRecalled(t, v, now, window, targets, t', log, e, i, k);
    }
    forall k | k in t'.lastSent
      ensures exists i :: Sent(log', i, k) && Held(log', i, |log'|, k) && log'[i].seqNo == t'.lastSent[k].seqNo {
      PushIsTraced(t, v, now, window, targets, t', log, e, k);
    }
  }

  lemma PushKeepsOrders(t: Track, v: View, now: Instant, window: nat, targets: seq<Target>, t': Track, log: seq<Entry>)
    requires Recalls(t, log) && forall k :: k in t.lastSent ==> t.lastSent[k].seqNo <= t.pendingSeq
    requires PassEffect(t, v, now, window, targets, t'.lastSent)
    requires Fresh(log) && Spaced(log, window)
    ensures var log' := log + [Pushed(TokensOf(targets), v, t.pendingSeq, now)];
            Fresh(log') && Spaced(log', window)
  {
    var e := Pushed(TokensOf(targets), v, t.pendingSeq, now);
    TokensOfAim(targets);
    forall i, k {:trigger Sent(log, i, k)} | Sent(log, i, k) && k in e.tokens && Held(log, i, |log|, k)
      ensures log[i].seqNo < e.seqNo
      ensures NoneBetween(log, i, |log|, k) && log[i].view.status == e.view.status ==> log[i].at + window <= e.at {
      PushIsInOrder(t, v, now, window, targets, t', log, i, k);
    }
    OrdersExtend(log, e, window);
  }

  /** A pass that pushes nothing leaves every registration's memory alone. */
  lemma QuietPass(t: Track, v: View, now: Instant, window: nat, t': Track)
    requires PassEffect(t, v, now, window, [], t'.lastSent)
    ensures t'.lastSent == t.lastSent
  {
    assert forall k :: !Aims([], k);
    assert forall k :: k in t'.lastSent <==> k in t.lastSent;
  }

  lemma AdmitKeepsNumbers(t0: Track, incoming: Option<View>, views: seq<View>, log: seq<Entry>)
    requires Numbered(t0, views, log) && Recalls(t0, log)
    ensures Numbered(Admit(t0, incoming), if incoming.Some? then views + [incoming.value] else views, log)
    ensures Recalls(Admit(t0, incoming), log)
  {
    if incoming.Some? {
      var views' := views + [incoming.value];
      forall i | 0 <= i < |log| && log[i].Pushed?
        ensures 0 < log[i].seqNo <= |views'| && log[i].view == views'[log[i].seqNo - 1] {
        assert log[i].view == views[log[i].seqNo - 1];
      }
    }
  }

  /** The track a pass leaves keeps the numbering, with or without a push appended. */
  lemma PassKeepsNumbers(t: Track, p: Pass, views: seq<View>, log: seq<Entry>, now: Instant, w: nat)
    requires Numbered(t, views, log)
    requires p.track.pendingSeq == t.pendingSeq && (p.track.pending == t.pending || p.track.pending.None?)
    requires t.pending.None? ==> p.send.None? && p.track.lastSent == t.lastSent
    requires t.pending.Some? ==> PassEffect(t, t.pending.value, now, w, SentTo(p), p.track.lastSent)
    ensures p.send.None? ==> Numbered(p.track, views, log)
    ensures p.send.Some? ==>
              Numbered(p.track, views, log + [Pushed(TokensOf(p.send.value.1), t.pending.value, t.pendingSeq, now)])
  {
    forall k | k in p.track.lastSent ensures p.track.lastSent[k].seqNo <= |views| {}
  }

  lemma PassResultIsGood(t: Track, p: Pass, views: seq<View>, log: seq<Entry>, now: Instant, w: nat)
    requires DistinctTokens(t.records) && Recalls(t, log) && Fresh(log) && Spaced(log, w) && Numbered(t, views, log)
    requires p.track.records == t.records && p.track.pendingSeq == t.pendingSeq
    requires p.track.pending == t.pending || p.track.pending.None?
    requires t.pending.None? ==> p.send.None? && p.track.lastSent == t.lastSent
    requires t.pending.Some? ==> PassEffect(t, t.pending.value, now, w, SentTo(p), p.track.lastSent)
    ensures p.send.None? ==> Good(History(p.track, views, log, now), w)
    ensures p.send.Some? ==>
              var log' := log + [Pushed(TokensOf(SentTo(p)), t.pending.value, t.pendingSeq, now)];
              Good(History(p.track, views, log', now), w)
  {
    PassKeepsNumbers(t, p, views, log, now, w);
    if p.send.Some? {
      PushKeepsRecall(t, t.pending.value, now, w, SentTo(p), p.track, log);
      PushKeepsOrders(t, t.pending.value, now, w, SentTo(p), p.track, log);
    } else if t.pending.Some? {
      QuietPass(t, t.pending.value, now, w, p.track);
    }
  }

  lemma PassKeepsGood(h: History, c: Context, event: Option<View>, fromTimer: bool, now: Instant)
    requires Good(h, c.intervals.update)
    ensures Good(Next(h, DoPass(c, event, fromTimer, now)), c.intervals.update)
  {
    var incoming := Incoming(c, h.track, event, fromTimer);
    StepEffect(c, h.track, event, fromTimer, now);
    AdmitKeepsNumbers(h.track, incoming, h.views, h.log);
    PassResultIsGood(Admit(h.track, incoming), Step(c, h.track, event, fromTimer, now),
                     if incoming.Some? then h.views + [incoming.value] else h.views, h.log, now, c.intervals.update);
  }

  lemma {:induction false} RunIsGood(h: History, events: seq<Event>, window: nat, end: History)
    requires Good(h, window) && Reaches(h, events, window, end)
    ensures Good(end, window)
    decreases |events|
  {
    if events != [] {
      match events[0] {
        case DoPass(c, event, fromTimer, now) => PassKeepsGood(h, c, event, fromTimer, now);
        case DoStore(records, now) => StoreKeepsGood(h, records, now, window);
        case DoInvalidate(_) =>
        case DoDisarm(_) =>
      }
      RunIsGood(Next(h, events[0]), events[1..], window, end);
    }
  }

  /** Over every run: no token gets a view twice or out of order, and one status word keeps its spacing. */
  lemma ThrottleHolds(events: seq<Event>, window: nat, end: History)
    requires Reaches(BEGIN, events, window, end)
    ensures Fresh(end.log) && Spaced(end.log, window)
  {
    RunIsGood(BEGIN, events, window, end);
  }

  /** A pass that leaves nothing pending has brought every registration up to date. */
  lemma ClearedMeansDelivered(c: Context, t0: Track, event: Option<View>, fromTimer: bool, now: Instant)
    requires Admit(t0, Incoming(c, t0, event, fromTimer)).pending.Some?
    requires Step(c, t0, event, fromTimer, now).track.pending.None?
    ensures Behind(Step(c, t0, event, fromTimer, now).track) == {}
  {
    var t := Admit(t0, Incoming(c, t0, event, fromTimer));
    StepEffect(c, t0, event, fromTimer, now);
    NextDueIs(c, t, t.pending.value.status, now, |t.records|);
    assert t.records[..|t.records|] == t.records;
    var p := Step(c, t0, event, fromTimer, now);
    forall k | k in Tokens(p.track.records) ensures UpToDate(p.track, k) {
      if !Sends(t, t.pending.value.status, now, c.intervals.update, k) {
        assert UpToDate(t, k);
      }
    }
  }

  /**
   Convergence: when a pass clears what was pending, the last thing every registered token was sent
   is the newest view there has been.
   */
  lemma ClearedMeansNewest(events: seq<Event>, window: nat, h: History,
                           c: Context, event: Option<View>, fromTimer: bool, now: Instant, k: Token)
    requires Reaches(BEGIN, events, window, h) && Allowed(h, DoPass(c, event, fromTimer, now), window)
    requires Admit(h.track, Incoming(c, h.track, event, fromTimer)).pending.Some?
    requires var end := Next(h, DoPass(c, event, fromTimer, now));
             end.track.pending.None? && k in Tokens(end.track.records)
    ensures var end := Next(h, DoPass(c, event, fromTimer, now));
            exists i :: && Sent(end.log, i, k) && Held(end.log, i, |end.log|, k)
                        && NoneBetween(end.log, i, |end.log|, k)
                        && end.views != [] && end.log[i].view == end.views[|end.views| - 1]
  {
    var end := Next(h, DoPass(c, event, fromTimer, now));
    RunIsGood(BEGIN, events, window, h);
    PassKeepsGood(h, c, event, fromTimer, now);
    ClearedMeansDelivered(c, h.track, event, fromTimer, now);
    assert k !in Behind(end.track);
    LatestPush(end, window, k);
  }

  /** An up-to-date token's last push carried the newest view. */
  lemma LatestPush(end: History, window: nat, k: Token)
    requires Good(end, window) && UpToDate(end.track, k)
    ensures exists i :: && Sent(end.log, i, k) && Held(end.log, i, |end.log|, k)
                        && NoneBetween(end.log, i, |end.log|, k)
                        && end.views != [] && end.log[i].view == end.views[|end.views| - 1]
  {
    var log := end.log;
    var i :| Sent(log, i, k) && Held(log, i, |log|, k) && log[i].seqNo == end.track.lastSent[k].seqNo;
    assert NoneBetween(log, i, |log|, k);
  }

  // -- what the spacing is worth ---------------------------------------------------------

  /**
   Inside its window a registered token is sent to exactly when the pass has a view it has not had, under
   another status than its last.
   */
  lemma InsideTheWindow(c: Context, t0: Track, event: Option<View>, fromTimer: bool, now: Instant, k: Token)
    requires k in Tokens(t0.records) && k in t0.lastSent && now < t0.lastSent[k].at + c.intervals.update
    requires Admit(t0, Incoming(c, t0, event, fromTimer)).pending.Some?
    ensures var t := Admit(t0, Incoming(c, t0, event, fromTimer));
            Aims(SentTo(Step(c, t0, event, fromTimer, now)), k) <==>
            t0.lastSent[k].seqNo != t.pendingSeq && t0.lastSent[k].status != t.pending.value.status
  {
    StepEffect(c, t0, event, fromTimer, now);
  }

  /** In a run: a view that comes inside the window of a token's last send goes out exactly under another status. */
  lemma FlapExactly(events: seq<Event>, window: nat, h: History,
                    c: Context, v: View, fromTimer: bool, now: Instant, i: int, k: Token)
    requires Reaches(BEGIN, events, window, h) && Allowed(h, DoPass(c, Some(v), fromTimer, now), window)
    requires k in Tokens(h.track.records)
    requires Sent(h.log, i, k) && Held(h.log, i, |h.log|, k) && NoneBetween(h.log, i, |h.log|, k)
    requires now < h.log[i].at + window
    ensures Sent(Next(h, DoPass(c, Some(v), fromTimer, now)).log, |h.log|, k) <==> h.log[i].view.status != v.status
  {
    RunIsGood(BEGIN, events, window, h);
    InsideTheWindow(c, h.track, Some(v), fromTimer, now, k);
    TokensOfAim(SentTo(Step(c, h.track, Some(v), fromTimer, now)));
  }

  /** Every send to `k` strictly between two entries carries this status. */
  ghost predicate OnlyStatus(log: seq<Entry>, i: int, j: int, k: Token, status: Status) {
    forall m :: i < m < j && Sent(log, m, k) ==> log[m].view.status == status
  }

  lemma NeighboursAreSpaced(log: seq<Entry>, window: nat, i: int, j: int, k: Token)
    requires Spaced(log, window) && i < j && Sent(log, i, k) && Sent(log, j, k) && Held(log, i, j, k)
    requires NoneBetween(log, i, j, k) && log[i].view.status == log[j].view.status
    ensures log[i].at + window <= log[j].at
  {
  }

  lemma {:induction false} OneStatusIsSpaced(log: seq<Entry>, window: nat, i: int, j: int, k: Token)
    requires Spaced(log, window) && i < j && Sent(log, i, k) && Sent(log, j, k) && Held(log, i, j, k)
    requires log[i].view.status == log[j].view.status && OnlyStatus(log, i, j, k, log[i].view.status)
    ensures log[i].at + window <= log[j].at
    decreases j - i
  {
    if NoneBetween(log, i, j, k) {
      NeighboursAreSpaced(log, window, i, j, k);
    } else {
      var m :| i < m < j && Sent(log, m, k);
      OneStatusIsSpaced(log, window, i, m, k);
      OneStatusIsSpaced(log, window, m, j, k);
    }
  }

  /** In a run, two sends of one status inside a window have a send of another status between them. */
  lemma FlapNeedsAnother(events: seq<Event>, window: nat, end: History, i: int, j: int, k: Token)
    requires Reaches(BEGIN, events, window, end)
    requires i < j && Sent(end.log, i, k) && Sent(end.log, j, k) && Held(end.log, i, j, k)
    requires end.log[i].view.status == end.log[j].view.status && end.log[j].at < end.log[i].at + window
    ensures exists m :: i < m < j && Sent(end.log, m, k) && end.log[m].view.status != end.log[i].view.status
  {
    ThrottleHolds(events, window, end);
    if OnlyStatus(end.log, i, j, k, end.log[i].view.status) {
      OneStatusIsSpaced(end.log, window, i, j, k);
    }
  }

  /**
   And that is enough: with any view of another status in between, two views of one status go out at the
   same instant.
   */
  lemma StatusFlapBeatsTheWindow(c: Context, window: nat, r: Record, a: View, b: View)
    requires c.intervals.update == window > 0 && !c.hasReader && a.status != b.status
    ensures exists events, end ::
              && Reaches(BEGIN, events, window, end)
              && Sent(end.log, 1, r.updateToken) && Sent(end.log, 3, r.updateToken)
              && Held(end.log, 1, 3, r.updateToken)
              && end.log[1].view == end.log[3].view == a && end.log[3].at < end.log[1].at + window
  {
    var k := r.updateToken;
    var e0, h1 := BeginWith(r, window);
    var e1, h2 := FlapPass(h1, c, r, a);
    var e2, h3 := FlapPass(h2, c, r, b);
    var e3, h4 := FlapPass(h3, c, r, a);
    RunsJoin(BEGIN, e0, window, h1, e1, h2);
    RunsJoin(BEGIN, e0 + e1, window, h2, e2, h3);
    RunsJoin(BEGIN, e0 + e1 + e2, window, h3, e3, h4);
    assert h1.log == [h1.log[0]];
    FlapLog(h1.log[0], a, b, k, h4.log);
  }

  lemma FlapLog(e: Entry, a: View, b: View, k: Token, log: seq<Entry>)
    requires log == [e] + [Pushed({k}, a, 1, 0)] + [Pushed({k}, b, 2, 0)] + [Pushed({k}, a, 3, 0)]
    ensures Sent(log, 1, k) && Sent(log, 3, k) && Held(log, 1, 3, k)
    ensures log[1] == Pushed({k}, a, 1, 0) && log[3] == Pushed({k}, a, 3, 0)
  {
  }

  lemma {:induction false} RunsJoin(h: History, a: seq<Event>, window: nat, mid: History, b: seq<Event>, end: History)
    requires Reaches(h, a, window, mid) && Reaches(mid, b, window, end)
    ensures Reaches(h, a + b, window, end)
    decreases |a|
  {
    if a == [] {
      assert a + b == b;
    } else {
      RunsJoin(Next(h, a[0]), a[1..], window, mid, b, end);
      assert (a + b)[0] == a[0] && (a + b)[1..] == a[1..] + b;
    }
  }

  lemma OneEventRuns(h: History, e: Event, window: nat)
    requires Allowed(h, e, window)
    ensures Reaches(h, [e], window, Next(h, e))
  {
    assert [e][1..] == [];
    assert Reaches(Next(h, e), [e][1..], window, Next(h, e));
  }

  lemma BeginWith(r: Record, window: nat) returns (events: seq<Event>, h: History)
    ensures Reaches(BEGIN, events, window, h)
    ensures h.track.records == [r] && r.updateToken !in h.track.lastSent && h.track.pendingSeq == 0
    ensures |h.log| == 1 && h.clock == 0
  {
    events, h := [DoStore([r], 0)], Next(BEGIN, DoStore([r], 0));
    OneEventRuns(BEGIN, DoStore([r], 0), window);
  }

  lemma FlapPass(h: History, c: Context, r: Record, v: View) returns (events: seq<Event>, h': History)
    requires h.track.records == [r] && h.clock == 0 && !c.hasReader
    requires var k := r.updateToken;
      k in h.track.lastSent ==>
        h.track.lastSent[k].seqNo <= h.track.pendingSeq && h.track.lastSent[k].status != v.status
    ensures Reaches(h, events, c.intervals.update, h')
    ensures h'.track.records == [r] && h'.clock == 0 && h'.track.pendingSeq == h.track.pendingSeq + 1
    ensures var k := r.updateToken;
            && k in h'.track.lastSent && h'.track.lastSent[k] == Delivered(0, v.status, h'.track.pendingSeq)
            && h'.log == h.log + [Pushed({k}, v, h'.track.pendingSeq, 0)]
  {
    var e := DoPass(c, Some(v), false, 0);
    events, h' := [e], Next(h, e);
    OneEventRuns(h, e, c.intervals.update);
    var k := r.updateToken;
    var t := Admit(h.track, Some(v));
    var p := Step(c, h.track, Some(v), false, 0);
    StepEffect(c, h.track, Some(v), false, 0);
    assert Tokens(t.records) == {k} by { assert r in t.records; }
    assert Sends(t, v.status, 0, c.intervals.update, k);
    TokensOfAim(SentTo(p));
    assert TokensOf(SentTo(p)) == {k} by { assert Aims(SentTo(p), k); }
  }
}

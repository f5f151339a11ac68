/**
 When an update or an end is newer than an earlier start of its item, exactly. A forget drops the floor
 a start has set, so this is a question about the clock and about what the log still remembers.
 */
module StartOrder {
  import opened Prelude
  import opened Timestamps

  /** A claim to the activity token that is at least `s`. */
  predicate ActivityAt(log: seq<Claim>, h: int, token: Token, s: int) {
    0 <= h < |log| && IsActivity(log[h]) && log[h].token == token && s <= log[h].ts
  }

  /** A start of the item that is at least `s` and has not been forgotten by `j`. */
  ghost predicate StartAt(log: seq<Claim>, h: int, j: int, item: ItemId, s: int) {
    0 <= h < j <= |log| && log[h].Start? && log[h].item == item && s <= log[h].ts && Unforgotten(log, h, j, item)
  }

  /**
   What lifts claim `j` above the timestamp `s`: the clock it read, a start of its item that is still
   remembered, or an earlier claim to its token.
   */
  ghost predicate Lifted(log: seq<Claim>, j: int, s: int)
    requires 0 <= j < |log| && IsActivity(log[j])
  {
    || log[j].read > s
    || (exists h :: StartAt(log, h, j, log[j].item, s))
    || (exists h :: h < j && ActivityAt(log, h, log[j].token, s))
  }

  /** Below the top of the range, an activity claim exceeds an earlier start of its item exactly when it is lifted. */
  ghost predicate ExceedsExactly(log: seq<Claim>) {
    forall i, j :: 0 <= i < j < |log| && log[i].Start? && IsActivity(log[j]) && log[i].item == log[j].item
                   && log[i].ts < I64_MAX
      ==> (log[i].ts < log[j].ts <==> Lifted(log, j, log[i].ts))
  }

  /** The maps hold nothing that the log does not. */
  ghost predicate Traces(st: Stamps, log: seq<Claim>) {
    && (forall t :: t in st.activityTs ==> exists h :: ActivityAt(log, h, t, st.activityTs[t]))
    && (forall item :: item in st.startedTs ==> exists h :: StartAt(log, h, |log|, item, st.startedTs[item]))
    && (forall i :: 0 <= i < |log| && log[i].Start? ==> log[i].ts >= 1)
  }

  ghost predicate Exact(st: Stamps, log: seq<Claim>) {
    Safe(st, log) && Traces(st, log) && ExceedsExactly(log)
  }

  /** The allocator's own answer: the clock, the floor, or the token's last timestamp is what lifts it. */
  lemma StampExceeds(m: map<Token, int>, key: Token, now: int, floor: int, s: int)
    requires now <= I64_MAX && s < I64_MAX && 1 <= s
    ensures NextStamp(m, key, now, floor) > s <==> now > s || floor >= s || (key in m && m[key] >= s)
  {}

  lemma StartAtGrows(log: seq<Claim>, c: Claim, h: int, j: int, item: ItemId, s: int)
    requires 0 <= j <= |log|
    ensures StartAt(log + [c], h, j, item, s) <==> StartAt(log, h, j, item, s)
    ensures j == |log| ==>
      (StartAt(log + [c], h, |log| + 1, item, s) && h < |log| <==>
       StartAt(log, h, |log|, item, s) && (c.Forgot? ==> item !in c.ids))
  {
    var log' := log + [c];
    assert forall k :: 0 <= k < |log| ==> log'[k] == log[k];
    if 0 <= h < j {
      if Unforgotten(log', h, j, item) {
        forall k | h < k < j && log[k].Forgot? ensures item !in log[k].ids { assert log'[k] == log[k]; }
      }
      if j == |log| {
        Prefix(log, c, h, item);
      }
    }
  }

  lemma ActivityAtGrows(log: seq<Claim>, c: Claim, h: int, token: Token, s: int)
    requires h < |log|
    ensures ActivityAt(log + [c], h, token, s) <==> ActivityAt(log, h, token, s)
  {}

  /** Claims already made are lifted by the same things, whatever is appended. */
  lemma LiftedGrows(log: seq<Claim>, c: Claim, j: int, s: int)
    requires 0 <= j < |log| && IsActivity(log[j])
    ensures Lifted(log + [c], j, s) <==> Lifted(log, j, s)
  {
    var log' := log + [c];
    assert log'[j] == log[j];
    forall h {
      StartAtGrows(log, c, h, j, log[j].item, s);
    }
    forall h | h < j {
      ActivityAtGrows(log, c, h, log[j].token, s);
    }
  }

  /** Appending anything but an activity claim leaves the question as it was. */
  lemma QuietKeepsExceeds(log: seq<Claim>, c: Claim)
    requires ExceedsExactly(log) && !IsActivity(c)
    ensures ExceedsExactly(log + [c])
  {
    var log' := log + [c];
    forall i, j | 0 <= i < j < |log'| && log'[i].Start? && IsActivity(log'[j]) && log'[i].item == log'[j].item
                  && log'[i].ts < I64_MAX
      ensures log'[i].ts < log'[j].ts <==> Lifted(log', j, log'[i].ts)
    {
      assert log'[i] == log[i] && log'[j] == log[j];
      LiftedGrows(log, c, j, log[i].ts);
    }
  }

  /** For a new claim, what lifts it is what the maps hold. */
  lemma LiftedByMaps(st: Stamps, log: seq<Claim>, c: Claim, s: int)
    requires Remembers(st, log) && Traces(st, log) && IsActivity(c) && 1 <= s
    ensures Lifted(log + [c], |log|, s) <==>
            c.read > s || st.Floor(c.item) >= s || (c.token in st.activityTs && st.activityTs[c.token] >= s)
  {
    var log', n := log + [c], |log|;
    assert log'[n] == c;
    forall h {
      StartAtGrows(log, c, h, n, c.item, s);
    }
    forall h | h < n {
      ActivityAtGrows(log, c, h, c.token, s);
    }
    if st.Floor(c.item) >= s {
      var h :| StartAt(log, h, n, c.item, st.startedTs[c.item]);
      assert StartAt(log', h, n, c.item, s);
    }
    if c.token in st.activityTs && st.activityTs[c.token] >= s {
      var h :| ActivityAt(log, h, c.token, st.activityTs[c.token]);
      assert h < n && ActivityAt(log', h, c.token, s);
    }
  }

  /** The new claim exceeds an earlier start exactly when it is lifted. */
  lemma NewClaimExceeds(st: Stamps, log: seq<Claim>, c: Claim, s: int)
    requires Remembers(st, log) && Traces(st, log) && IsActivity(c) && c.read <= I64_MAX && 1 <= s < I64_MAX
    requires c.ts == NextStamp(st.activityTs, c.token, c.read, st.Floor(c.item))
    ensures s < c.ts <==> Lifted(log + [c], |log|, s)
  {
    StampExceeds(st.activityTs, c.token, c.read, st.Floor(c.item), s);
    LiftedByMaps(st, log, c, s);
  }

  lemma ActivityKeepsExceeds(st: Stamps, log: seq<Claim>, c: Claim)
    requires Remembers(st, log) && Traces(st, log) && ExceedsExactly(log) && IsActivity(c) && c.read <= I64_MAX
    requires c.ts == NextStamp(st.activityTs, c.token, c.read, st.Floor(c.item))
    ensures ExceedsExactly(log + [c])
  {
    var log' := log + [c];
    forall i, j | 0 <= i < j < |log'| && log'[i].Start? && IsActivity(log'[j]) && log'[i].item == log'[j].item
                  && log'[i].ts < I64_MAX
      ensures log'[i].ts < log'[j].ts <==> Lifted(log', j, log'[i].ts)
    {
      var s := log[i].ts;
      assert log'[i] == log[i];
      if j < |log| {
        LiftedGrows(log, c, j, s);
      } else {
        NewClaimExceeds(st, log, c, s);
      }
    }
  }

  /** An appended claim keeps the maps traceable, if what it adds to them is its own. */
  lemma ExtendTraces(st: Stamps, log: seq<Claim>, c: Claim, st': Stamps)
    requires Traces(st, log) && (c.Start? ==> c.ts >= 1)
    requires forall t :: t in st'.activityTs ==>
      || (t in st.activityTs && st'.activityTs[t] == st.activityTs[t])
      || (IsActivity(c) && c.token == t && c.ts == st'.activityTs[t])
    requires forall item :: item in st'.startedTs ==>
      || (item in st.startedTs && st'.startedTs[item] == st.startedTs[item] && (c.Forgot? ==> item !in c.ids))
      || (c.Start? && c.item == item && c.ts == st'.startedTs[item])
    ensures Traces(st', log + [c])
  {
    var log', n := log + [c], |log|;
    forall t | t in st'.activityTs ensures exists h :: ActivityAt(log', h, t, st'.activityTs[t]) {
      if t in st.activityTs && st'.activityTs[t] == st.activityTs[t] {
        var h :| ActivityAt(log, h, t, st.activityTs[t]);
        assert ActivityAt(log', h, t, st'.activityTs[t]);
      } else {
        assert ActivityAt(log', n, t, st'.activityTs[t]);
      }
    }
    forall item | item in st'.startedTs ensures exists h :: StartAt(log', h, |log'|, item, st'.startedTs[item]) {
      if c.Start? && c.item == item && c.ts == st'.startedTs[item] {
        assert StartAt(log', n, |log'|, item, st'.startedTs[item]);
      } else {
        var h :| StartAt(log, h, n, item, st.startedTs[item]);
        StartAtGrows(log, c, h, n, item, st.startedTs[item]);
        assert StartAt(log', h, |log'|, item, st'.startedTs[item]);
      }
    }
  }

  lemma ActivityKeepsExact(st: Stamps, log: seq<Claim>, c: Claim)
    requires Exact(st, log) && IsActivity(c) && c.read <= I64_MAX
    requires c.ts == NextStamp(st.activityTs, c.token, c.read, st.Floor(c.item))
    requires c.Update? ==> c.item !in st.ended
    ensures Exact(st.(activityTs := st.activityTs[c.token := c.ts]), log + [c])
  {
    ActivityKeepsSafe(st, log, c, c.read);
    ActivityKeepsExceeds(st, log, c);
    ExtendTraces(st, log, c, st.(activityTs := st.activityTs[c.token := c.ts]));
  }

  lemma {:induction false} ClaimsKeepExact(
    st: Stamps, log: seq<Claim>, item: ItemId, tokens: seq<Token>, now: int, ending: bool)
    requires Exact(st, log) && now <= I64_MAX && (ending || item !in st.ended)
    ensures |AllocAll(st.activityTs, tokens, now, st.Floor(item)).1| == |tokens|
    ensures var (m, stamps) := AllocAll(st.activityTs, tokens, now, st.Floor(item));
            Exact(st.(activityTs := m), log + Claimed(item, tokens, stamps, now, ending))
  {
    AllocAllLength(st.activityTs, tokens, now, st.Floor(item));
    var (m, stamps) := AllocAll(st.activityTs, tokens, now, st.Floor(item));
    if tokens == [] {
      assert log + Claimed(item, tokens, stamps, now, ending) == log;
    } else {
      var init := tokens[..|tokens| - 1];
      ClaimsKeepExact(st, log, item, init, now, ending);
      var c := ClaimsUnfold(st.activityTs, log, item, tokens, now, st.Floor(item), ending);
      var (before, earlier) := AllocAll(st.activityTs, init, now, st.Floor(item));
      var done := log + Claimed(item, init, earlier, now, ending);
      ActivityKeepsExact(st.(activityTs := before), done, c);
    }
  }

  lemma StartKeepsExact(st: Stamps, log: seq<Claim>, item: ItemId, token: Token, now: int)
    requires Exact(st, log) && now <= I64_MAX
    ensures var (st', claims) := Run1(st, ClaimStart(item, token, now)); Exact(st', log + claims)
  {
    StartKeepsSafe(st, log, item, token, now);
    var (st', claims) := Run1(st, ClaimStart(item, token, now));
    QuietKeepsExceeds(log, claims[0]);
    ExtendTraces(st, log, claims[0], st');
  }

  lemma MarkKeepsExact(st: Stamps, log: seq<Claim>, s: Section)
    requires Exact(st, log) && (s.MarkEnded? || s.ClearEnded? || s.Forget? || s.Latch?)
    ensures var (st', claims) := Run1(st, s); Exact(st', log + claims)
  {
    MarkKeepsSafe(st, log, s);
    var (st', claims) := Run1(st, s);
    if claims == [] {
      assert log + [] == log;
    } else {
      var c := claims[0];
      assert claims == [c];
      QuietKeepsExceeds(log, c);
      ExtendTraces(st, log, c, st');
    }
  }

  lemma ClosingKeepsExact(st: Stamps, log: seq<Claim>, item: ItemId)
    requires Exact(st, log)
    ensures Exact(st.(ended := st.ended + {item}), log + [Closed(item)])
  {
    ClosingKeepsSafe(st, log, item);
    QuietKeepsExceeds(log, Closed(item));
    ExtendTraces(st, log, Closed(item), st.(ended := st.ended + {item}));
  }

  lemma EndsKeepExact(st: Stamps, log: seq<Claim>, item: ItemId, tokens: seq<Token>, now: int)
    requires Exact(st, log) && now <= I64_MAX
    ensures var (st', claims) := Run1(st, ClaimEnds(item, tokens, now)); Exact(st', log + claims)
  {
    var closed := st.(ended := st.ended + {item});
    ClosingKeepsExact(st, log, item);
    ClaimsKeepExact(closed, log + [Closed(item)], item, tokens, now, true);
    EndsUnfold(st, log, item, tokens, now);
  }

  lemma SectionKeepsExact(st: Stamps, log: seq<Claim>, s: Section)
    requires Exact(st, log) && ReadsI64(s)
    ensures var (st', claims) := Run1(st, s); Exact(st', log + claims)
  {
    match s
    case ClaimStart(item, token, now) => StartKeepsExact(st, log, item, token, now);
    case ClaimUpdates(item, targets, now) =>
      if item in st.ended {
        assert log + [] == log;
      } else {
        ClaimsKeepExact(st, log, item, targets, now, false);
      }
    case ClaimEnds(item, tokens, now) => EndsKeepExact(st, log, item, tokens, now);
    case _ => MarkKeepsExact(st, log, s);
  }

  /**
   Over every interleaving and any wall clock: an update or an end exceeds an earlier start of its item
   exactly when the clock it read does, or a start of the item at least as large is still remembered, or
   an earlier claim to its token was at least as large.
   */
  lemma {:induction false} StartOrderIsExact(sections: seq<Section>)
    requires forall s :: s in sections ==> ReadsI64(s)
    ensures Exact(Run(sections).0, Run(sections).1)
  {
    if sections != [] {
      var init := sections[..|sections| - 1];
      StartOrderIsExact(init);
      SectionKeepsExact(Run(init).0, Run(init).1, sections[|sections| - 1]);
    }
  }
}

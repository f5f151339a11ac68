/**
 What brings a socket live and what ends one: only lagging does, and only when nine lags fall in one window
 of a minute.
 */
module WsProgress {
  import opened Prelude
  import opened Frames
  import opened ReplayFold
  import opened FoldWords
  import opened ReplayRing
  import opened WsProtocol

  // -- the lag budget ----------------------------------------------------------------

  /** The bus has run past the receiver by more than it holds. */
  predicate Lags(st: State, step: Step) {
    step.DoReceive? && |st.w.log| > st.s.rx + 256
  }

  function LagOf(st: State, step: Step): seq<int> { if Lags(st, step) then [step.now] else [] }

  /** The instants at which a run lags. */
  ghost function LagTimes(st: State, steps: seq<Step>): seq<int>
    requires st.w.Valid() && st.s.rx <= |st.w.log|
    decreases |steps|
  {
    if steps == [] || (steps[0].DoAnswer? && !st.s.phase.Resuming?) then []
    else
      var next := Next(st, steps[0]);
      LagOf(st, steps[0])
      + if next.w.Valid() && next.s.rx <= |next.w.log| then LagTimes(next, steps[1..]) else []
  }

  /** The run is one socket's: nobody connects anew. */
  predicate OneSocket(steps: seq<Step>) {
    forall step :: step in steps ==> !step.DoConnect?
  }

  /** A tumbling count: the lags of the running minute, and when it started. */
  datatype Budget = Budget(lags: nat, started: int, closed: bool)

  function BudgetOf(s: Session): Budget { Budget(s.lags, s.lagWindowStarted, s.phase.Closed?) }

  /** A lag inside the running minute is one more, a later one the first of its own; the ninth is one too many. */
  function Spend(b: Budget, now: int): Budget {
    if now <= b.started + 60_000 then Budget(b.lags + 1, b.started, b.lags + 1 >= 9) else Budget(1, now, false)
  }

  function SpendAll(b: Budget, times: seq<int>): Budget
    decreases |times|
  {
    if times == [] then b else SpendAll(Spend(b, times[0]), times[1..])
  }

  /** No lag comes once the budget is spent. */
  predicate OpenBefore(b: Budget, times: seq<int>)
    decreases |times|
  {
    times == [] || (!b.closed && OpenBefore(Spend(b, times[0]), times[1..]))
  }

  /** Nothing but a lag touches the budget, and one that does not spend it leaves the socket to be resynced. */
  lemma StepSpends(st: State, step: Step)
    requires st.w.Valid() && st.s.rx <= |st.w.log| && Enabled(st, step) && !step.DoConnect?
    ensures var was, now := BudgetOf(st.s), BudgetOf(Next(st, step).s);
      && now == SpendAll(was, LagOf(st, step))
      && (Lags(st, step) ==>
            && !was.closed && (!now.closed ==> Next(st, step).s.phase.Snapshotting?)
            && Next(st, step).s.rx == |st.w.log| - 256)
  {
  }

  /** Whatever happens between them, a run's lags and nothing else are counted, and nothing else closes a socket. */
  lemma {:induction false} RunSpends(st: State, steps: seq<Step>, end: State)
    requires st.w.Valid() && st.s.rx <= |st.w.log| && Reaches(st, steps, end) && OneSocket(steps)
    ensures BudgetOf(end.s) == SpendAll(BudgetOf(st.s), LagTimes(st, steps))
    ensures OpenBefore(BudgetOf(st.s), LagTimes(st, steps))
    decreases |steps|
  {
    if steps != [] {
      var next, lag := RunUnfolds(st, steps, end);
      RunSpends(next, steps[1..], end);
      SpendsOn(BudgetOf(st.s), lag, LagTimes(next, steps[1..]));
    }
  }

  /** The first step of a run that goes on: what it spends, and the lags of the rest. */
  lemma RunUnfolds(st: State, steps: seq<Step>, end: State) returns (next: State, lag: seq<int>)
    requires st.w.Valid() && st.s.rx <= |st.w.log| && steps != []
    requires Reaches(st, steps, end) && OneSocket(steps)
    ensures OneSocket(steps[1..]) && next.w.Valid() && next.s.rx <= |next.w.log| && Reaches(next, steps[1..], end)
    ensures LagTimes(st, steps) == lag + LagTimes(next, steps[1..])
    ensures OpenBefore(BudgetOf(st.s), lag)
    ensures BudgetOf(next.s) == SpendAll(BudgetOf(st.s), lag)
  {
    assert steps[0] in steps;
    StepSpends(st, steps[0]);
    next, lag := Next(st, steps[0]), LagOf(st, steps[0]);
  }

  lemma {:induction false} SpendsOn(b: Budget, first: seq<int>, rest: seq<int>)
    requires OpenBefore(b, first) && OpenBefore(SpendAll(b, first), rest)
    ensures SpendAll(b, first + rest) == SpendAll(SpendAll(b, first), rest) && OpenBefore(b, first + rest)
    decreases |first|
  {
    if first == [] {
      assert first + rest == rest;
    } else {
      assert (first + rest)[1..] == first[1..] + rest;
      SpendsOn(Spend(b, first[0]), first[1..], rest);
    }
  }

  lemma {:induction false} InOneMinute(b: Budget, times: seq<int>)
    requires b.lags <= 8 && !b.closed && OpenBefore(b, times)
    requires forall i :: 0 <= i < |times| ==> times[i] <= b.started + 60_000
    ensures b.lags + |times| <= 9
    ensures SpendAll(b, times) == Budget(b.lags + |times|, b.started, b.lags + |times| == 9)
    decreases |times|
  {
    if times != [] && b.lags < 8 {
      InOneMinute(Spend(b, times[0]), times[1..]);
    }
  }

  /**
   Lags that all fall in the running minute are counted one by one, whatever happens between them. The ninth
   closes the socket, and nothing else does.
   */
  lemma NinthLagCloses(st: State, steps: seq<Step>, end: State)
    requires st.w.Valid() && st.s.rx <= |st.w.log| && Reaches(st, steps, end) && OneSocket(steps)
    requires st.s.lags <= 8 && !st.s.phase.Closed?
    requires forall i :: 0 <= i < |LagTimes(st, steps)| ==> LagTimes(st, steps)[i] <= st.s.lagWindowStarted + 60_000
    ensures end.s.lags == st.s.lags + |LagTimes(st, steps)| <= 9
    ensures end.s.lagWindowStarted == st.s.lagWindowStarted
    ensures end.s.phase.Closed? <==> st.s.lags + |LagTimes(st, steps)| == 9
  {
    RunSpends(st, steps, end);
    InOneMinute(BudgetOf(st.s), LagTimes(st, steps));
  }

  /** What the count says of the lags so far. */
  ghost predicate Booked(b: Budget, times: seq<int>) {
    && b.lags <= |times| && b.lags <= 9
    && (b.closed <==> b.lags == 9)
    && (b.lags < |times| ==> b.lags > 0)
    && (forall i :: 0 <= i < |times| - b.lags ==> times[i] <= b.started)
    && (forall i :: 0 <= i < |times| - b.lags - 8 ==> times[i] + 60_000 < b.started)
    && (forall i :: 0 <= |times| - b.lags <= i < |times| ==> b.started <= times[i] <= b.started + 60_000)
  }

  /** No seventeen lags in a minute. */
  ghost predicate Sparse(times: seq<int>) {
    forall i :: 0 <= i < |times| - 16 ==> times[i] + 60_000 < times[i + 16]
  }

  lemma LagBooks(b: Budget, times: seq<int>, now: int)
    requires Booked(b, times) && Sparse(times) && !b.closed && b.started <= now
    requires forall i :: 0 <= i < |times| ==> times[i] <= now
    ensures Booked(Spend(b, now), times + [now])
    ensures !Spend(b, now).closed ==> Sparse(times + [now])
  {
    var all := times + [now];
    assert forall i :: 0 <= i < |times| ==> all[i] == times[i];
    if !Spend(b, now).closed {
      forall i | 0 <= i < |all| - 16 ensures all[i] + 60_000 < all[i + 16] {
        if i + 16 < |times| { assert times[i] + 60_000 < times[i + 16]; }
      }
    }
  }

  /** The clock the socket reads does not run backwards. */
  predicate Ticking(from: int, times: seq<int>)
    decreases |times|
  {
    times == [] || (from <= times[0] && Ticking(times[0], times[1..]))
  }

  lemma {:induction false} AllBooked(b: Budget, before: seq<int>, clock: int, times: seq<int>)
    requires Booked(b, before) && (!b.closed ==> Sparse(before)) && OpenBefore(b, times)
    requires b.started <= clock && (forall i :: 0 <= i < |before| ==> before[i] <= clock) && Ticking(clock, times)
    ensures Booked(SpendAll(b, times), before + times)
    ensures !SpendAll(b, times).closed ==> Sparse(before + times)
    decreases |times|
  {
    if times == [] {
      assert before + times == before;
    } else {
      LagBooks(b, before, times[0]);
      AllBooked(Spend(b, times[0]), before + [times[0]], times[0], times[1..]);
      assert before + [times[0]] + times[1..] == before + times;
    }
  }

  /** A count that starts at an instant and is spent only by these lags. */
  lemma CountIsBounded(at: int, times: seq<int>)
    requires OpenBefore(Budget(0, at, false), times) && Ticking(at, times)
    ensures var b := SpendAll(Budget(0, at, false), times);
      if b.closed then |times| >= 9 && times[|times| - 1] <= times[|times| - 9] + 60_000 else Sparse(times)
  {
    AllBooked(Budget(0, at, false), [], at, times);
    assert [] + times == times;
  }

  /**
   Over any run of one socket, from an unspent budget on: it is closed only if its last nine lags fell in one
   minute, and open only if no minute had seventeen.
   */
  lemma LagsAreBounded(st: State, at: int, steps: seq<Step>, end: State)
    requires st.w.Valid() && st.s.rx <= |st.w.log| && OneSocket(steps) && Reaches(st, steps, end)
    requires BudgetOf(st.s) == Budget(0, at, false) && Ticking(at, LagTimes(st, steps))
    ensures var times := LagTimes(st, steps);
      if end.s.phase.Closed? then |times| >= 9 && times[|times| - 1] <= times[|times| - 9] + 60_000
      else forall i :: 0 <= i < |times| - 16 ==> times[i] + 60_000 < times[i + 16]
  {
    RunSpends(st, steps, end);
    CountIsBounded(at, LagTimes(st, steps));
  }

  function Burst(at: int, n: nat): seq<int> { if n == 0 then [] else [at] + Burst(at, n - 1) }

  lemma {:induction false} BurstFits(b: Budget, at: int, n: nat)
    requires !b.closed && b.lags + n <= 8 && at <= b.started + 60_000
    ensures OpenBefore(b, Burst(at, n)) && SpendAll(b, Burst(at, n)) == Budget(b.lags + n, b.started, false)
    decreases n
  {
    if n > 0 {
      assert Burst(at, n)[1..] == Burst(at, n - 1);
      BurstFits(Spend(b, at), at, n - 1);
    }
  }

  /** The windows tumble: eight lags at the end of one and eight more a millisecond later leave the socket open. */
  lemma SixteenLagsInAMinute(at: int)
    ensures var times := Burst(at + 60_000, 8) + Burst(at + 60_001, 8);
      OpenBefore(Budget(0, at, false), times) && !SpendAll(Budget(0, at, false), times).closed
  {
    BurstFits(Budget(0, at, false), at + 60_000, 8);
    BurstFits(Budget(1, at + 60_001, false), at + 60_001, 7);
    assert Burst(at + 60_001, 8)[1..] == Burst(at + 60_001, 7);
    SpendsOn(Budget(0, at, false), Burst(at + 60_000, 8), Burst(at + 60_001, 8));
  }

  /** A socket connects with an unspent budget. */
  lemma ConnectsUnspent(st: State, since: Option<nat>, own: Client, at: int)
    ensures BudgetOf(Connect(st, since, own, at).s) == Budget(0, at, false)
  {
  }

  // -- what brings a socket live -----------------------------------------------------

  /** The socket's own next move; a live or a closed one has none to make. */
  function Own(st: State): State
    requires st.w.Valid()
  {
    match st.s.phase
    case Snapshotting => TakeSnapshot(st)
    case CheckingHead => CheckHead(st)
    case Folding => FoldGap(st)
    case Resuming(_) => AnswerResume(st)
    case _ => st
  }

  /** A cursor the ring still covers is answered at once; any other starts over with a snapshot. */
  lemma AnsweredAtOnce(st: State)
    requires st.w.Valid() && st.s.phase.Resuming?
    ensures Own(st).s.phase == if st.w.Floor() <= st.s.phase.since <= st.w.Head() then Live else Snapshotting
  {
  }

  /**
   A client that connects or asks with a cursor the ring covers is handed everything above that cursor, and only
   that, on top of what it holds.
   */
  lemma ResumeHandsOver(st: State, since: nat, own: Client, at: int)
    requires st.w.Valid() && st.w.Floor() <= since <= st.w.Head()
    ensures HandedOver(st.w, st.s.client, since, Own(AskResume(st, since)).s)
    ensures HandedOver(st.w, own, since, Own(Connect(st, Some(since), own, at)).s)
  {
    CoveredCursorIsHandedOver(AskResume(st, since));
    CoveredCursorIsHandedOver(Connect(st, Some(since), own, at));
  }

  ghost predicate HandedOver(w: Window, held: Client, since: nat, s: Session) {
    var newer := w.log[Seen(w.log, since)..];
    && s.phase.Live? && SeenBy(w.log, s.cursor) == |w.log|
    && s.sent == Range(Seen(w.log, since), |w.log|)
    && s.client == Replay(held, Bodies(newer)) && s.others == OthersIn(Bodies(newer))
  }

  lemma CoveredCursorIsHandedOver(st: State)
    requires st.w.Valid() && st.s.phase.Resuming? && st.w.Floor() <= st.s.phase.since <= st.w.Head()
    ensures HandedOver(st.w, st.s.client, st.s.phase.since, Own(st).s)
  {
    if st.s.phase.since == st.w.Head() {
      HeadIsSeen(st.w, st.s.phase.since);
      assert Bodies(st.w.log[|st.w.log|..]) == [];
    } else {
      FoldReaches(st.w, st.s.phase.since, st.s.client);
    }
  }

  /** Any other cursor is answered by a snapshot, and so is a client that presents none. */
  lemma OthersStartOver(st: State, since: Option<nat>, own: Client, at: int)
    requires st.w.Valid()
    ensures since.None? ==> Connect(st, since, own, at).s.phase.Snapshotting?
    ensures since.Some? && !(st.w.Floor() <= since.value <= st.w.Head()) ==>
              && Own(Connect(st, since, own, at)).s.phase.Snapshotting?
              && Own(AskResume(st, since.value)).s.phase.Snapshotting?
  {
  }

  /** The empty generation that stands until the first one, against a frame that is numbered like it. */
  ghost predicate ZeroIsHidden(w: Window, gen: Gen) {
    gen == Gen(0, map[]) && w.log != [] && w.log[0].seqNo == 0
  }

  /**
   A snapshot and its catch-up lose nothing exactly if the generation is as new as the head, or the ring still
   covers it, and it does not hide a frame numbered 0; or if the receiver was taken before anything newer.
   */
  lemma SnapshotLosesNothingExactly(st: State)
    requires HubInv(st.w, st.gen) && SessionInv(st.w, st.s) && st.s.phase.Snapshotting?
    ensures var checked := CheckHead(TakeSnapshot(st));
      var end := if checked.s.phase.Live? then checked else FoldGap(checked);
      && end.s.phase.Live?
      && (Sound(st.w, end.s) <==>
            if st.w.Head() <= st.gen.seqNo then !(ZeroIsHidden(st.w, st.gen) && st.s.rx > 0)
            else if st.w.Floor() <= st.gen.seqNo then !ZeroIsHidden(st.w, st.gen)
            else st.s.rx <= if st.gen == Gen(0, map[]) then 0 else Seen(st.w.log, st.gen.seqNo))
  {
    var taken := TakeSnapshot(st);
    CheckHeadSound(taken);
    var checked := CheckHead(taken);
    if checked.s.phase.Folding? { FoldGapSound(checked); }
  }

  /** How many moves a socket is at most away from being live. */
  function Away(phase: Phase): nat {
    match phase
    case Resuming(_) => 4
    case Snapshotting => 3
    case CheckingHead => 2
    case Folding => 1
    case _ => 0
  }

  /** A move changes neither the hub nor what the socket has still to receive, nor its lags. */
  predicate KeepsReceiver(st: State, next: State) {
    && next.w == st.w && next.gen == st.gen
    && next.s.rx == st.s.rx && next.s.lags == st.s.lags && next.s.lagWindowStarted == st.s.lagWindowStarted
  }

  lemma OwnKeepsReceiver(st: State)
    requires st.w.Valid()
    ensures KeepsReceiver(st, Own(st))
  {
  }

  lemma OwnMoves(st: State)
    requires st.w.Valid()
    ensures var next := Own(st);
      && KeepsReceiver(st, next)
      && (next.s.phase.Closed? <==> st.s.phase.Closed?)
      && (if Away(st.s.phase) == 0 then next == st else Away(next.s.phase) < Away(st.s.phase))
  {
    OwnKeepsReceiver(st);
    if st.s.phase.Resuming? { AnsweredAtOnce(st); }
  }

  /** Left to itself, a socket that is not closed is live after at most four moves. */
  lemma LiveInFour(st: State)
    requires st.w.Valid() && !st.s.phase.Closed?
    ensures Own(st).w.Valid() && Own(Own(st)).w.Valid() && Own(Own(Own(st))).w.Valid()
    ensures var end := Own(Own(Own(Own(st)))); end.s.phase.Live? && KeepsReceiver(st, end)
  {
    OwnMoves(st);
    OwnMoves(Own(st));
    OwnMoves(Own(Own(st)));
    OwnMoves(Own(Own(Own(st))));
  }
}

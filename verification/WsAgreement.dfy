/**
 What a client holds, told as the server's own state: if every published generation carries the state at
 its number, so does every live client at its cursor.
 */
module WsAgreement {
  import opened Prelude
  import opened Frames
  import opened ReplayFold
  import opened ReplayRing
  import opened WsProtocol

  /** The server's state after its first `n` frames, if it started from `initial`. */
  function StateAt(initial: Client, log: seq<Entry>, n: nat): Client
    requires n <= |log|
  {
    Replay(initial, Bodies(log[..n]))
  }

  /** The empty generation that stands until the first one is published. */
  const BOOT_GEN := Gen(0, map[])

  ghost predicate Reflects(initial: Client, log: seq<Entry>, gen: Gen) {
    gen.content == StateAt(initial, log, Seen(log, gen.seqNo))
  }

  /**
   A published generation carries the server's state, a client presents a cursor it was given, connecting
   with what it held there, and no snapshot is taken of the empty boot generation unless the server did start
   empty.
   */
  ghost predicate Honest(initial: Client, st: State, step: Step) {
    match step
    case DoRepublish(content) => content == StateAt(initial, st.w.log, |st.w.log|)
    case DoConnect(since, own, _) =>
      since.Some? ==> since.value <= st.w.Head() && own == StateAt(initial, st.w.log, Seen(st.w.log, since.value))
    case DoAsk(since) => st.s.cursor.Some? && since <= st.s.cursor.value
    case DoSnapshot => initial == map[] || st.gen != BOOT_GEN
    case _ => true
  }

  ghost predicate AllHonest(initial: Client, st: State, steps: seq<Step>)
    requires st.w.Valid() && st.s.rx <= |st.w.log|
    decreases |steps|
  {
    steps == [] ||
    (&& Honest(initial, st, steps[0])
     && Enabled(st, steps[0])
     && var next := Next(st, steps[0]);
        next.w.Valid() && next.s.rx <= |next.w.log| ==> AllHonest(initial, next, steps[1..]))
  }

  /** The client holds the server's state at its cursor, and resumes from there or from before. */
  ghost predicate ClientAgrees(initial: Client, w: Window, s: Session) {
    && s.cursor.GetOr(0) <= w.Head()
    && s.client == StateAt(initial, w.log, SeenBy(w.log, s.cursor))
    && (s.phase.Resuming? ==> s.cursor.Some? && s.phase.since <= s.cursor.value)
  }

  ghost predicate Agrees(initial: Client, st: State) {
    && (st.gen == BOOT_GEN || Reflects(initial, st.w.log, st.gen))
    && (st.s.phase.Snapshotting? || st.s.phase.Closed? || ClientAgrees(initial, st.w, st.s))
  }

  /** Going on from a state the server had leads to a state the server had. */
  lemma StateGoesOn(initial: Client, log: seq<Entry>, from: nat, to: nat)
    requires from <= to <= |log|
    ensures Replay(StateAt(initial, log, from), Bodies(log[from..to])) == StateAt(initial, log, to)
  {
    assert log[..from] == log[0..from] && log[..to] == log[0..to];
    ReplaySplit(initial, log, 0, from, to);
  }

  /** Everything newer than a cursor leads to the newest state, from that cursor's state or from a later one. */
  lemma StateCatchesUp(initial: Client, log: seq<Entry>, at: nat, k: nat)
    requires at <= k <= |log|
    ensures Replay(StateAt(initial, log, k), Bodies(log[at..])) == StateAt(initial, log, |log|)
  {
    assert log[..at] == log[0..at] && log[..k] == log[0..k] && log[at..] == log[at..|log|];
    RefoldFromEarlier(initial, log, 0, at, k);
    StateGoesOn(initial, log, at, |log|);
  }

  lemma PublishAgrees(initial: Client, st: State, e: Entry, evicted: nat)
    requires Good(st.w, st.gen, st.s) && Agrees(initial, st) && Enabled(st, DoPublish(e, evicted))
    ensures Agrees(initial, Publish(st, e, evicted))
  {
    PublishKeepsHub(st.w, st.gen, e, evicted);
    SeenIsStable(st.w, e, st.gen.seqNo);
    StateStays(initial, st.w.log, e, Seen(st.w.log, st.gen.seqNo));
    if ClientAgrees(initial, st.w, st.s) {
      PublishKeepsSeen(st.w, e, st.s.cursor);
      StateStays(initial, st.w.log, e, SeenBy(st.w.log, st.s.cursor));
    }
  }

  lemma StateStays(initial: Client, log: seq<Entry>, e: Entry, n: nat)
    requires n <= |log|
    ensures StateAt(initial, log + [e], n) == StateAt(initial, log, n)
  {
    assert (log + [e])[..n] == log[..n];
  }

  lemma RepublishAgrees(initial: Client, st: State, content: Client)
    requires Good(st.w, st.gen, st.s) && Agrees(initial, st) && Honest(initial, st, DoRepublish(content))
    ensures Agrees(initial, Republish(st, content))
  {
    HeadIsSeen(st.w, st.w.Head());
  }

  lemma SnapshotAgrees(initial: Client, st: State)
    requires Good(st.w, st.gen, st.s) && Agrees(initial, st) && Honest(initial, st, DoSnapshot)
    ensures Agrees(initial, TakeSnapshot(st))
  {
    assert Bodies(st.w.log[..0]) == [];
  }

  /** A fold above a cursor the client has reached leaves it with the newest state. */
  lemma FoldAgrees(initial: Client, w: Window, s: Session, since: nat)
    requires w.Valid() && w.Floor() <= since <= w.Head()
    requires Seen(w.log, since) <= SeenBy(w.log, s.cursor)
    requires s.client == StateAt(initial, w.log, SeenBy(w.log, s.cursor))
    ensures var fold := FoldAfter(w, since);
      Seen(w.log, fold.to) == |w.log| && Replay(s.client, Emit(fold)) == StateAt(initial, w.log, |w.log|)
  {
    FoldReaches(w, since, s.client);
    StateCatchesUp(initial, w.log, Seen(w.log, since), SeenBy(w.log, s.cursor));
  }

  lemma MergedAnswerAgrees(initial: Client, st: State)
    requires st.w.Valid() && ClientAgrees(initial, st.w, st.s) && st.s.phase.Resuming?
    requires st.w.Floor() <= st.s.phase.since < st.w.Head()
    ensures var s := AnswerResume(st).s;
      s.phase.Live? && s.client == StateAt(initial, st.w.log, SeenBy(st.w.log, s.cursor))
  {
    SeenMonotone(st.w.log, st.s.phase.since, st.s.cursor.value);
    FoldAgrees(initial, st.w, st.s, st.s.phase.since);
  }

  lemma CurrentAnswerAgrees(initial: Client, st: State)
    requires st.w.Valid() && ClientAgrees(initial, st.w, st.s) && st.s.phase.Resuming?
    requires st.s.phase.since == st.w.Head()
    ensures var s := AnswerResume(st).s;
      s.phase.Live? && s.client == StateAt(initial, st.w.log, SeenBy(st.w.log, s.cursor))
  {
    assert st.s.cursor == Some(st.w.Head());
  }

  lemma AnswerAgrees(initial: Client, st: State)
    requires Good(st.w, st.gen, st.s) && Agrees(initial, st) && st.s.phase.Resuming?
    ensures Agrees(initial, AnswerResume(st))
  {
    var since := st.s.phase.since;
    AnswerIsGood(st);
    if since == st.w.Head() {
      CurrentAnswerAgrees(initial, st);
    } else if st.w.Floor() <= since < st.w.Head() {
      MergedAnswerAgrees(initial, st);
    }
  }

  lemma FoldGapAgrees(initial: Client, st: State)
    requires Good(st.w, st.gen, st.s) && Agrees(initial, st) && Enabled(st, DoFold)
    ensures Agrees(initial, FoldGap(st))
  {
    var seen := st.s.cursor.GetOr(0);
    FoldGapIsGood(st);
    if st.w.Floor() <= seen {
      FoldFromBase(st.w, st.s);
      FoldAgrees(initial, st.w, st.s, seen);
    }
  }

  lemma StateTakesFrame(initial: Client, log: seq<Entry>, k: nat)
    requires k < |log|
    ensures StateAt(initial, log, k + 1) == Apply(StateAt(initial, log, k), log[k].body)
  {
    OneMoreFrame(initial, log, 0, k);
    assert log[0..k] == log[..k] && log[0..k + 1] == log[..k + 1];
  }

  lemma ForwardAgrees(initial: Client, w: Window, s: Session)
    requires w.Valid() && ClientAgrees(initial, w, s) && s.rx < |w.log| && s.rx <= SeenBy(w.log, s.cursor)
    requires s.cursor.None? || w.log[s.rx].seqNo > s.cursor.value
    ensures Apply(s.client, w.log[s.rx].body) == StateAt(initial, w.log, Seen(w.log, w.log[s.rx].seqNo))
  {
    NewerIsNext(w, s);
    StateTakesFrame(initial, w.log, s.rx);
  }

  lemma ReceiveAgrees(initial: Client, st: State, now: int)
    requires Good(st.w, st.gen, st.s) && Agrees(initial, st) && Enabled(st, DoReceive(now))
    ensures Agrees(initial, Receive(st, now))
  {
    var w, s := st.w, st.s;
    ReceiveIsGood(st, now);
    if |w.log| - s.rx <= BROADCAST_CAPACITY && s.rx < |w.log| {
      if s.cursor.None? || w.log[s.rx].seqNo > s.cursor.value {
        ForwardAgrees(initial, w, s);
      }
    }
  }

  lemma ConnectAgrees(initial: Client, st: State, since: Option<nat>, own: Client, now: int)
    requires Agrees(initial, st) && st.w.Valid() && Honest(initial, st, DoConnect(since, own, now))
    ensures Agrees(initial, Connect(st, since, own, now))
  {
  }

  /** A snapshot of a generation just published at the head needs no catch-up. */
  lemma FreshGenerationIsCurrent(initial: Client, st: State, content: Client)
    requires st.w.Valid() && Honest(initial, st, DoRepublish(content))
    ensures var end := CheckHead(TakeSnapshot(Republish(st, content)));
      end.s.phase.Live? && end.s.client == StateAt(initial, st.w.log, |st.w.log|)
  {
  }

  /** The other steps change neither what the client holds nor its cursor. */
  lemma PhaseAgrees(initial: Client, st: State, step: Step)
    requires Good(st.w, st.gen, st.s) && Agrees(initial, st) && Enabled(st, step) && Honest(initial, st, step)
    requires step.DoCheckHead? || step.DoAsk? || step.DoAskAnew? || step.DoOtherBoot?
    ensures Agrees(initial, Next(st, step))
  {
  }

  lemma StepAgrees(initial: Client, st: State, step: Step)
    requires Good(st.w, st.gen, st.s) && Agrees(initial, st) && Enabled(st, step) && Honest(initial, st, step)
    ensures Agrees(initial, Next(st, step))
  {
    match step
    case DoPublish(e, evicted) => PublishAgrees(initial, st, e, evicted);
    case DoRepublish(content) => RepublishAgrees(initial, st, content);
    case DoSnapshot => SnapshotAgrees(initial, st);
    case DoAnswer => AnswerAgrees(initial, st);
    case DoFold => FoldGapAgrees(initial, st);
    case DoReceive(now) => ReceiveAgrees(initial, st, now);
    case DoConnect(since, own, now) => ConnectAgrees(initial, st, since, own, now);
    case _ => PhaseAgrees(initial, st, step);
  }

  lemma {:induction false} RunAgrees(initial: Client, st: State, steps: seq<Step>, end: State)
    requires Good(st.w, st.gen, st.s) && Agrees(initial, st)
    requires Reaches(st, steps, end) && AllHonest(initial, st, steps)
    ensures Good(end.w, end.gen, end.s) && Agrees(initial, end)
    decreases |steps|
  {
    if steps != [] {
      StepIsGood(st, steps[0]);
      StepAgrees(initial, st, steps[0]);
      RunAgrees(initial, Next(st, steps[0]), steps[1..], end);
    }
  }

  lemma DrainedHasSeenAll(w: Window, s: Session)
    requires Sound(w, s) && s.rx == |w.log|
    ensures SeenBy(w.log, s.cursor) == |w.log| && w.log[..SeenBy(w.log, s.cursor)] == w.log
  {
  }

  /**
   Whatever the interleaving, a live client holds the server's state at its cursor, and once its receiver is
   drained it holds what the server holds.
   */
  lemma ClientIsServer(boot: nat, initial: Client, steps: seq<Step>, end: State)
    requires Reaches(Booted(boot), steps, end) && AllHonest(initial, Booted(boot), steps)
    requires end.s.phase.Live?
    ensures end.s.client == StateAt(initial, end.w.log, SeenBy(end.w.log, end.s.cursor))
    ensures end.s.rx == |end.w.log| ==> end.s.client == Replay(initial, Bodies(end.w.log))
  {
    RunAgrees(initial, Booted(boot), steps, end);
    if end.s.rx == |end.w.log| { DrainedHasSeenAll(end.w, end.s); }
  }
}

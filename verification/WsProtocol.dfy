/**
 The WebSocket cursor protocol: subscribe, snapshot, catch up, then forward what is newer than the
 cursor. Every step below is one atomic section, so a run may interleave hub publishes and
 generation swaps anywhere between them.
 */
module WsProtocol {
  import opened Prelude
  import opened Frames
  import opened ReplayFold
  import opened FoldWords
  import opened ReplayRing

  const BROADCAST_CAPACITY: nat := 256
  const LAG_BUDGET: nat := 8
  const LAG_WINDOW_MS: int := 60_000

  /** The generation readers load: the head when it was stored, and what it carried. */
  datatype Gen = Gen(seqNo: nat, content: Client)

  datatype Phase = Snapshotting | CheckingHead | Folding | Resuming(since: nat) | Live | Closed

  /**
   One socket. `rx` is the index of the next broadcast frame; `base` is the state the client last
   replaced or presented, `baseAt` the first frame that state does not reflect, `sent` the indices
   of the frames handed over since, and `others` those among them that speak of no item.
   */
  datatype Session = Session(
    phase: Phase,
    rx: nat,
    cursor: Option<nat>,
    client: Client,
    lags: nat,
    lagWindowStarted: int,
    base: Client,
    baseAt: nat,
    sent: seq<nat>,
    others: seq<FrameBody>)

  datatype State = State(w: Window, gen: Gen, s: Session)

  function SeenBy(log: seq<Entry>, cursor: Option<nat>): (k: nat)
    ensures k <= |log|
  {
    if cursor.None? then 0 else Seen(log, cursor.value)
  }

  function Range(lo: nat, hi: nat): (r: seq<nat>)
    ensures |r| == if lo <= hi then hi - lo else 0
    ensures forall i :: 0 <= i < |r| ==> r[i] == lo + i
  {
    seq(if lo <= hi then hi - lo else 0, i => lo + i)
  }

  /** What the hub hands back for a replayable cursor. */
  function FoldAfter(w: Window, since: nat): Fold
    requires w.cut <= |w.log|
  {
    var newer := After(w.Retained(), since);
    FoldOf(Bodies(newer), since, if newer == [] then since else w.Head())
  }

  /** The ring's own answer is the hub's. */
  lemma RingAnswers(w: Window, since: nat)
    requires w.Valid()
    ensures FoldOf(Bodies(After(w.Retained(), since)), since, Reached(w.Retained(), since)) == FoldAfter(w, since)
  {
    var kept := w.Retained();
    assert Reached(kept, since) == if After(kept, since) == [] then since else w.Head() by {
      assert kept != [] ==> kept[|kept| - 1] == w.log[|w.log| - 1];
    }
  }

  // -- the steps ---------------------------------------------------------------

  function Publish(st: State, e: Entry, evicted: nat): State {
    st.(w := Window(st.w.log + [e], st.w.cut + evicted, st.w.boot))
  }

  function Republish(st: State, content: Client): State {
    st.(gen := Gen(st.w.Head(), content))
  }

  /** A fresh socket: the receiver is taken before the snapshot is. */
  function Connect(st: State, since: Option<nat>, own: Client, now: int): State {
    var start := if since.None? then Snapshotting else Resuming(since.value);
    st.(s := Session(start, |st.w.log|, since, own, 0, now, own, SeenBy(st.w.log, since), [], []))
  }

  function TakeSnapshot(st: State): State {
    var cursor := if st.gen.seqNo == 0 && st.gen.content == map[] then None else Some(st.gen.seqNo);
    st.(s := st.s.(
      phase := CheckingHead, cursor := cursor, client := st.gen.content,
      base := st.gen.content, baseAt := SeenBy(st.w.log, cursor), sent := [], others := []))
  }

  function CheckHead(st: State): State {
    st.(s := st.s.(phase := if st.w.Head() <= st.s.cursor.GetOr(0) then Live else Folding))
  }

  function FoldGap(st: State): State
    requires st.w.Valid()
  {
    var seen := st.s.cursor.GetOr(0);
    if seen < st.w.Floor() then
      st.(s := st.s.(phase := Live))
    else
      var fold := FoldAfter(st.w, seen);
      st.(s := st.s.(
        phase := Live, cursor := Some(fold.to), client := Replay(st.s.client, Emit(fold)),
        sent := st.s.sent + Range(Seen(st.w.log, seen), |st.w.log|),
        others := st.s.others + OthersIn(Emit(fold))))
  }

  /**
   What a client held at the cursor it presents: worked out from its base, as long as base and frames since
   account for what it holds, and otherwise what it holds.
   */
  function Presented(w: Window, s: Session, at: nat): Client
    requires at <= |w.log|
  {
    var k := SeenBy(w.log, s.cursor);
    if s.baseAt <= at <= k && s.client == Replay(s.base, Bodies(w.log[s.baseAt..k]))
    then Replay(s.base, Bodies(w.log[s.baseAt..at]))
    else s.client
  }

  /** The answer to a cursor, whatever cursor it is. */
  function AnswerResume(st: State): State
    requires st.w.Valid() && st.s.phase.Resuming?
  {
    var since := st.s.phase.since;
    var at := Seen(st.w.log, since);
    if since == st.w.Head() then
      st.(s := st.s.(
        phase := Live, cursor := Some(since), base := Presented(st.w, st.s, at), baseAt := at, sent := [],
        others := []))
    else if since > st.w.Head() || since < st.w.Floor() then
      st.(s := st.s.(phase := Snapshotting))
    else
      var fold := FoldAfter(st.w, since);
      st.(s := st.s.(
        phase := Live, cursor := Some(fold.to), client := Replay(st.s.client, Emit(fold)),
        base := Presented(st.w, st.s, at), baseAt := at, sent := Range(at, |st.w.log|),
        others := OthersIn(Emit(fold))))
  }

  /** One bus receive: a lag costs a resync or the socket, a frame is forwarded if it is newer. */
  function Receive(st: State, now: int): State
    requires st.s.rx <= |st.w.log|
  {
    var s := st.s;
    if |st.w.log| - s.rx > BROADCAST_CAPACITY then
      var expired := now - s.lagWindowStarted > LAG_WINDOW_MS;
      var lags := (if expired then 0 else s.lags) + 1;
      st.(s := s.(
        rx := |st.w.log| - BROADCAST_CAPACITY,
        lags := lags,
        lagWindowStarted := if expired then now else s.lagWindowStarted,
        phase := if lags > LAG_BUDGET then Closed else Snapshotting))
    else if s.rx == |st.w.log| then
      st
    else
      var frame := st.w.log[s.rx];
      if s.cursor.None? || frame.seqNo > s.cursor.value then
        st.(s := s.(
          rx := s.rx + 1, cursor := Some(frame.seqNo),
          client := Apply(s.client, frame.body), sent := s.sent + [s.rx],
          others := s.others + OthersIn([frame.body])))
      else
        st.(s := s.(rx := s.rx + 1))
  }

  function AskResume(st: State, since: nat): State {
    st.(s := st.s.(phase := Resuming(since)))
  }

  /** A resume that names another boot, or none, is answered by a snapshot. */
  function StartOver(st: State): State {
    st.(s := st.s.(phase := Snapshotting))
  }

  // -- what holds in every state -------------------------------------------------

  ghost predicate HubInv(w: Window, gen: Gen) {
    && w.Valid()
    && gen.seqNo <= w.Head()
  }

  ghost predicate SessionInv(w: Window, s: Session) {
    && s.rx <= |w.log|
    && s.baseAt <= |w.log|
    && (s.phase.CheckingHead? || s.phase.Folding? ==>
          && s.sent == [] && s.others == [] && s.client == s.base
          && s.baseAt == SeenBy(w.log, s.cursor)
          && s.cursor.GetOr(0) <= w.Head())
    && (s.phase.Folding? ==> s.cursor.GetOr(0) < w.Head())
  }

  /** Every frame newer than the base has been sent once, in order, or is still in the receiver. */
  ghost predicate Sound(w: Window, s: Session) {
    var k := SeenBy(w.log, s.cursor);
    && s.rx <= k
    && s.baseAt <= k
    && s.sent == Range(s.baseAt, k)
    && s.client == Replay(s.base, Bodies(w.log[s.baseAt..k]))
    && s.others == OthersIn(Bodies(w.log[s.baseAt..k]))
  }

  /** A frame numbered 0 that a cursor of `None` cannot tell from "nothing yet". */
  ghost predicate ZeroFrame(w: Window, s: Session) {
    s.cursor.None? && w.log != [] && w.log[0].seqNo == 0
  }

  lemma HeadIsSeen(w: Window, c: nat)
    requires w.Valid() && w.Head() <= c
    ensures Seen(w.log, c) == |w.log|
  {
    SeenSplits(w.log, c);
    if w.log != [] { assert w.log[|w.log| - 1].seqNo <= c; }
  }

  lemma FoldReaches(w: Window, since: nat, s: Client)
    requires w.Valid() && w.Floor() <= since <= w.Head()
    ensures Replay(s, Emit(FoldAfter(w, since))) == Replay(s, Bodies(w.log[Seen(w.log, since)..]))
    ensures OthersIn(Emit(FoldAfter(w, since))) == OthersIn(Bodies(w.log[Seen(w.log, since)..]))
    ensures Seen(w.log, FoldAfter(w, since).to) == |w.log|
  {
    RingCoversAboveFloor(w, since);
    var newer := After(w.Retained(), since);
    FoldIsReplay(Bodies(newer), since, FoldAfter(w, since).to, s);
    FoldKeepsOthers(Bodies(newer), since, FoldAfter(w, since).to);
    if newer == [] {
      assert Seen(w.log, since) == |w.log|;
    } else {
      HeadIsSeen(w, w.Head());
    }
  }

  /** Nothing newer than the snapshot: the connect is complete unless a frame numbered 0 slipped by. */
  lemma CheckHeadSound(st: State)
    requires HubInv(st.w, st.gen) && SessionInv(st.w, st.s) && st.s.phase.CheckingHead?
    ensures SessionInv(st.w, CheckHead(st).s)
    ensures CheckHead(st).s.phase.Live? ==>
              (Sound(st.w, CheckHead(st).s) <==> !(ZeroFrame(st.w, st.s) && st.s.rx > 0))
  {
    var s := CheckHead(st).s;
    if s.phase.Live? {
      var log := st.w.log;
      if s.cursor.Some? {
        HeadIsSeen(st.w, s.cursor.value);
        assert log[s.baseAt..|log|] == [];
      } else {
        assert log != [] ==> log[0].seqNo == 0;
        assert log[0..0] == [];
      }
      assert Bodies(log[s.baseAt..SeenBy(log, s.cursor)]) == [];
    }
  }

  lemma FoldFromBase(w: Window, s: Session)
    requires w.Valid() && SessionInv(w, s) && s.phase.Folding?
    ensures var at := Seen(w.log, s.cursor.GetOr(0));
      if ZeroFrame(w, s) then 0 == s.baseAt < at else at == s.baseAt
  {
    SeenSplits(w.log, s.cursor.GetOr(0));
  }

  /** A fold above the cursor delivers everything newer, except a frame numbered 0 to a `None`. */
  lemma FoldedSound(w: Window, s: Session, to: nat, after: Client, next: Session)
    requires w.Valid() && SessionInv(w, s) && s.phase.Folding?
    requires Seen(w.log, to) == |w.log|
    requires after == Replay(s.client, Bodies(w.log[Seen(w.log, s.cursor.GetOr(0))..]))
    requires next == s.(phase := Live, cursor := Some(to), client := after,
                        sent := s.sent + Range(Seen(w.log, s.cursor.GetOr(0)), |w.log|),
                        others := s.others + OthersIn(Bodies(w.log[Seen(w.log, s.cursor.GetOr(0))..])))
    ensures SessionInv(w, next)
    ensures Sound(w, next) <==> !ZeroFrame(w, s)
  {
    var at := Seen(w.log, s.cursor.GetOr(0));
    FoldFromBase(w, s);
    assert next.sent == Range(at, |w.log|);
    if ZeroFrame(w, s) {
      assert |next.sent| != |Range(0, |w.log|)|;
    } else {
      assert w.log[at..|w.log|] == w.log[at..];
      assert [] + OthersIn(Bodies(w.log[at..])) == OthersIn(Bodies(w.log[at..]));
    }
  }

  /** A refused cursor leaves the session sound only when the receiver already holds every newer frame. */
  lemma RefusedSound(w: Window, s: Session, next: Session)
    requires w.Valid() && SessionInv(w, s) && s.phase.Folding? && s.cursor.GetOr(0) < w.Floor()
    requires next == FoldGap(State(w, Gen(0, map[]), s)).s
    ensures SessionInv(w, next) && next.phase.Live?
    ensures Sound(w, next) <==> s.rx <= s.baseAt
  {
    assert w.log[s.baseAt..s.baseAt] == [];
    assert Bodies(w.log[s.baseAt..s.baseAt]) == [];
    assert Range(s.baseAt, s.baseAt) == [];
  }

  /**
   The catch-up closes the gap exactly when the ring still covers the snapshot's cursor, or there
   was no gap; a frame numbered 0 is the one a fold above 0 cannot carry.
   */
  lemma FoldGapSound(st: State)
    requires HubInv(st.w, st.gen) && SessionInv(st.w, st.s) && st.s.phase.Folding?
    ensures SessionInv(st.w, FoldGap(st).s) && FoldGap(st).s.phase.Live?
    ensures Sound(st.w, FoldGap(st).s) <==>
              if st.w.Floor() <= st.s.cursor.GetOr(0) then !ZeroFrame(st.w, st.s)
              else st.s.rx <= st.s.baseAt
  {
    if st.w.Floor() <= st.s.cursor.GetOr(0) {
      var seen := st.s.cursor.GetOr(0);
      var fold := FoldAfter(st.w, seen);
      FoldReaches(st.w, seen, st.s.client);
      FoldedSound(st.w, st.s, fold.to, Replay(st.s.client, Emit(fold)), FoldGap(st).s);
    } else {
      RefusedSound(st.w, st.s, FoldGap(st).s);
    }
  }

  // -- whole runs ------------------------------------------------------------------

  datatype Step =
    | DoPublish(e: Entry, evicted: nat)
    | DoRepublish(content: Client)
    | DoConnect(since: Option<nat>, own: Client, at: int)
    | DoSnapshot
    | DoCheckHead
    | DoFold
    | DoAnswer
    | DoReceive(now: int)
    | DoAsk(asked: nat)
    | DoAskAnew
    | DoOtherBoot

  /** No frame is numbered like the boot cursor: the store had handed out a number before. */
  ghost predicate Positive(w: Window) {
    w.log != [] ==> w.boot < w.log[0].seqNo
  }

  /**
   When a step may happen. A client may present any cursor; the one thing asked of the server is that a
   catch-up finds its cursor still in the ring, or has nothing to catch up on.
   */
  ghost predicate Enabled(st: State, step: Step)
    requires st.w.Valid()
  {
    match step
    case DoPublish(e, evicted) => st.w.Next(e) && st.w.boot < e.seqNo && st.w.cut + evicted <= |st.w.log|
    case DoRepublish(_) => true
    case DoConnect(_, _, _) => true
    case DoSnapshot => st.s.phase.Snapshotting?
    case DoCheckHead => st.s.phase.CheckingHead?
    case DoFold => st.s.phase.Folding? && (st.w.Floor() <= st.s.cursor.GetOr(0) || st.s.rx <= st.s.baseAt)
    case DoAnswer => st.s.phase.Resuming?
    case DoReceive(_) => st.s.phase.Live?
    case DoAsk(_) => st.s.phase.Live?
    case DoAskAnew => st.s.phase.Live?
    case DoOtherBoot => st.s.phase.Resuming?
  }

  function Next(st: State, step: Step): State
    requires st.w.Valid() && st.s.rx <= |st.w.log| && (step.DoAnswer? ==> st.s.phase.Resuming?)
  {
    match step
    case DoPublish(e, evicted) => Publish(st, e, evicted)
    case DoRepublish(content) => Republish(st, content)
    case DoConnect(since, own, at) => Connect(st, since, own, at)
    case DoSnapshot => TakeSnapshot(st)
    case DoCheckHead => CheckHead(st)
    case DoFold => FoldGap(st)
    case DoAnswer => AnswerResume(st)
    case DoReceive(now) => Receive(st, now)
    case DoAsk(since) => AskResume(st, since)
    case DoAskAnew => StartOver(st)
    case DoOtherBoot => StartOver(st)
  }

  /** The session has a place in the log: its cursor is one the hub has reached. */
  predicate Placed(s: Session) { s.phase.CheckingHead? || s.phase.Folding? || s.phase.Live? }

  ghost predicate Good(w: Window, gen: Gen, s: Session) {
    && HubInv(w, gen) && Positive(w)
    && SessionInv(w, s)
    && (Placed(s) ==> s.cursor.GetOr(0) <= w.Head())
    && (s.phase.Live? ==> Sound(w, s))
  }

  lemma SeenIsStable(w: Window, e: Entry, c: nat)
    requires w.Valid() && w.Next(e) && w.boot < e.seqNo && c <= w.Head()
    ensures Seen(w.log + [e], c) == Seen(w.log, c)
  {
    SeenSplits(w.log, c);
    IncreasingSnoc(w.log, e);
    SeenIs(w.log + [e], c, Seen(w.log, c));
  }

  lemma PublishKeepsHub(w: Window, gen: Gen, e: Entry, evicted: nat)
    requires HubInv(w, gen) && Positive(w) && w.Next(e) && w.boot < e.seqNo && w.cut + evicted <= |w.log|
    ensures var next := Window(w.log + [e], w.cut + evicted, w.boot);
            HubInv(next, gen) && Positive(next) && w.Head() <= next.Head()
  {
    IncreasingSnoc(w.log, e);
  }

  lemma PublishKeepsSeen(w: Window, e: Entry, cursor: Option<nat>)
    requires w.Valid() && w.Next(e) && w.boot < e.seqNo && cursor.GetOr(0) <= w.Head()
    ensures SeenBy(w.log + [e], cursor) == SeenBy(w.log, cursor)
  {
    SeenIsStable(w, e, cursor.GetOr(0));
  }

  lemma GapStays(log: seq<Entry>, e: Entry, lo: nat, hi: nat)
    requires lo <= hi <= |log|
    ensures (log + [e])[lo..hi] == log[lo..hi]
  {
  }

  /** A publish leaves what a session has seen, holds and still has to receive as it was. */
  lemma PublishKeepsSession(w: Window, next: Window, s: Session, e: Entry)
    requires next.log == w.log + [e] && w.Head() <= next.Head()
    requires Placed(s) ==> SeenBy(next.log, s.cursor) == SeenBy(w.log, s.cursor)
    requires SessionInv(w, s)
    ensures SessionInv(next, s)
  {
  }

  lemma PublishKeepsSound(w: Window, next: Window, s: Session, e: Entry)
    requires next.log == w.log + [e] && SeenBy(next.log, s.cursor) == SeenBy(w.log, s.cursor)
    requires Sound(w, s)
    ensures Sound(next, s)
  {
    GapStays(w.log, e, s.baseAt, SeenBy(w.log, s.cursor));
  }

  lemma PublishIsGood(w: Window, gen: Gen, s: Session, e: Entry, evicted: nat)
    requires Good(w, gen, s) && w.Next(e) && w.boot < e.seqNo && w.cut + evicted <= |w.log|
    ensures Good(Window(w.log + [e], w.cut + evicted, w.boot), gen, s)
  {
    var next := Window(w.log + [e], w.cut + evicted, w.boot);
    PublishKeepsHub(w, gen, e, evicted);
    if Placed(s) { PublishKeepsSeen(w, e, s.cursor); }
    PublishKeepsSession(w, next, s, e);
    if s.phase.Live? { PublishKeepsSound(w, next, s, e); }
  }

  lemma ConnectIsGood(st: State, since: Option<nat>, own: Client, now: int)
    requires Good(st.w, st.gen, st.s)
    ensures var next := Connect(st, since, own, now); Good(next.w, next.gen, next.s)
  {
  }

  lemma TakeSnapshotIsGood(st: State)
    requires Good(st.w, st.gen, st.s)
    ensures var next := TakeSnapshot(st); Good(next.w, next.gen, next.s)
  {
  }

  lemma ReplaySplit(s: Client, log: seq<Entry>, lo: nat, mid: nat, hi: nat)
    requires lo <= mid <= hi <= |log|
    ensures Replay(s, Bodies(log[lo..hi])) == Replay(Replay(s, Bodies(log[lo..mid])), Bodies(log[mid..hi]))
  {
    assert Bodies(log[lo..hi]) == Bodies(log[lo..mid]) + Bodies(log[mid..hi]);
    ReplayConcat(s, Bodies(log[lo..mid]), Bodies(log[mid..hi]));
  }

  /** Folding again from a cursor the client has moved past lands on the same state. */
  lemma RefoldFromEarlier(base: Client, log: seq<Entry>, lo: nat, at: nat, k: nat)
    requires lo <= at <= k <= |log|
    ensures Replay(Replay(base, Bodies(log[lo..k])), Bodies(log[at..|log|]))
         == Replay(Replay(base, Bodies(log[lo..at])), Bodies(log[at..|log|]))
  {
    var held := Replay(base, Bodies(log[lo..at]));
    ReplaySplit(base, log, lo, at, k);
    ReplaySplit(Replay(held, Bodies(log[at..k])), log, at, k, |log|);
    ReplaySplit(held, log, at, k, |log|);
    ReplayIsIdempotent(Bodies(log[at..k]), held);
  }

  /** From what it held at a cursor, replaying everything newer gives what the answer leaves the client with. */
  lemma PresentedIsSound(w: Window, s: Session, at: nat)
    requires at <= |w.log|
    ensures Replay(Presented(w, s, at), Bodies(w.log[at..|w.log|])) == Replay(s.client, Bodies(w.log[at..|w.log|]))
  {
    var k := SeenBy(w.log, s.cursor);
    if s.baseAt <= at <= k && s.client == Replay(s.base, Bodies(w.log[s.baseAt..k])) {
      RefoldFromEarlier(s.base, w.log, s.baseAt, at, k);
    }
  }

  lemma AnswerMerged(w: Window, s: Session, to: nat, after: Client, next: Session)
    requires w.Valid() && SessionInv(w, s) && s.phase.Resuming?
    requires Seen(w.log, to) == |w.log|
    requires after == Replay(s.client, Bodies(w.log[Seen(w.log, s.phase.since)..]))
    requires next == s.(phase := Live, cursor := Some(to), client := after,
                        base := Presented(w, s, Seen(w.log, s.phase.since)),
                        baseAt := Seen(w.log, s.phase.since),
                        sent := Range(Seen(w.log, s.phase.since), |w.log|),
                        others := OthersIn(Bodies(w.log[Seen(w.log, s.phase.since)..])))
    ensures SessionInv(w, next) && Sound(w, next)
  {
    var at := Seen(w.log, s.phase.since);
    PresentedIsSound(w, s, at);
    assert w.log[at..] == w.log[at..|w.log|];
  }

  lemma AnswerCurrent(w: Window, s: Session, next: Session)
    requires w.Valid() && SessionInv(w, s) && s.phase.Resuming? && s.phase.since == w.Head()
    requires next == s.(phase := Live, cursor := Some(s.phase.since),
                        base := Presented(w, s, |w.log|), baseAt := |w.log|, sent := [], others := [])
    ensures SessionInv(w, next) && Sound(w, next)
  {
    HeadIsSeen(w, s.phase.since);
    PresentedIsSound(w, s, |w.log|);
    assert Bodies(w.log[|w.log|..|w.log|]) == [];
  }

  lemma FoldedAnswerIsGood(st: State)
    requires Good(st.w, st.gen, st.s) && st.s.phase.Resuming?
    requires st.w.Floor() <= st.s.phase.since < st.w.Head()
    ensures var next := AnswerResume(st); Good(next.w, next.gen, next.s)
  {
    var fold := FoldAfter(st.w, st.s.phase.since);
    FoldReaches(st.w, st.s.phase.since, st.s.client);
    AnswerMerged(st.w, st.s, fold.to, Replay(st.s.client, Emit(fold)), AnswerResume(st).s);
  }

  lemma AnswerIsGood(st: State)
    requires Good(st.w, st.gen, st.s) && st.s.phase.Resuming?
    ensures var next := AnswerResume(st); Good(next.w, next.gen, next.s)
  {
    var since := st.s.phase.since;
    if since == st.w.Head() {
      HeadIsSeen(st.w, since);
      AnswerCurrent(st.w, st.s, AnswerResume(st).s);
    } else if st.w.Floor() <= since < st.w.Head() {
      FoldedAnswerIsGood(st);
    }
  }

  lemma SeenMonotone(log: seq<Entry>, a: nat, b: nat)
    requires Increasing(log) && a <= b
    ensures Seen(log, a) <= Seen(log, b)
  {
    SeenSplits(log, a);
    SeenSplits(log, b);
    if Seen(log, b) < |log| { assert b < log[Seen(log, b)].seqNo; }
  }

  /** A frame newer than the cursor is the first one the cursor has not seen. */
  lemma NewerIsNext(w: Window, s: Session)
    requires w.Valid() && s.rx < |w.log| && s.rx <= SeenBy(w.log, s.cursor)
    requires s.cursor.None? || w.log[s.rx].seqNo > s.cursor.value
    ensures SeenBy(w.log, s.cursor) == s.rx
    ensures Seen(w.log, w.log[s.rx].seqNo) == s.rx + 1
  {
    SeenSplits(w.log, s.cursor.GetOr(0));
    SeenIs(w.log, w.log[s.rx].seqNo, s.rx + 1);
  }

  lemma OneMoreFrame(base: Client, log: seq<Entry>, lo: nat, k: nat)
    requires lo <= k < |log|
    ensures Replay(base, Bodies(log[lo..k + 1])) == Apply(Replay(base, Bodies(log[lo..k])), log[k].body)
    ensures Range(lo, k + 1) == Range(lo, k) + [k]
    ensures OthersIn(Bodies(log[lo..k + 1])) == OthersIn(Bodies(log[lo..k])) + OthersIn([log[k].body])
  {
    ReplaySplit(base, log, lo, k, k + 1);
    assert Bodies(log[k..k + 1]) == [log[k].body];
    assert Bodies(log[lo..k + 1]) == Bodies(log[lo..k]) + [log[k].body];
    OthersConcatenate(Bodies(log[lo..k]), [log[k].body]);
    ReplayOne(Replay(base, Bodies(log[lo..k])), log[k].body);
  }

  /** Forwarding the receiver's frame, when it is newer than the cursor, sends exactly the next one. */
  lemma ForwardIsSound(w: Window, s: Session, next: Session)
    requires w.Valid() && SessionInv(w, s) && s.phase.Live? && Sound(w, s) && s.rx < |w.log|
    requires s.cursor.None? || w.log[s.rx].seqNo > s.cursor.value
    requires next == s.(rx := s.rx + 1, cursor := Some(w.log[s.rx].seqNo),
                        client := Apply(s.client, w.log[s.rx].body), sent := s.sent + [s.rx],
                        others := s.others + OthersIn([w.log[s.rx].body]))
    ensures Sound(w, next)
  {
    NewerIsNext(w, s);
    OneMoreFrame(s.base, w.log, s.baseAt, s.rx);
  }

  /** A frame at or below the cursor has been covered already, so dropping it loses nothing. */
  lemma SkipIsSound(w: Window, s: Session)
    requires w.Valid() && SessionInv(w, s) && s.phase.Live? && Sound(w, s) && s.rx < |w.log|
    requires s.cursor.Some? && w.log[s.rx].seqNo <= s.cursor.value
    ensures Sound(w, s.(rx := s.rx + 1))
  {
    SeenSplits(w.log, s.cursor.value);
  }

  lemma ReceiveIsGood(st: State, now: int)
    requires Good(st.w, st.gen, st.s) && st.s.phase.Live?
    ensures var next := Receive(st, now); Good(next.w, next.gen, next.s)
  {
    var w, s := st.w, st.s;
    if |w.log| - s.rx <= BROADCAST_CAPACITY && s.rx < |w.log| {
      assert w.log[s.rx].seqNo <= w.Head();
      if s.cursor.None? || w.log[s.rx].seqNo > s.cursor.value {
        ForwardIsSound(w, s, Receive(st, now).s);
      } else {
        SkipIsSound(w, s);
      }
    }
  }

  lemma AskIsGood(st: State, since: nat)
    requires Good(st.w, st.gen, st.s) && Enabled(st, DoAsk(since))
    ensures var next := AskResume(st, since); Good(next.w, next.gen, next.s)
  {
  }

  lemma RepublishIsGood(st: State, content: Client)
    requires Good(st.w, st.gen, st.s)
    ensures var next := Republish(st, content); Good(next.w, next.gen, next.s)
  {
  }

  lemma CheckHeadIsGood(st: State)
    requires Good(st.w, st.gen, st.s) && Enabled(st, DoCheckHead)
    ensures var next := CheckHead(st); Good(next.w, next.gen, next.s)
  {
    CheckHeadSound(st);
  }

  lemma FoldGapIsGood(st: State)
    requires Good(st.w, st.gen, st.s) && Enabled(st, DoFold)
    ensures var next := FoldGap(st); Good(next.w, next.gen, next.s)
  {
    FoldGapSound(st);
  }

  lemma StartOverIsGood(st: State)
    requires Good(st.w, st.gen, st.s)
    ensures var next := StartOver(st); Good(next.w, next.gen, next.s)
  {
  }

  lemma StepIsGood(st: State, step: Step)
    requires Good(st.w, st.gen, st.s) && Enabled(st, step)
    ensures var next := Next(st, step); Good(next.w, next.gen, next.s)
  {
    match step
    case DoPublish(e, evicted) => PublishIsGood(st.w, st.gen, st.s, e, evicted);
    case DoRepublish(content) => RepublishIsGood(st, content);
    case DoConnect(since, own, now) => ConnectIsGood(st, since, own, now);
    case DoSnapshot => TakeSnapshotIsGood(st);
    case DoCheckHead => CheckHeadIsGood(st);
    case DoFold => FoldGapIsGood(st);
    case DoAnswer => AnswerIsGood(st);
    case DoReceive(now) => ReceiveIsGood(st, now);
    case DoAsk(since) => AskIsGood(st, since);
    case DoAskAnew => StartOverIsGood(st);
    case DoOtherBoot => StartOverIsGood(st);
  }

  /** The states a run passes through; a step that may not happen ends the run early. */
  ghost predicate Reaches(st: State, steps: seq<Step>, end: State)
    requires st.w.Valid() && st.s.rx <= |st.w.log|
    decreases |steps|
  {
    if steps == [] then end == st
    else
      && Enabled(st, steps[0])
      && var next := Next(st, steps[0]);
         && next.w.Valid() && next.s.rx <= |next.w.log|
         && Reaches(next, steps[1..], end)
  }

  /** A hub at boot, with no socket. */
  function Booted(boot: nat): State {
    State(Window([], 0, boot), Gen(0, map[]), Session(Closed, 0, None, map[], 0, 0, map[], 0, [], []))
  }

  lemma {:induction false} RunIsGood(st: State, steps: seq<Step>, end: State)
    requires Good(st.w, st.gen, st.s) && Reaches(st, steps, end)
    ensures Good(end.w, end.gen, end.s)
    decreases |steps|
  {
    if steps != [] {
      StepIsGood(st, steps[0]);
      RunIsGood(Next(st, steps[0]), steps[1..], end);
    }
  }

  lemma RangeInOrder(log: seq<Entry>, from: nat, to: nat, sent: seq<nat>)
    requires Increasing(log) && from <= to <= |log| && sent == Range(from, to)
    ensures forall i :: 0 <= i < |sent| ==> sent[i] < |log|
    ensures forall i, j :: 0 <= i < j < |sent| ==> log[sent[i]].seqNo < log[sent[j]].seqNo
  {}

  /** What a sound live session has been sent, and what it holds. */
  ghost predicate CaughtUp(w: Window, s: Session)
    requires s.baseAt <= SeenBy(w.log, s.cursor) <= |w.log|
  {
    var k := SeenBy(w.log, s.cursor);
    && s.rx <= k
    && s.sent == Range(s.baseAt, k)
    && (forall i :: 0 <= i < |s.sent| ==> s.sent[i] < |w.log|)
    && (forall i, j :: 0 <= i < j < |s.sent| ==> w.log[s.sent[i]].seqNo < w.log[s.sent[j]].seqNo)
    && s.client == Replay(s.base, Bodies(w.log[s.baseAt..k]))
    && s.others == OthersIn(Bodies(w.log[s.baseAt..k]))
    && (s.rx == |w.log| ==> s.client == Replay(s.base, Bodies(w.log[s.baseAt..])))
  }

  lemma SoundIsCaughtUp(w: Window, s: Session)
    requires w.Valid() && SessionInv(w, s) && Sound(w, s)
    ensures CaughtUp(w, s)
  {
    RangeInOrder(w.log, s.baseAt, SeenBy(w.log, s.cursor), s.sent);
    assert w.log[s.baseAt..] == w.log[s.baseAt..|w.log|];
  }

  /**
   No lost update: whatever the interleaving, a live client holds what it started from plus every
   newer frame up to its cursor, each handed over once and in order, those that speak of no item among
   them, and the receiver still holds the rest; once it is drained the client is current.
   */
  lemma NoLostUpdate(boot: nat, steps: seq<Step>, end: State)
    requires Reaches(Booted(boot), steps, end) && end.s.phase.Live?
    ensures end.s.baseAt <= SeenBy(end.w.log, end.s.cursor) <= |end.w.log|
    ensures CaughtUp(end.w, end.s)
  {
    RunIsGood(Booted(boot), steps, end);
    SoundIsCaughtUp(end.w, end.s);
  }

  // -- where the guards bite ----------------------------------------------------------

  lemma OneUpsert(v: View)
    ensures Upsert(map[], [v]) == map[v.id := v.fields]
  {
    assert [v][..0] == [];
    assert Upsert(map[], [v][..0]) == map[];
  }

  /**
   On a fresh store the first frame is numbered 0, like the empty generation: a socket that connects before
   the first generation is published takes it for seen, and the item it completed is never shown.
   */
  lemma ZeroFrameIsLost(v: View, size: nat)
    ensures var start := Publish(Booted(0), Entry(0, Completed([v]), size), 0);
            var s := CheckHead(TakeSnapshot(Connect(start, None, map[], 0))).s;
            && start.w.Valid() && start.w.Retained() == start.w.log && start.w.Floor() == 0
            && s.phase.Live? && s.rx == |start.w.log| && s.sent == [] && !Sound(start.w, s)
            && s.client == map[] && Replay(map[], Bodies(start.w.log)) == map[v.id := v.fields]
  {
    var e := Entry(0, Completed([v]), size);
    assert [] + [e] == [e] && Bodies([e]) == [e.body];
    ReplayOne(map[], e.body);
    OneUpsert(v);
  }

  /**
   After a restart whose recovery found no items nothing waits for the first generation. The empty one
   reports 0, below the new ring's floor, so a socket that connects before it is replaced is refused a
   replay the ring could have served.
   */
  lemma BootGenerationIsRefused(boot: nat, e: Entry)
    requires 0 < boot < e.seqNo
    ensures var w := Window([e], 0, boot);
            var st := TakeSnapshot(Connect(State(w, Gen(0, map[]), Booted(boot).s), None, map[], 0));
            && w.Valid() && w.Retained() == [e]
            && CheckHead(st).s.phase.Folding?
            && !Sound(w, FoldGap(CheckHead(st)).s)
  {
    var w := Window([e], 0, boot);
    var st := TakeSnapshot(Connect(State(w, Gen(0, map[]), Booted(boot).s), None, map[], 0));
    FoldGapSound(CheckHead(st));
  }
}

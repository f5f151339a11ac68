/** The hub and the socket as the server runs them: objects whose methods are the protocol's steps. */
module WsSession {
  import opened Prelude
  import opened Frames
  import opened ReplayFold
  import opened FoldWords
  import opened ReplayRing
  import opened WsProtocol

  datatype Resume = TakeFresh | UpToDate | Merged(fold: Fold)

  /** One sequence, one ring, one head: published and answered under one lock. */
  class EventHub {
    const ring: Ring
    const bootId: nat
    var head: nat

    ghost predicate Valid()
      reads this, ring
    {
      ring.Valid() && head == ring.window.Head()
    }

    constructor (bootId: nat, floor: nat, maxFrames: nat, maxBytes: nat)
      ensures Valid() && fresh(ring) && ring.window == Window([], 0, floor)
    {
      this.bootId := bootId;
      var r := new Ring(maxFrames, maxBytes, floor);
      ring, head := r, floor;
    }

    method PublishFrame(seqNo: nat, body: FrameBody, size: nat)
      requires Valid() && ring.window.Next(Entry(seqNo, body, size))
      modifies this, ring
      ensures Valid()
      ensures forall gen, s ::
                Publish(State(old(ring.window), gen, s), Entry(seqNo, body, size),
                        Evict(old(ring.entries) + [Entry(seqNo, body, size)], ring.maxFrames, ring.maxBytes))
                == State(ring.window, gen, s)
    {
      ring.Push(Entry(seqNo, body, size));
      head := seqNo;
    }

    /** What a `since` cursor is worth. */
    method ResumeAfter(since: nat, boot: Option<nat>) returns (answer: Resume)
      requires Valid()
      ensures answer ==
              if boot.Some? && boot.value != bootId then TakeFresh
              else if since == ring.window.Head() then UpToDate
              else if since > ring.window.Head() || since < ring.window.Floor() then TakeFresh
              else Merged(FoldAfter(ring.window, since))
    {
      if boot.Some? && boot.value != bootId {
        return TakeFresh;
      }
      if since == head {
        return UpToDate;
      }
      if since > head {
        return TakeFresh;
      }
      if since < ring.floor {
        return TakeFresh;
      }
      var fold := ring.MergeAfter(since);
      RingAnswers(ring.window, since);
      return Merged(fold);
    }
  }

  /** One connected socket: the loop's variables, plus what the client has been sent. */
  class Socket {
    const hub: EventHub
    var phase: Phase
    var rx: nat
    var cursor: Option<nat>
    var client: Client
    var others: seq<FrameBody>
    var lags: nat
    var lagWindowStarted: int
    ghost var base: Client
    ghost var baseAt: nat
    ghost var sent: seq<nat>

    ghost function View(): Session
      reads this
    {
      Session(phase, rx, cursor, client, lags, lagWindowStarted, base, baseAt, sent, others)
    }

    ghost predicate Valid()
      reads this, hub, hub.ring
    {
      hub.Valid() && rx <= |hub.ring.window.log|
    }

    /** The receiver is taken before anything is read, so later frames wait in it. */
    constructor (hub: EventHub, published: nat, since: Option<nat>, own: Client, now: int)
      requires hub.Valid() && published == |hub.ring.window.log|
      ensures Valid() && this.hub == hub
      ensures forall gen, s ::
                View() == Connect(State(hub.ring.window, gen, s), since, own, now).s
    {
      this.hub := hub;
      phase := if since.None? then Snapshotting else Resuming(since.value);
      rx, cursor, client, lags, lagWindowStarted := published, since, own, 0, now;
      base, baseAt, sent, others := own, SeenBy(hub.ring.window.log, since), [], [];
    }

    method SendSnapshot(gen: Gen)
      requires Valid()
      modifies this
      ensures Valid()
      ensures View() == TakeSnapshot(State(hub.ring.window, gen, old(View()))).s
    {
      cursor := if gen.seqNo == 0 && gen.content == map[] then None else Some(gen.seqNo);
      client := gen.content;
      phase := CheckingHead;
      base, baseAt, sent, others := gen.content, SeenBy(hub.ring.window.log, cursor), [], [];
    }

    method CompareHead(ghost gen: Gen)
      requires Valid()
      modifies this
      ensures Valid()
      ensures View() == CheckHead(State(hub.ring.window, gen, old(View()))).s
    {
      var seen := cursor.GetOr(0);
      phase := if hub.head <= seen then Live else Folding;
    }

    /** Hands one frame to the client. */
    method Forward(frame: FrameBody)
      modifies this`client, this`others
      ensures client == Apply(old(client), frame)
      ensures others == old(others) + OthersIn([frame])
    {
      OtherInOne(frame);
      client := Apply(client, frame);
      if frame.Other? {
        others := others + [frame];
      }
    }

    /** Forwards the folded frames one by one. */
    method ForwardAll(frames: seq<FrameBody>)
      modifies this`client, this`others
      ensures client == Replay(old(client), frames)
      ensures others == old(others) + OthersIn(frames)
    {
      for i := 0 to |frames|
        invariant client == Replay(old(client), frames[..i])
        invariant others == old(others) + OthersIn(frames[..i])
      {
        assert frames[..i + 1] == frames[..i] + [frames[i]];
        OthersConcatenate(frames[..i], [frames[i]]);
        Forward(frames[i]);
      }
      assert frames[..|frames|] == frames;
    }

    /** The second half of the catch-up: the hub read its head again, so the frames are re-counted. */
    method CatchUp(ghost gen: Gen)
      requires Valid() && phase.Folding? && cursor.GetOr(0) < hub.head
      modifies this
      ensures Valid()
      ensures View() == FoldGap(State(hub.ring.window, gen, old(View()))).s
    {
      var seen := cursor.GetOr(0);
      var answer := hub.ResumeAfter(seen, Some(hub.bootId));
      if answer.Merged? {
        ForwardMore(seen, answer.fold.to, Emit(answer.fold));
      }
      phase := Live;
    }

    /** Goes on with the frames that lead on from what the socket has sent. */
    method ForwardMore(seen: nat, to: nat, frames: seq<FrameBody>)
      requires Valid()
      modifies this
      ensures Valid()
      ensures var log := hub.ring.window.log;
              View() == old(View()).(
                cursor := Some(to), client := Replay(old(client), frames),
                sent := old(sent) + Range(Seen(log, seen), |log|), others := old(others) + OthersIn(frames))
    {
      ForwardAll(frames);
      cursor := Some(to);
      sent := sent + Range(Seen(hub.ring.window.log, seen), |hub.ring.window.log|);
    }

    /** A live client asks to resume; one that does not say of which boot gets a snapshot. */
    method Ask(since: nat, boot: Option<nat>, ghost gen: Gen)
      requires Valid() && phase.Live?
      modifies this`phase
      ensures Valid()
      ensures var was := State(hub.ring.window, gen, old(View()));
              View() == (if boot.None? then StartOver(was) else AskResume(was, since)).s
    {
      phase := if boot.None? then Snapshotting else Resuming(since);
    }

    method Answer(boot: Option<nat>, ghost gen: Gen)
      requires Valid() && phase.Resuming?
      modifies this
      ensures Valid()
      ensures boot.None? || boot.value == hub.bootId ==>
                View() == AnswerResume(State(hub.ring.window, gen, old(View()))).s
      ensures boot.Some? && boot.value != hub.bootId ==>
                View() == StartOver(State(hub.ring.window, gen, old(View()))).s
    {
      var since := phase.since;
      var answer := hub.ResumeAfter(since, boot);
      match answer
      case TakeFresh =>
        phase := Snapshotting;
      case UpToDate =>
        ghost var log := hub.ring.window.log;
        ghost var presented := Presented(hub.ring.window, View(), Seen(log, since));
        phase, cursor := Live, Some(since);
        base, baseAt, sent, others := presented, Seen(log, since), [], [];
      case Merged(fold) =>
        ghost var presented := Presented(hub.ring.window, View(), Seen(hub.ring.window.log, since));
        ForwardFrom(since, fold.to, Emit(fold), presented);
    }

    /** Starts a new account at this cursor with the frames that lead on from it. */
    method ForwardFrom(since: nat, to: nat, frames: seq<FrameBody>, ghost presented: Client)
      requires Valid()
      modifies this
      ensures Valid()
      ensures var log := hub.ring.window.log;
              View() == old(View()).(
                phase := Live, cursor := Some(to), client := Replay(old(client), frames),
                base := presented, baseAt := Seen(log, since),
                sent := Range(Seen(log, since), |log|), others := OthersIn(frames))
    {
      ghost var log := hub.ring.window.log;
      others := [];
      ForwardAll(frames);
      assert [] + OthersIn(frames) == OthersIn(frames);
      phase, cursor := Live, Some(to);
      base, baseAt, sent := presented, Seen(log, since), Range(Seen(log, since), |log|);
    }

    /** The bus ran past the receiver: one resync, or the socket once the budget is spent. */
    method Lagged(skipTo: nat, now: int, ghost gen: Gen)
      requires Valid() && |hub.ring.window.log| - rx > BROADCAST_CAPACITY
      requires skipTo == |hub.ring.window.log| - BROADCAST_CAPACITY
      modifies this
      ensures Valid()
      ensures View() == Receive(State(hub.ring.window, gen, old(View())), now).s
    {
      rx := skipTo;
      if now - lagWindowStarted > LAG_WINDOW_MS {
        lags, lagWindowStarted := 0, now;
      }
      lags := lags + 1;
      phase := if lags > LAG_BUDGET then Closed else Snapshotting;
    }

    method ReceiveFrame(frame: Entry, now: int, ghost gen: Gen)
      requires Valid() && rx < |hub.ring.window.log| <= rx + BROADCAST_CAPACITY
      requires frame == hub.ring.window.log[rx]
      modifies this
      ensures Valid()
      ensures View() == Receive(State(hub.ring.window, gen, old(View())), now).s
    {
      if cursor.None? || frame.seqNo > cursor.value {
        cursor := Some(frame.seqNo);
        Forward(frame.body);
        sent := sent + [rx];
      }
      rx := rx + 1;
    }
  }
}

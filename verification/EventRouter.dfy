/**
 One-to-N fan-out. The router serves the subscribers of one event one after another and can wait in
 the middle of the list, so its steps are: publish, take an event, serve one subscriber, receive. A
 step that cannot be taken leaves the state as it is.
 */
module EventRouter {
  import opened Prelude
  import opened EventFilter

  /** A published event, known by its place in publish order. */
  datatype Event = Event(pos: nat, kind: EventKind)

  datatype Policy = Block | DropNewest

  datatype Spec = Spec(capacity: nat, policy: Policy, filter: EventFilter)

  /** An event a subscriber did not get, and how its inbox stood. */
  datatype Loss = Loss(event: Event, depth: nat, closed: bool)

  datatype Subscriber = Subscriber(
    spec: Spec, inbox: seq<Event>, received: seq<Event>, closed: bool, dropped: nat,
    delivered: seq<Event>, lost: seq<Loss>)
  {
    function Capacity(): nat { Max(spec.capacity, 1) }

    predicate Full() { |inbox| >= Capacity() }

    /** The router waits here. */
    predicate Holds(e: Event) {
      spec.filter.Allows(e.kind) && spec.policy.Block? && !closed && Full()
    }

    function Serve(e: Event): Subscriber
      requires !Holds(e)
    {
      if !spec.filter.Allows(e.kind) then this
      else if closed || Full() then
        this.(dropped := if spec.policy.DropNewest? then dropped + 1 else dropped,
              lost := lost + [Loss(e, |inbox|, closed)])
      else this.(inbox := inbox + [e], delivered := delivered + [e])
    }

    function Receive(): Subscriber
      requires inbox != []
    {
      this.(inbox := inbox[1..], received := received + [inbox[0]])
    }
  }

  /** `at` is the subscriber about to be served the event `published[taken]`. */
  datatype Router = Router(
    capacity: nat, published: seq<Event>, taken: nat, at: Option<nat>, running: bool, subs: seq<Subscriber>)

  datatype Step =
    | Subscribe(spec: Spec)
    | Spawn
    | Publish(kind: EventKind)
    | Take
    | Route
    | Receive(k: nat)
    | Close(k: nat)

  function Init(capacity: nat): Router { Router(capacity, [], 0, None, false, []) }

  /** The events in the inbound queue: the one in hand has left it. */
  function Queued(r: Router): int {
    |r.published| - r.taken - (if r.at.Some? then 1 else 0)
  }

  predicate Enabled(r: Router, step: Step) {
    match step
    case Subscribe(_) => !r.running
    case Spawn => !r.running
    case Publish(_) => Queued(r) < Max(r.capacity, 1)
    case Take => r.running && r.at == None && r.taken < |r.published|
    case Route =>
      && r.at.Some? && r.taken < |r.published|
      && (r.at.value < |r.subs| ==> !r.subs[r.at.value].Holds(r.published[r.taken]))
    case Receive(k) => k < |r.subs| && !r.subs[k].closed && r.subs[k].inbox != []
    case Close(k) => k < |r.subs|
  }

  function Do(r: Router, step: Step): Router {
    if !Enabled(r, step) then r
    else
      match step
      case Subscribe(spec) => r.(subs := r.subs + [Subscriber(spec, [], [], false, 0, [], [])])
      case Spawn => r.(running := true)
      case Publish(kind) => r.(published := r.published + [Event(|r.published|, kind)])
      case Take => r.(at := Some(0))
      case Route =>
        if r.at.value < |r.subs| then
          var k := r.at.value;
          r.(subs := r.subs[k := r.subs[k].Serve(r.published[r.taken])], at := Some(k + 1))
        else r.(taken := r.taken + 1, at := None)
      case Receive(k) => r.(subs := r.subs[k := r.subs[k].Receive()])
      case Close(k) => r.(subs := r.subs[k := r.subs[k].(closed := true)])
  }

  function Run(capacity: nat, steps: seq<Step>): Router {
    if steps == [] then Init(capacity)
    else Do(Run(capacity, steps[..|steps| - 1]), steps[|steps| - 1])
  }

  // -- what a subscriber was due -------------------------------------------------------

  function Passing(f: EventFilter, events: seq<Event>): seq<Event> {
    if events == [] then []
    else
      var last := events[|events| - 1];
      Passing(f, events[..|events| - 1]) + if f.Allows(last.kind) then [last] else []
  }

  /** How many events subscriber `k` has been served so far. */
  function Served(r: Router, k: nat): nat {
    Min(if r.at.Some? && k < r.at.value then r.taken + 1 else r.taken, |r.published|)
  }

  function Events(losses: seq<Loss>): seq<Event> { seq(|losses|, i requires 0 <= i < |losses| => losses[i].event) }

  /** `whole` is `a` and `b` interleaved, each in its own order. */
  predicate Merges(a: seq<Event>, b: seq<Event>, whole: seq<Event>) {
    if whole == [] then a == [] && b == []
    else
      var init, last := whole[..|whole| - 1], whole[|whole| - 1];
      || (a != [] && a[|a| - 1] == last && Merges(a[..|a| - 1], b, init))
      || (b != [] && b[|b| - 1] == last && Merges(a, b[..|b| - 1], init))
  }

  lemma {:induction false} MergesCount(a: seq<Event>, b: seq<Event>, whole: seq<Event>)
    requires Merges(a, b, whole)
    ensures |a| + |b| == |whole|
    ensures b == [] ==> a == whole
    ensures forall e :: e in a ==> e in whole
  {
    if whole != [] {
      var init, last := whole[..|whole| - 1], whole[|whole| - 1];
      if a != [] && a[|a| - 1] == last && Merges(a[..|a| - 1], b, init) {
        MergesCount(a[..|a| - 1], b, init);
        assert a == a[..|a| - 1] + [last];
      } else {
        MergesCount(a, b[..|b| - 1], init);
      }
      assert whole == init + [last];
    }
  }

  lemma MergesGrow(a: seq<Event>, b: seq<Event>, whole: seq<Event>, e: Event)
    requires Merges(a, b, whole)
    ensures Merges(a + [e], b, whole + [e])
    ensures Merges(a, b + [e], whole + [e])
  {
    assert (a + [e])[..|a|] == a && (b + [e])[..|b|] == b && (whole + [e])[..|whole|] == whole;
  }

  /** One subscriber's account of the events it has been served. */
  ghost predicate Accounts(s: Subscriber, served: seq<Event>) {
    && Merges(s.delivered, Events(s.lost), Passing(s.spec.filter, served))
    && s.delivered == s.received + s.inbox
    && Bookkeeping(s)
  }

  ghost predicate Bookkeeping(s: Subscriber) {
    && |s.inbox| <= s.Capacity()
    && s.dropped == (if s.spec.policy.DropNewest? then |s.lost| else 0)
    && forall i :: 0 <= i < |s.lost| ==> Excused(s, s.lost[i])
  }

  /** Only a closed inbox or, for a dropping subscriber, a full one loses an event. */
  predicate Excused(s: Subscriber, l: Loss) {
    if l.closed then s.closed else s.spec.policy.DropNewest? && l.depth == s.Capacity()
  }

  ghost predicate Numbered(events: seq<Event>) {
    forall i :: 0 <= i < |events| ==> events[i].pos == i
  }

  ghost predicate Good(r: Router) {
    && r.taken <= |r.published| && Numbered(r.published)
    && (r.at.Some? ==> r.running && r.taken < |r.published| && r.at.value <= |r.subs|)
    && (!r.running ==> r.taken == 0)
    && Queued(r) <= Max(r.capacity, 1)
    && forall k :: 0 <= k < |r.subs| ==> Accounts(r.subs[k], r.published[..Served(r, k)])
  }

  lemma PassingGrows(f: EventFilter, served: seq<Event>, e: Event)
    ensures Passing(f, served + [e]) == if f.Allows(e.kind) then Passing(f, served) + [e] else Passing(f, served)
  {
    assert (served + [e])[..|served|] == served;
    assert Passing(f, served) + [] == Passing(f, served);
  }

  lemma EventsGrow(losses: seq<Loss>, l: Loss)
    ensures Events(losses + [l]) == Events(losses) + [l.event]
  {
  }

  lemma ServeMerges(s: Subscriber, served: seq<Event>, e: Event)
    requires Merges(s.delivered, Events(s.lost), Passing(s.spec.filter, served)) && !s.Holds(e)
    ensures var t := s.Serve(e);
      Merges(t.delivered, Events(t.lost), Passing(s.spec.filter, served + [e]))
  {
    PassingGrows(s.spec.filter, served, e);
    EventsGrow(s.lost, Loss(e, |s.inbox|, s.closed));
    MergesGrow(s.delivered, Events(s.lost), Passing(s.spec.filter, served), e);
  }

  lemma ServeBooks(s: Subscriber, e: Event)
    requires Bookkeeping(s) && !s.Holds(e)
    ensures Bookkeeping(s.Serve(e))
  {
    var t := s.Serve(e);
    forall i | 0 <= i < |t.lost|
      ensures Excused(t, t.lost[i])
    {
      if i < |s.lost| { assert Excused(s, s.lost[i]); }
    }
  }

  lemma ServeDelivers(s: Subscriber, e: Event)
    requires s.delivered == s.received + s.inbox && !s.Holds(e)
    ensures s.Serve(e).delivered == s.Serve(e).received + s.Serve(e).inbox && s.Serve(e).spec == s.spec
  {
    assert s.received + (s.inbox + [e]) == (s.received + s.inbox) + [e];
  }

  lemma ServeAccounts(s: Subscriber, served: seq<Event>, e: Event)
    requires Accounts(s, served) && !s.Holds(e)
    ensures Accounts(s.Serve(e), served + [e])
  {
    ServeMerges(s, served, e);
    ServeBooks(s, e);
    ServeDelivers(s, e);
  }

  lemma ReceiveAccounts(s: Subscriber, served: seq<Event>)
    requires Accounts(s, served) && s.inbox != []
    ensures Accounts(s.Receive(), served)
  {
    assert (s.received + [s.inbox[0]]) + s.inbox[1..] == s.received + s.inbox;
  }

  lemma OthersUnserved(r: Router, k: nat)
    requires Good(r) && Enabled(r, Route) && k < |r.subs| && Some(k) != r.at
    ensures Do(r, Route).subs[k] == r.subs[k] && Served(Do(r, Route), k) == Served(r, k)
  {}

  lemma ServedNow(r: Router, k: nat)
    requires Good(r) && Enabled(r, Route) && k < |r.subs| && Some(k) == r.at
    ensures var next := Do(r, Route);
      && next.subs[k] == r.subs[k].Serve(r.published[r.taken])
      && next.published[..Served(next, k)] == r.published[..Served(r, k)] + [r.published[r.taken]]
  {}

  lemma RouteAccounts(r: Router, k: nat)
    requires Good(r) && Enabled(r, Route) && k < |r.subs|
    ensures var next := Do(r, Route);
      Accounts(next.subs[k], next.published[..Served(next, k)])
  {
    if Some(k) == r.at {
      ServedNow(r, k);
      ServeAccounts(r.subs[k], r.published[..Served(r, k)], r.published[r.taken]);
    } else {
      OthersUnserved(r, k);
    }
  }

  lemma RouteIsGood(r: Router)
    requires Good(r) && Enabled(r, Route)
    ensures Good(Do(r, Route))
  {
    forall k | 0 <= k < |r.subs| {
      RouteAccounts(r, k);
    }
  }

  lemma ArrivalIsGood(r: Router, step: Step)
    requires Good(r) && Enabled(r, step) && (step.Publish? || step.Subscribe?)
    ensures Good(Do(r, step))
  {
    var next := Do(r, step);
    forall k | 0 <= k < |next.subs|
      ensures Accounts(next.subs[k], next.published[..Served(next, k)])
    {
      if k < |r.subs| {
        assert next.published[..Served(next, k)] == r.published[..Served(r, k)];
      }
    }
  }

  lemma CloseAccounts(s: Subscriber, served: seq<Event>)
    requires Accounts(s, served)
    ensures Accounts(s.(closed := true), served)
  {
    var t := s.(closed := true);
    forall i | 0 <= i < |t.lost|
      ensures t.lost[i].closed || (t.spec.policy.DropNewest? && t.lost[i].depth == t.Capacity())
    {
      assert Excused(s, s.lost[i]);
    }
  }

  lemma InboxAccounts(r: Router, step: Step, k: nat)
    requires Good(r) && Enabled(r, step) && (step.Receive? || step.Close?) && k < |r.subs|
    ensures Accounts(Do(r, step).subs[k], r.published[..Served(r, k)])
  {
    if k == step.k && step.Receive? {
      ReceiveAccounts(r.subs[k], r.published[..Served(r, k)]);
    } else if k == step.k {
      CloseAccounts(r.subs[k], r.published[..Served(r, k)]);
    }
  }

  lemma InboxIsGood(r: Router, step: Step)
    requires Good(r) && Enabled(r, step) && (step.Receive? || step.Close?)
    ensures Good(Do(r, step))
  {
    var next := Do(r, step);
    forall k | 0 <= k < |next.subs|
      ensures Accounts(next.subs[k], next.published[..Served(next, k)])
    {
      InboxAccounts(r, step, k);
      assert Served(next, k) == Served(r, k);
    }
  }

  lemma StepIsGood(r: Router, step: Step)
    requires Good(r)
    ensures Good(Do(r, step))
  {
    if Enabled(r, step) {
      match step {
        case Subscribe(_) => ArrivalIsGood(r, step);
        case Publish(_) => ArrivalIsGood(r, step);
        case Route => RouteIsGood(r);
        case Receive(_) => InboxIsGood(r, step);
        case Close(_) => InboxIsGood(r, step);
        case _ =>
      }
    }
  }

  lemma {:induction false} RunIsGood(capacity: nat, steps: seq<Step>)
    ensures Good(Run(capacity, steps))
  {
    if steps != [] {
      RunIsGood(capacity, steps[..|steps| - 1]);
      StepIsGood(Run(capacity, steps[..|steps| - 1]), steps[|steps| - 1]);
    }
  }

  // -- the guarantees ----------------------------------------------------------------------

  lemma {:induction false} PassingSplits(f: EventFilter, a: seq<Event>, b: seq<Event>)
    ensures Passing(f, a + b) == Passing(f, a) + Passing(f, b)
  {
    if b == [] {
      assert a + b == a;
    } else {
      PassingSplits(f, a, b[..|b| - 1]);
      assert (a + b)[..|a + b| - 1] == a + b[..|b| - 1];
    }
  }

  lemma LossIsExcused(s: Subscriber, served: seq<Event>)
    requires Accounts(s, served)
    ensures s.lost == [] || s.closed || s.spec.policy.DropNewest?
  {
    if s.lost != [] {
      assert Excused(s, s.lost[0]);
    }
  }

  lemma BlockAccounts(s: Subscriber, published: seq<Event>, n: nat)
    requires n <= |published| && Accounts(s, published[..n])
    requires s.spec.policy.Block? && !s.closed
    ensures s.received + s.inbox + Passing(s.spec.filter, published[n..]) == Passing(s.spec.filter, published)
    ensures s.dropped == 0 && s.lost == []
  {
    LossIsExcused(s, published[..n]);
    MergesCount(s.delivered, Events(s.lost), Passing(s.spec.filter, published[..n]));
    PassingSplits(s.spec.filter, published[..n], published[n..]);
    assert published == published[..n] + published[n..];
  }

  lemma DropAccounts(s: Subscriber, served: seq<Event>)
    requires Accounts(s, served) && s.spec.policy.DropNewest?
    ensures |s.received| + |s.inbox| + s.dropped == |Passing(s.spec.filter, served)|
    ensures !s.closed ==> forall i :: 0 <= i < |s.lost| ==> s.lost[i].depth == s.Capacity()
  {
    MergesCount(s.delivered, Events(s.lost), Passing(s.spec.filter, served));
    forall i | 0 <= i < |s.lost|
      ensures !s.closed ==> s.lost[i].depth == s.Capacity()
    {
      assert Excused(s, s.lost[i]);
    }
  }

  /**
   A waiting subscriber with an open inbox loses nothing: what it received, what it has yet to read
   and what it is still to be served are the filtered events, in publish order.
   */
  lemma BlockLosesNothing(capacity: nat, steps: seq<Step>, k: nat)
    requires k < |Run(capacity, steps).subs|
    ensures var r := Run(capacity, steps);
      var s := r.subs[k];
      s.spec.policy.Block? && !s.closed ==>
      && s.received + s.inbox + Passing(s.spec.filter, r.published[Served(r, k)..])
         == Passing(s.spec.filter, r.published)
      && s.dropped == 0 && s.lost == []
  {
    RunIsGood(capacity, steps);
    var r := Run(capacity, steps);
    if r.subs[k].spec.policy.Block? && !r.subs[k].closed {
      BlockAccounts(r.subs[k], r.published, Served(r, k));
    }
  }

  /**
   A dropping subscriber gets a subsequence in order, the drop counter is exactly what is missing, and
   while its inbox is open an event is dropped only when the inbox stands at its capacity.
   */
  lemma DropNewestIsCounted(capacity: nat, steps: seq<Step>, k: nat)
    requires k < |Run(capacity, steps).subs|
    ensures var r := Run(capacity, steps);
      var s := r.subs[k];
      var due := Passing(s.spec.filter, r.published[..Served(r, k)]);
      s.spec.policy.DropNewest? ==>
      && Merges(s.received + s.inbox, Events(s.lost), due)
      && |s.received| + |s.inbox| + s.dropped == |due|
      && |s.inbox| <= Max(s.spec.capacity, 1)
      && (!s.closed ==> forall i :: 0 <= i < |s.lost| ==> s.lost[i].depth == Max(s.spec.capacity, 1))
  {
    RunIsGood(capacity, steps);
    var r := Run(capacity, steps);
    if r.subs[k].spec.policy.DropNewest? {
      DropAccounts(r.subs[k], r.published[..Served(r, k)]);
    }
  }

  ghost predicate InPublishOrder(events: seq<Event>) {
    forall i, j :: 0 <= i < j < |events| ==> events[i].pos < events[j].pos
  }

  lemma {:induction false} PassingInOrder(f: EventFilter, events: seq<Event>)
    requires Numbered(events)
    ensures InPublishOrder(Passing(f, events))
    ensures forall e :: e in Passing(f, events) ==> e.pos < |events|
  {
    if events != [] {
      PassingInOrder(f, events[..|events| - 1]);
      var earlier := Passing(f, events[..|events| - 1]);
      forall i | 0 <= i < |earlier|
        ensures earlier[i].pos < |events| - 1
      {
        assert earlier[i] in earlier;
      }
    }
  }

  lemma {:induction false} MergesInOrder(a: seq<Event>, b: seq<Event>, whole: seq<Event>)
    requires Merges(a, b, whole) && InPublishOrder(whole)
    ensures InPublishOrder(a)
  {
    if whole != [] {
      var init, last := whole[..|whole| - 1], whole[|whole| - 1];
      if a != [] && a[|a| - 1] == last && Merges(a[..|a| - 1], b, init) {
        MergesInOrder(a[..|a| - 1], b, init);
        MergesCount(a[..|a| - 1], b, init);
        forall i | 0 <= i < |a| - 1
          ensures a[i].pos < last.pos
        {
          assert a[..|a| - 1][i] in init;
        }
      } else {
        MergesInOrder(a, b[..|b| - 1], init);
      }
    }
  }

  lemma DeliveredInOrder(capacity: nat, steps: seq<Step>, k: nat)
    requires k < |Run(capacity, steps).subs|
    ensures InPublishOrder(Run(capacity, steps).subs[k].received)
  {
    RunIsGood(capacity, steps);
    var r := Run(capacity, steps);
    var s := r.subs[k];
    var served := r.published[..Served(r, k)];
    PassingInOrder(s.spec.filter, served);
    MergesInOrder(s.delivered, Events(s.lost), Passing(s.spec.filter, served));
    assert forall i :: 0 <= i < |s.received| ==> s.received[i] == s.delivered[i];
  }

  lemma OrdersAgree(mine: seq<Event>, theirs: seq<Event>, i: nat, j: nat, i': nat, j': nat)
    requires InPublishOrder(mine) && InPublishOrder(theirs)
    requires i < j < |mine| && i' < |theirs| && j' < |theirs| && mine[i] == theirs[i'] && mine[j] == theirs[j']
    ensures i' < j'
  {
    var first, second := theirs[i'].pos, theirs[j'].pos;
    assert first == mine[i].pos < mine[j].pos == second;
  }

  /** Any two subscribers that received the same two events received them in the same order. */
  lemma SubscribersAgreeOnOrder(
    capacity: nat, steps: seq<Step>, k: nat, l: nat, i: nat, j: nat, i': nat, j': nat)
    requires k < |Run(capacity, steps).subs| && l < |Run(capacity, steps).subs|
    requires i < j < |Run(capacity, steps).subs[k].received|
    requires i' < |Run(capacity, steps).subs[l].received| && j' < |Run(capacity, steps).subs[l].received|
    requires Run(capacity, steps).subs[k].received[i] == Run(capacity, steps).subs[l].received[i']
    requires Run(capacity, steps).subs[k].received[j] == Run(capacity, steps).subs[l].received[j']
    ensures i' < j'
  {
    DeliveredInOrder(capacity, steps, k);
    DeliveredInOrder(capacity, steps, l);
    OrdersAgree(Run(capacity, steps).subs[k].received, Run(capacity, steps).subs[l].received, i, j, i', j');
  }

  /**
   Backpressure comes from one place: a running router with an event to route is stuck exactly when
   the subscriber it is at waits, is open and has a full inbox; one receive there frees it.
   */
  lemma StuckOnlyOnAFullInbox(capacity: nat, steps: seq<Step>)
    ensures var r := Run(capacity, steps);
      r.running && r.taken < |r.published| ==>
      (!Enabled(r, Take) && !Enabled(r, Route) <==>
       && r.at.Some? && r.at.value < |r.subs|
       && var s := r.subs[r.at.value];
          && s.spec.filter.Allows(r.published[r.taken].kind)
          && s.spec.policy.Block? && !s.closed && |s.inbox| == Max(s.spec.capacity, 1))
    ensures var r := Run(capacity, steps);
      r.at.Some? && !Enabled(r, Route) ==> Enabled(Do(r, Receive(r.at.value)), Route)
  {
    RunIsGood(capacity, steps);
  }

  /**
   The inbound queue never holds more than its capacity, and taking an event frees its place at once:
   a producer need not wait for the fan-out.
   */
  lemma TakeFreesASlot(capacity: nat, steps: seq<Step>, kind: EventKind)
    ensures var r := Run(capacity, steps);
      && 0 <= Queued(r) <= Max(capacity, 1)
      && (Enabled(r, Take) ==> Enabled(Do(r, Take), Publish(kind)))
      && (!Enabled(r, Publish(kind)) && r.running && r.at == None ==> Enabled(r, Take))
  {
    RunIsGood(capacity, steps);
    CapacityStays(capacity, steps);
  }

  lemma {:induction false} CapacityStays(capacity: nat, steps: seq<Step>)
    ensures Run(capacity, steps).capacity == capacity
  {
    if steps != [] {
      CapacityStays(capacity, steps[..|steps| - 1]);
    }
  }

  /** The router runs exactly if it was started. */
  lemma {:induction false} RunsWhenStarted(capacity: nat, steps: seq<Step>)
    ensures Run(capacity, steps).running <==> Spawn in steps
  {
    if steps != [] {
      var init, last := steps[..|steps| - 1], steps[|steps| - 1];
      RunsWhenStarted(capacity, init);
      assert steps == init + [last];
    }
  }

  lemma StaysClosed(r: Router, step: Step, k: nat)
    requires Good(r) && k < |r.subs| && r.subs[k].closed
    ensures var next := Do(r, step);
      && k < |next.subs| && next.subs[k].closed
      && next.subs[k].inbox == r.subs[k].inbox && next.subs[k].received == r.subs[k].received
      && next.subs[k].delivered == r.subs[k].delivered
  {
  }

  /** Once it is closed a subscriber is delivered nothing more, whatever happens. */
  lemma {:induction false} ClosedGetsNothing(capacity: nat, steps: seq<Step>, k: nat, more: seq<Step>)
    requires k < |Run(capacity, steps).subs|
    ensures var before, after := Run(capacity, steps).subs, Run(capacity, steps + [Close(k)] + more).subs;
      && k < |after| && after[k].closed
      && after[k].inbox == before[k].inbox && after[k].received == before[k].received
      && after[k].delivered == before[k].delivered
    decreases |more|
  {
    var all := steps + [Close(k)] + more;
    if more == [] {
      assert all[..|all| - 1] == steps && all[|all| - 1] == Close(k);
    } else {
      var init := more[..|more| - 1];
      ClosedGetsNothing(capacity, steps, k, init);
      assert all[..|all| - 1] == steps + [Close(k)] + init && all[|all| - 1] == more[|more| - 1];
      RunIsGood(capacity, all[..|all| - 1]);
      StaysClosed(Run(capacity, all[..|all| - 1]), all[|all| - 1], k);
    }
  }

  /** `n` turns of the router in a row. */
  function Routes(r: Router, n: nat): Router {
    if n == 0 then r else Do(Routes(r, n - 1), Route)
  }

  // -- the router as an object -----------------------------------------------------------

  class EventRouter {
    const capacity: nat
    var published: seq<Event>
    var taken: nat
    var at: Option<nat>
    var running: bool
    var subs: seq<Subscriber>

    ghost function State(): Router
      reads this
    {
      Router(capacity, published, taken, at, running, subs)
    }

    constructor (capacity: nat)
      ensures State() == Init(capacity)
    {
      this.capacity := capacity;
      published, taken, at, running, subs := [], 0, None, false, [];
    }

    method Register(spec: Spec)
      requires !running
      modifies this`subs
      ensures State() == Do(old(State()), Subscribe(spec))
    {
      subs := subs + [Subscriber(spec, [], [], false, 0, [], [])];
    }

    method Start()
      requires !running
      modifies this`running
      ensures State() == Do(old(State()), Spawn)
    {
      running := true;
    }

    /** Refused, and nothing changed, exactly when the shared inbound queue is full. */
    method TryPublish(kind: EventKind) returns (ok: bool)
      modifies this`published
      ensures State() == Do(old(State()), Publish(kind))
      ensures ok == Enabled(old(State()), Publish(kind))
    {
      ok := |published| - taken - (if at.Some? then 1 else 0) < Max(capacity, 1);
      if ok {
        published := published + [Event(|published|, kind)];
      }
    }

    /** The router picks up the next event. */
    method TakeNext()
      requires running && at == None && taken < |published|
      modifies this`at
      ensures State() == Do(old(State()), Take)
    {
      at := Some(0);
    }

    /** Offers the event to the subscriber whose turn it is. */
    method ServeOne() returns (waits: bool)
      requires at.Some? && at.value < |subs| && taken < |published|
      modifies this`at, this`subs
      ensures waits == !Enabled(old(State()), Route)
      ensures State() == Do(old(State()), Route)
    {
      var k, e := at.value, published[taken];
      var s := subs[k];
      if s.spec.filter.Allows(e.kind) {
        match s.spec.policy {
          case Block =>
            if s.closed {
              s := s.(lost := s.lost + [Loss(e, |s.inbox|, true)]);
            } else if s.Full() {
              return true;
            } else {
              s := s.(inbox := s.inbox + [e], delivered := s.delivered + [e]);
            }
          case DropNewest =>
            if s.closed || s.Full() {
              s := s.(dropped := s.dropped + 1, lost := s.lost + [Loss(e, |s.inbox|, s.closed)]);
            } else {
              s := s.(inbox := s.inbox + [e], delivered := s.delivered + [e]);
            }
        }
      }
      subs, at := subs[k := s], Some(k + 1);
      waits := false;
    }

    /**
     Offers the event to the subscribers not yet served, in registration order. It stops early only
     where the router waits, and resumes there when called again.
     */
    method ServeRest() returns (done: bool, ghost n: nat)
      requires at.Some? && taken < |published|
      modifies this`taken, this`at, this`subs
      ensures State() == Routes(old(State()), n)
      ensures if done then at == None && taken == old(taken) + 1 else !Enabled(State(), Route) && at.Some?
    {
      n := 0;
      while at.value < |subs|
        invariant State() == Routes(old(State()), n)
        invariant at.Some? && taken == old(taken)
        decreases |subs| - at.value
      {
        var waits := ServeOne();
        if waits {
          return false, n;
        }
        n := n + 1;
      }
      taken, at := taken + 1, None;
      done, n := true, n + 1;
    }

    /** A subscriber reads its oldest event. */
    method Recv(k: nat) returns (e: Event)
      requires k < |subs| && !subs[k].closed && subs[k].inbox != []
      modifies this`subs
      ensures State() == Do(old(State()), Receive(k))
      ensures old(subs[k].inbox) == [e] + subs[k].inbox && subs[k].received == old(subs[k].received) + [e]
    {
      e := subs[k].inbox[0];
      subs := subs[k := subs[k].(inbox := subs[k].inbox[1..], received := subs[k].received + [e])];
    }
  }
}

/**
 What a fold keeps of a window, told mention by mention: of each id the last full word, in the frame it was said
 in, and every frame that speaks of no item.
 */
module FoldWords {
  import opened Prelude
  import opened IndexMaps
  import opened Frames
  import opened ReplayFold

  /** One item a frame speaks of. */
  datatype Mention =
    | Adds(view: View)
    | Completes(view: View)
    | Removes(reason: RemoveReason, removed: ItemId)
    | Alters(patch: Patch)
  {
    /** A full word says all there is to say of its item; a patch does not. */
    predicate IsWordOn(id: ItemId) {
      match this
      case Adds(v) => v.id == id
      case Completes(v) => v.id == id
      case Removes(_, gone) => gone == id
      case Alters(_) => false
    }

    /** Both give the item an object, in a frame of one kind. */
    predicate SameKind(other: Mention) { (Adds? && other.Adds?) || (Completes? && other.Completes?) }
  }

  function Additions(items: seq<View>): seq<Mention> {
    if items == [] then [] else Additions(items[..|items| - 1]) + [Adds(items[|items| - 1])]
  }

  function Completions(items: seq<View>): seq<Mention> {
    if items == [] then [] else Completions(items[..|items| - 1]) + [Completes(items[|items| - 1])]
  }

  function Removals(reason: RemoveReason, ids: seq<ItemId>): seq<Mention> {
    if ids == [] then [] else Removals(reason, ids[..|ids| - 1]) + [Removes(reason, ids[|ids| - 1])]
  }

  function Alterations(patches: seq<Patch>): seq<Mention> {
    if patches == [] then [] else Alterations(patches[..|patches| - 1]) + [Alters(patches[|patches| - 1])]
  }

  function MentionsIn(body: FrameBody): seq<Mention> {
    match body
    case Added(_, items) => Additions(items)
    case Completed(items) => Completions(items)
    case Removed(reason, ids) => Removals(reason, ids)
    case Delta(patches) => Alterations(patches)
    case Other(_, _) => []
  }

  function Mentions(bodies: seq<FrameBody>): seq<Mention> {
    if bodies == [] then [] else Mentions(bodies[..|bodies| - 1]) + MentionsIn(bodies[|bodies| - 1])
  }

  /** The last full word on an item. */
  function LastWord(ms: seq<Mention>, id: ItemId): (w: Option<Mention>)
    ensures w.Some? ==> w.value.IsWordOn(id)
  {
    if ms == [] then None
    else if ms[|ms| - 1].IsWordOn(id) then Some(ms[|ms| - 1])
    else LastWord(ms[..|ms| - 1], id)
  }

  /** What the patches since an item's last full word add up to, unless that word removed it. */
  function Changes(ms: seq<Mention>, id: ItemId): Option<Record> {
    if ms == [] then None
    else
      var init, last := ms[..|ms| - 1], ms[|ms| - 1];
      if last.IsWordOn(id) then None
      else if last.Alters? && last.patch.id == id then
        if LastWord(init, id).Some? && LastWord(init, id).value.Removes? then Changes(init, id)
        else Some(Changes(init, id).GetOr(map[]) + last.patch.fields)
      else Changes(init, id)
  }

  /** Since which mention the item has stood where its last word put it. */
  function Since(ms: seq<Mention>, id: ItemId): (i: nat)
    ensures ms != [] ==> i < |ms|
  {
    if ms == [] then 0
    else
      var init, last := ms[..|ms| - 1], ms[|ms| - 1];
      if last.IsWordOn(id) && (LastWord(init, id).None? || !last.SameKind(LastWord(init, id).value)) then |init|
      else Since(init, id)
  }

  /** Since which mention patches of the item have been waiting. */
  function Slot(ms: seq<Mention>, id: ItemId): (i: nat)
    ensures ms != [] ==> i < |ms|
  {
    if ms == [] then 0
    else
      var init, last := ms[..|ms| - 1], ms[|ms| - 1];
      if last.Alters? && last.patch.id == id && Changes(init, id).None? then |init| else Slot(init, id)
  }

  // -- the accumulator, mention by mention ---------------------------------------------

  function Take(acc: Acc, m: Mention): Acc {
    match m
    case Adds(v) => AddView(acc, v)
    case Completes(v) => CompleteView(acc, v)
    case Removes(reason, id) => RemoveId(acc, reason, id)
    case Alters(p) => PatchItem(acc, p)
  }

  predicate Buried(removed: map<RemoveReason, seq<ItemId>>, r: RemoveReason, id: ItemId) {
    r in removed && id in removed[r]
  }

  /** An item stands where its last word put it, with what that word said, and nowhere else. */
  ghost predicate StandsBy(acc: Acc, w: Option<Mention>, id: ItemId) {
    && (if id in acc.added.entries then w == Some(Adds(acc.added.entries[id])) else w.None? || !w.value.Adds?)
    && (if id in acc.completed.entries then w == Some(Completes(acc.completed.entries[id]))
        else w.None? || !w.value.Completes?)
    && (forall r :: Buried(acc.removed, r, id) <==> w == Some(Removes(r, id)))
  }

  ghost predicate Pends(acc: Acc, changes: Option<Record>, id: ItemId) {
    changes == if id in acc.delta.entries then Some(acc.delta.entries[id]) else None
  }

  lemma ForgetsOnly(removed: map<RemoveReason, seq<ItemId>>, gone: ItemId, r: RemoveReason, id: ItemId)
    ensures Buried(ForgetRemoval(removed, gone), r, id) <==> id != gone && Buried(removed, r, id)
  {
  }

  lemma BucketedOnly(
    removed: map<RemoveReason, seq<ItemId>>, reason: RemoveReason, gone: ItemId, r: RemoveReason, id: ItemId)
    ensures Buried(Bucketed(removed, reason, gone), r, id) <==>
            if id == gone then r == reason else Buried(removed, r, id)
  {
    ForgetsOnly(removed, gone, r, id);
  }

  lemma TakeStandsBy(acc: Acc, m: Mention, w: Option<Mention>, id: ItemId)
    requires StandsBy(acc, w, id)
    ensures StandsBy(Take(acc, m), if m.IsWordOn(id) then Some(m) else w, id)
  {
    match m
    case Adds(v) => forall r { ForgetsOnly(acc.removed, v.id, r, id); }
    case Completes(v) => forall r { ForgetsOnly(acc.removed, v.id, r, id); }
    case Removes(reason, gone) => forall r { BucketedOnly(acc.removed, reason, gone, r, id); }
    case Alters(p) =>
  }

  lemma GoneIsRemoved(acc: Acc, w: Option<Mention>, id: ItemId)
    requires StandsBy(acc, w, id) && (w.Some? ==> w.value.IsWordOn(id))
    ensures id in RemovedIds(acc.removed) <==> w.Some? && w.value.Removes?
  {
    if w.Some? && w.value.Removes? { assert Buried(acc.removed, w.value.reason, id); }
    if id in RemovedIds(acc.removed) {
      var r :| r in acc.removed && id in acc.removed[r];
      assert Buried(acc.removed, r, id);
    }
  }

  /** Each item stands by its last word, and its patches since are waiting. */
  ghost predicate Kept(acc: Acc, ms: seq<Mention>) {
    && (forall id :: StandsBy(acc, LastWord(ms, id), id))
    && (forall id :: Pends(acc, Changes(ms, id), id))
  }

  lemma TakeKeeps(acc: Acc, ms: seq<Mention>, m: Mention)
    requires Kept(acc, ms)
    ensures Kept(Take(acc, m), ms + [m])
  {
    assert (ms + [m])[..|ms|] == ms;
    forall id ensures StandsBy(Take(acc, m), LastWord(ms + [m], id), id) {
      TakeStandsBy(acc, m, LastWord(ms, id), id);
    }
    forall id ensures Pends(Take(acc, m), Changes(ms + [m], id), id) {
      GoneIsRemoved(acc, LastWord(ms, id), id);
    }
  }

  // -- the order within a frame ---------------------------------------------------------

  ghost predicate Ascending(order: seq<ItemId>, rank: ItemId -> nat) {
    forall i, j :: 0 <= i < j < |order| ==> rank(order[i]) < rank(order[j])
  }

  lemma {:induction false} WithoutAscends(order: seq<ItemId>, gone: ItemId, rank: ItemId -> nat, rank': ItemId -> nat)
    requires Ascending(order, rank) && forall id :: id != gone ==> rank'(id) == rank(id)
    ensures Ascending(Without(order, gone), rank')
  {
    if order != [] {
      var rest := Without(order[1..], gone);
      assert Ascending(order[1..], rank) by {
        forall i, j | 0 <= i < j < |order[1..]| ensures rank(order[1..][i]) < rank(order[1..][j]) {
          assert rank(order[i + 1]) < rank(order[j + 1]);
        }
      }
      WithoutAscends(order[1..], gone, rank, rank');
      forall i | 0 <= i < |rest| && order[0] != gone ensures rank'(order[0]) < rank'(rest[i]) {
        assert rest[i] in order[1..];
        var j :| 0 <= j < |order| - 1 && order[1..][j] == rest[i];
        assert rank(order[0]) < rank(order[j + 1]);
      }
    }
  }

  lemma OneMoreAscends(order: seq<ItemId>, id: ItemId, rank: ItemId -> nat)
    requires Ascending(order, rank) && forall x :: x in order ==> rank(x) < rank(id)
    ensures Ascending(order + [id], rank)
  {
    forall i | 0 <= i < |order| ensures rank(order[i]) < rank(id) { assert order[i] in order; }
  }

  lemma RanksAlike(order: seq<ItemId>, rank: ItemId -> nat, rank': ItemId -> nat)
    requires Ascending(order, rank) && forall id :: id in order ==> rank'(id) == rank(id)
    ensures Ascending(order, rank')
  {
    forall i | 0 <= i < |order| ensures rank'(order[i]) == rank(order[i]) { assert order[i] in order; }
  }

  /** Since which mention an item stands, and since which its patches wait. */
  function SinceIn(ms: seq<Mention>): ItemId -> nat { id => Since(ms, id) }

  function SlotIn(ms: seq<Mention>): ItemId -> nat { id => Slot(ms, id) }

  ghost predicate AllAscend(removed: map<RemoveReason, seq<ItemId>>, rank: ItemId -> nat) {
    forall r :: r in removed ==> Ascending(removed[r], rank)
  }

  ghost predicate InOrder(acc: Acc, ms: seq<Mention>) {
    && acc.added.Valid() && acc.completed.Valid() && acc.delta.Valid()
    && Ascending(acc.added.order, SinceIn(ms))
    && Ascending(acc.completed.order, SinceIn(ms))
    && AllAscend(acc.removed, SinceIn(ms))
    && Ascending(acc.delta.order, SlotIn(ms))
  }

  lemma RanksMove(ms: seq<Mention>, m: Mention, id: ItemId)
    ensures !m.IsWordOn(id) ==> Since(ms + [m], id) == Since(ms, id)
    ensures m.IsWordOn(id) ==>
              var w := LastWord(ms, id);
              Since(ms + [m], id) == if w.Some? && m.SameKind(w.value) then Since(ms, id) else |ms|
    ensures Slot(ms + [m], id) ==
            if m.Alters? && m.patch.id == id && Changes(ms, id).None? then |ms| else Slot(ms, id)
    ensures LastWord(ms, id).Some? ==> Since(ms, id) < |ms|
    ensures Changes(ms, id).Some? ==> Slot(ms, id) < |ms|
  {
    assert (ms + [m])[..|ms|] == ms;
  }

  lemma InsertAscends<V>(map': IndexMap<ItemId, V>, id: ItemId, v: V, rank: ItemId -> nat, rank': ItemId -> nat)
    requires map'.Valid() && Ascending(map'.order, rank) && forall x :: x in map'.order ==> rank'(x) == rank(x)
    requires id !in map'.entries ==> forall x :: x in map'.order ==> rank(x) < rank'(id)
    ensures Ascending(map'.Insert(id, v).order, rank')
  {
    RanksAlike(map'.order, rank, rank');
    if id !in map'.entries { OneMoreAscends(map'.order, id, rank'); }
  }

  lemma ForgetAscends(removed: map<RemoveReason, seq<ItemId>>, gone: ItemId, rank: ItemId -> nat, rank': ItemId -> nat)
    requires AllAscend(removed, rank) && forall id :: id != gone ==> rank'(id) == rank(id)
    ensures AllAscend(ForgetRemoval(removed, gone), rank')
  {
    forall r | r in removed { WithoutAscends(removed[r], gone, rank, rank'); }
  }

  lemma AddKeepsOrder(acc: Acc, ms: seq<Mention>, v: View)
    requires Kept(acc, ms) && InOrder(acc, ms)
    ensures InOrder(AddView(acc, v), ms + [Adds(v)])
  {
    var ms' := ms + [Adds(v)];
    forall id { RanksMove(ms, Adds(v), id); }
    forall x | x in acc.added.order ensures LastWord(ms, x).Some? { assert StandsBy(acc, LastWord(ms, x), x); }
    assert StandsBy(acc, LastWord(ms, v.id), v.id);
    InsertAscends(acc.added, v.id, v, SinceIn(ms), SinceIn(ms'));
    WithoutAscends(acc.completed.order, v.id, SinceIn(ms), SinceIn(ms'));
    WithoutAscends(acc.delta.order, v.id, SlotIn(ms), SlotIn(ms'));
    ForgetAscends(acc.removed, v.id, SinceIn(ms), SinceIn(ms'));
  }

  lemma CompleteKeepsOrder(acc: Acc, ms: seq<Mention>, v: View)
    requires Kept(acc, ms) && InOrder(acc, ms)
    ensures InOrder(CompleteView(acc, v), ms + [Completes(v)])
  {
    var ms' := ms + [Completes(v)];
    forall id { RanksMove(ms, Completes(v), id); }
    forall x | x in acc.completed.order ensures LastWord(ms, x).Some? { assert StandsBy(acc, LastWord(ms, x), x); }
    assert StandsBy(acc, LastWord(ms, v.id), v.id);
    InsertAscends(acc.completed, v.id, v, SinceIn(ms), SinceIn(ms'));
    WithoutAscends(acc.added.order, v.id, SinceIn(ms), SinceIn(ms'));
    WithoutAscends(acc.delta.order, v.id, SlotIn(ms), SlotIn(ms'));
    ForgetAscends(acc.removed, v.id, SinceIn(ms), SinceIn(ms'));
  }

  lemma BucketAscends(acc: Acc, ms: seq<Mention>, reason: RemoveReason, id: ItemId)
    requires Kept(acc, ms) && InOrder(acc, ms)
    ensures AllAscend(Bucketed(acc.removed, reason, id), SinceIn(ms + [Removes(reason, id)]))
  {
    var ms' := ms + [Removes(reason, id)];
    var cleared := ForgetRemoval(acc.removed, id);
    forall x { RanksMove(ms, Removes(reason, id), x); }
    ForgetAscends(acc.removed, id, SinceIn(ms), SinceIn(ms'));
    if reason in cleared {
      forall x | x in cleared[reason] ensures LastWord(ms, x).Some? {
        assert StandsBy(acc, LastWord(ms, x), x);
        assert Buried(acc.removed, reason, x);
      }
      OneMoreAscends(cleared[reason], id, SinceIn(ms'));
    }
  }

  lemma RemoveKeepsOrder(acc: Acc, ms: seq<Mention>, reason: RemoveReason, id: ItemId)
    requires Kept(acc, ms) && InOrder(acc, ms)
    ensures InOrder(RemoveId(acc, reason, id), ms + [Removes(reason, id)])
  {
    var ms' := ms + [Removes(reason, id)];
    forall x { RanksMove(ms, Removes(reason, id), x); }
    WithoutAscends(acc.added.order, id, SinceIn(ms), SinceIn(ms'));
    WithoutAscends(acc.completed.order, id, SinceIn(ms), SinceIn(ms'));
    WithoutAscends(acc.delta.order, id, SlotIn(ms), SlotIn(ms'));
    BucketAscends(acc, ms, reason, id);
  }

  lemma PatchKeepsOrder(acc: Acc, ms: seq<Mention>, p: Patch)
    requires Kept(acc, ms) && InOrder(acc, ms)
    ensures InOrder(PatchItem(acc, p), ms + [Alters(p)])
  {
    var ms' := ms + [Alters(p)];
    forall id { RanksMove(ms, Alters(p), id); }
    RanksAlike(acc.added.order, SinceIn(ms), SinceIn(ms'));
    RanksAlike(acc.completed.order, SinceIn(ms), SinceIn(ms'));
    forall r | r in acc.removed { RanksAlike(acc.removed[r], SinceIn(ms), SinceIn(ms')); }
    forall x | x in acc.delta.order ensures Changes(ms, x).Some? { assert Pends(acc, Changes(ms, x), x); }
    assert Pends(acc, Changes(ms, p.id), p.id);
    if p.id in RemovedIds(acc.removed) {
      RanksAlike(acc.delta.order, SlotIn(ms), SlotIn(ms'));
    } else {
      var slot := if p.id in acc.delta.entries then acc.delta.entries[p.id] else map[];
      InsertAscends(acc.delta, p.id, slot + p.fields, SlotIn(ms), SlotIn(ms'));
    }
  }

  lemma TakeKeepsOrder(acc: Acc, ms: seq<Mention>, m: Mention)
    requires Kept(acc, ms) && InOrder(acc, ms)
    ensures InOrder(Take(acc, m), ms + [m])
  {
    match m
    case Adds(v) => AddKeepsOrder(acc, ms, v);
    case Completes(v) => CompleteKeepsOrder(acc, ms, v);
    case Removes(reason, id) => RemoveKeepsOrder(acc, ms, reason, id);
    case Alters(p) => PatchKeepsOrder(acc, ms, p);
  }

  // -- whole windows --------------------------------------------------------------------

  /** What an accumulator tells of the mentions it has taken. */
  ghost predicate Upholds(acc: Acc, ms: seq<Mention>) { Kept(acc, ms) && InOrder(acc, ms) }

  lemma TakeUpholds(acc: Acc, ms: seq<Mention>, m: Mention, next: Acc)
    requires Upholds(acc, ms) && next == Take(acc, m)
    ensures Upholds(next, ms + [m])
  {
    TakeKeeps(acc, ms, m);
    TakeKeepsOrder(acc, ms, m);
  }

  lemma OneMoreMention(ms: seq<Mention>, before: seq<Mention>, m: Mention)
    ensures ms + before + [m] == ms + (before + [m])
  {
  }

  lemma {:induction false} AddsUphold(acc: Acc, ms: seq<Mention>, items: seq<View>)
    requires Upholds(acc, ms)
    ensures Upholds(AddViews(acc, items), ms + Additions(items))
  {
    if items == [] {
      assert ms + [] == ms;
    } else {
      var init, v := items[..|items| - 1], items[|items| - 1];
      AddsUphold(acc, ms, init);
      OneMoreMention(ms, Additions(init), Adds(v));
      TakeUpholds(AddViews(acc, init), ms + Additions(init), Adds(v), AddViews(acc, items));
    }
  }

  lemma {:induction false} CompletesUphold(acc: Acc, ms: seq<Mention>, items: seq<View>)
    requires Upholds(acc, ms)
    ensures Upholds(CompleteViews(acc, items), ms + Completions(items))
  {
    if items == [] {
      assert ms + [] == ms;
    } else {
      var init, v := items[..|items| - 1], items[|items| - 1];
      CompletesUphold(acc, ms, init);
      OneMoreMention(ms, Completions(init), Completes(v));
      TakeUpholds(CompleteViews(acc, init), ms + Completions(init), Completes(v), CompleteViews(acc, items));
    }
  }

  lemma {:induction false} RemovesUphold(acc: Acc, ms: seq<Mention>, reason: RemoveReason, ids: seq<ItemId>)
    requires Upholds(acc, ms)
    ensures Upholds(RemoveIds(acc, reason, ids), ms + Removals(reason, ids))
  {
    if ids == [] {
      assert ms + [] == ms;
    } else {
      var init, id := ids[..|ids| - 1], ids[|ids| - 1];
      RemovesUphold(acc, ms, reason, init);
      OneMoreMention(ms, Removals(reason, init), Removes(reason, id));
      var next := RemoveIds(acc, reason, ids);
      TakeUpholds(RemoveIds(acc, reason, init), ms + Removals(reason, init), Removes(reason, id), next);
    }
  }

  lemma {:induction false} PatchesUphold(acc: Acc, ms: seq<Mention>, patches: seq<Patch>)
    requires Upholds(acc, ms)
    ensures Upholds(PatchItems(acc, patches), ms + Alterations(patches))
  {
    if patches == [] {
      assert ms + [] == ms;
    } else {
      var init, p := patches[..|patches| - 1], patches[|patches| - 1];
      PatchesUphold(acc, ms, init);
      OneMoreMention(ms, Alterations(init), Alters(p));
      TakeUpholds(PatchItems(acc, init), ms + Alterations(init), Alters(p), PatchItems(acc, patches));
    }
  }

  /** Frames that speak of no item, and reasons, change nothing of what is upheld. */
  lemma UpholdsAsBefore(acc: Acc, ms: seq<Mention>, reason: Option<AddReason>, others: seq<(OtherKind, Json)>)
    requires Upholds(acc, ms)
    ensures Upholds(acc.(addReason := reason, others := others), ms)
  {
    var acc' := acc.(addReason := reason, others := others);
    forall id ensures StandsBy(acc', LastWord(ms, id), id) { assert StandsBy(acc, LastWord(ms, id), id); }
    forall id ensures Pends(acc', Changes(ms, id), id) { assert Pends(acc, Changes(ms, id), id); }
  }

  lemma AbsorbUpholds(acc: Acc, ms: seq<Mention>, body: FrameBody)
    requires Upholds(acc, ms)
    ensures Upholds(Absorb(acc, body), ms + MentionsIn(body))
  {
    match body
    case Added(reason, items) =>
      var merged := Some(MergeAddReason(acc.addReason, reason));
      UpholdsAsBefore(acc, ms, merged, acc.others);
      AddsUphold(acc.(addReason := merged), ms, items);
    case Completed(items) => CompletesUphold(acc, ms, items);
    case Removed(reason, ids) => RemovesUphold(acc, ms, reason, ids);
    case Delta(patches) => PatchesUphold(acc, ms, patches);
    case Other(kind, value) =>
      UpholdsAsBefore(acc, ms, acc.addReason, acc.others + [(kind, value)]);
      assert ms + [] == ms;
  }

  /** Whatever the window, each item stands by its last full word, in the order in which they came to stand there. */
  lemma {:induction false} WindowKeeps(bodies: seq<FrameBody>)
    ensures Upholds(AbsorbAll(bodies), Mentions(bodies))
  {
    if bodies != [] {
      WindowKeeps(bodies[..|bodies| - 1]);
      AbsorbUpholds(AbsorbAll(bodies[..|bodies| - 1]), Mentions(bodies[..|bodies| - 1]), bodies[|bodies| - 1]);
    }
  }

  // -- the fold -------------------------------------------------------------------------

  function AddedIn(f: Fold): seq<View> { if f.added.Some? then f.added.value.1 else [] }

  function PatchedIn(f: Fold): (r: seq<ItemId>)
    ensures |r| == |f.delta|
  {
    seq(|f.delta|, i requires 0 <= i < |f.delta| => f.delta[i].id)
  }

  ghost predicate RemovedFor(f: Fold, r: RemoveReason, id: ItemId) {
    exists b :: b in f.removed && b.0 == r && id in b.1
  }

  /**
   The fold says of an item exactly its last full word, with that word's object or reason, and exactly the
   patches since.
   */
  ghost predicate Says(f: Fold, w: Option<Mention>, changes: Option<Record>, id: ItemId) {
    && (forall v :: v in AddedIn(f) && v.id == id <==> w == Some(Adds(v)))
    && (forall v :: v in f.completed && v.id == id <==> w == Some(Completes(v)))
    && (forall r :: RemovedFor(f, r, id) <==> w == Some(Removes(r, id)))
    && (forall p :: p in f.delta && p.id == id <==> p == Patch(id, changes.GetOr(map[])) && p.fields != map[])
  }

  lemma ValuesAre(map': IndexMap<ItemId, View>, v: View)
    requires map'.Valid() && forall id :: id in map'.entries ==> map'.entries[id].id == id
    ensures v in map'.Values() <==> v.id in map'.entries && map'.entries[v.id] == v
    ensures Ids(map'.Values()) == map'.order
  {
    if v.id in map'.entries && map'.entries[v.id] == v {
      var i :| 0 <= i < |map'.order| && map'.order[i] == v.id;
      assert map'.Values()[i] == v;
    }
  }

  lemma {:induction false} BucketsAre(
    removed: map<RemoveReason, seq<ItemId>>, order: seq<RemoveReason>, b: (RemoveReason, seq<ItemId>))
    ensures b in Buckets(removed, order) <==> b.0 in order && b.0 in removed && b.1 == removed[b.0] != []
  {
    if order != [] {
      BucketsAre(removed, order[..|order| - 1], b);
      assert order == order[..|order| - 1] + [order[|order| - 1]];
    }
  }

  lemma RemovedAre(acc: Acc, f: Fold, r: RemoveReason, id: ItemId)
    requires f.removed == Buckets(acc.removed, REASON_ORDER)
    ensures RemovedFor(f, r, id) <==> Buried(acc.removed, r, id)
  {
    assert REASON_ORDER[0].Deleted? && REASON_ORDER[1].Cleared?;
    assert REASON_ORDER[2].Expired? && REASON_ORDER[3].Replaced?;
    assert r in REASON_ORDER;
    if Buried(acc.removed, r, id) {
      BucketsAre(acc.removed, REASON_ORDER, (r, acc.removed[r]));
      assert (r, acc.removed[r]) in f.removed;
    }
    if RemovedFor(f, r, id) {
      var b :| b in f.removed && b.0 == r && id in b.1;
      BucketsAre(acc.removed, REASON_ORDER, b);
    }
  }

  lemma {:induction false} PatchesAre(delta: map<ItemId, Record>, order: seq<ItemId>, p: Patch)
    requires forall id :: id in order ==> id in delta
    ensures p in Patches(delta, order) <==> p.id in order && p.fields == delta[p.id] != map[]
  {
    if order != [] {
      PatchesAre(delta, order[..|order| - 1], p);
      assert order == order[..|order| - 1] + [order[|order| - 1]];
    }
  }

  lemma ObjectsAre(acc: Acc, from: nat, to: nat)
    requires Inv(acc)
    ensures var f := Finish(acc, from, to);
      && (forall v :: v in AddedIn(f) <==> v.id in acc.added.entries && acc.added.entries[v.id] == v)
      && (forall v :: v in f.completed <==> v.id in acc.completed.entries && acc.completed.entries[v.id] == v)
      && Ids(AddedIn(f)) == acc.added.order && Ids(f.completed) == acc.completed.order
  {
    forall v { ValuesAre(acc.added, v); }
    forall v { ValuesAre(acc.completed, v); }
    assert AddedIn(Finish(acc, from, to)) == acc.added.Values();
  }

  lemma SaysObjects(acc: Acc, from: nat, to: nat, w: Option<Mention>, id: ItemId)
    requires Inv(acc) && StandsBy(acc, w, id) && (w.Some? ==> w.value.IsWordOn(id))
    ensures var f := Finish(acc, from, to);
      && (forall v :: v in AddedIn(f) && v.id == id <==> w == Some(Adds(v)))
      && (forall v :: v in f.completed && v.id == id <==> w == Some(Completes(v)))
  {
    ObjectsAre(acc, from, to);
  }

  lemma SaysPatch(acc: Acc, from: nat, to: nat, changes: Option<Record>, id: ItemId)
    requires Inv(acc) && Pends(acc, changes, id)
    ensures forall p :: p in Finish(acc, from, to).delta && p.id == id <==>
                        p == Patch(id, changes.GetOr(map[])) && p.fields != map[]
  {
    forall p { PatchesAre(acc.delta.entries, acc.delta.order, p); }
  }

  lemma SaysRemoval(acc: Acc, from: nat, to: nat, w: Option<Mention>, id: ItemId)
    requires Inv(acc) && StandsBy(acc, w, id)
    ensures forall r :: RemovedFor(Finish(acc, from, to), r, id) <==> w == Some(Removes(r, id))
  {
    forall r { RemovedAre(acc, Finish(acc, from, to), r, id); }
  }

  lemma FoldSays(bodies: seq<FrameBody>, from: nat, to: nat, id: ItemId)
    ensures Inv(AbsorbAll(bodies))
    ensures var ms := Mentions(bodies);
            Says(Finish(AbsorbAll(bodies), from, to), LastWord(ms, id), Changes(ms, id), id)
  {
    var acc, w, changes := AbsorbAll(bodies), LastWord(Mentions(bodies), id), Changes(Mentions(bodies), id);
    AbsorbAllMeans(bodies, map[]);
    WindowKeeps(bodies);
    assert StandsBy(acc, w, id) && Pends(acc, changes, id);
    SaysObjects(acc, from, to, w, id);
    SaysRemoval(acc, from, to, w, id);
    SaysPatch(acc, from, to, changes, id);
  }

  /** Within a frame the items come in the order in which they came to stand there. */
  ghost predicate Ordered(f: Fold, ms: seq<Mention>) {
    && Ascending(Ids(AddedIn(f)), SinceIn(ms))
    && Ascending(Ids(f.completed), SinceIn(ms))
    && (forall b :: b in f.removed ==> Ascending(b.1, SinceIn(ms)))
    && Ascending(PatchedIn(f), SlotIn(ms))
  }

  lemma {:induction false} PatchesAscend(delta: map<ItemId, Record>, order: seq<ItemId>, rank: ItemId -> nat)
    requires (forall id :: id in order ==> id in delta) && Ascending(order, rank)
    ensures forall i, j :: 0 <= i < j < |Patches(delta, order)| ==>
              rank(Patches(delta, order)[i].id) < rank(Patches(delta, order)[j].id)
  {
    if order != [] {
      var init, last := order[..|order| - 1], order[|order| - 1];
      PatchesAscend(delta, init, rank);
      forall i | 0 <= i < |Patches(delta, init)| ensures rank(Patches(delta, init)[i].id) < rank(last) {
        PatchesAre(delta, init, Patches(delta, init)[i]);
        var j :| 0 <= j < |init| && init[j] == Patches(delta, init)[i].id;
        assert rank(order[j]) < rank(order[|order| - 1]);
      }
    }
  }

  lemma FoldIsOrdered(bodies: seq<FrameBody>, from: nat, to: nat)
    ensures Inv(AbsorbAll(bodies))
    ensures Ordered(Finish(AbsorbAll(bodies), from, to), Mentions(bodies))
  {
    var acc := AbsorbAll(bodies);
    AbsorbAllMeans(bodies, map[]);
    WindowKeeps(bodies);
    ObjectsAre(acc, from, to);
    PatchesAscend(acc.delta.entries, acc.delta.order, SlotIn(Mentions(bodies)));
    forall b | b in Finish(acc, from, to).removed ensures Ascending(b.1, SinceIn(Mentions(bodies))) {
      BucketsAre(acc.removed, REASON_ORDER, b);
    }
  }

  // -- what is about no item ---------------------------------------------------------------

  /** The frames of a window that speak of no item, in order. */
  function OthersIn(bodies: seq<FrameBody>): seq<FrameBody> {
    if bodies == [] then []
    else
      var last := bodies[|bodies| - 1];
      OthersIn(bodies[..|bodies| - 1]) + if last.Other? then [last] else []
  }

  lemma {:induction false} OthersConcatenate(a: seq<FrameBody>, b: seq<FrameBody>)
    ensures OthersIn(a + b) == OthersIn(a) + OthersIn(b)
  {
    if b == [] {
      assert a + b == a;
    } else {
      assert (a + b)[..|a + b| - 1] == a + b[..|b| - 1];
      OthersConcatenate(a, b[..|b| - 1]);
    }
  }

  lemma OtherInOne(body: FrameBody)
    ensures OthersIn([body]) == if body.Other? then [body] else []
  {
    assert [body][..0] == [];
  }

  lemma {:induction false} AddsNoOthers(acc: Acc, items: seq<View>)
    ensures AddViews(acc, items).others == acc.others && AddViews(acc, items).addReason == acc.addReason
    ensures CompleteViews(acc, items).others == acc.others && CompleteViews(acc, items).addReason == acc.addReason
  {
    if items != [] { AddsNoOthers(acc, items[..|items| - 1]); }
  }

  lemma {:induction false} RemovesNoOthers(acc: Acc, reason: RemoveReason, ids: seq<ItemId>)
    ensures RemoveIds(acc, reason, ids).others == acc.others && RemoveIds(acc, reason, ids).addReason == acc.addReason
  {
    if ids != [] { RemovesNoOthers(acc, reason, ids[..|ids| - 1]); }
  }

  lemma {:induction false} PatchesNoOthers(acc: Acc, patches: seq<Patch>)
    ensures PatchItems(acc, patches).others == acc.others && PatchItems(acc, patches).addReason == acc.addReason
  {
    if patches != [] { PatchesNoOthers(acc, patches[..|patches| - 1]); }
  }

  /** What a frame adds to the reasons and to what is about no item. */
  lemma AbsorbsOthers(acc: Acc, body: FrameBody)
    ensures Absorb(acc, body).others == acc.others + if body.Other? then [(body.kind, body.value)] else []
    ensures Absorb(acc, body).addReason ==
            if body.Added? then Some(MergeAddReason(acc.addReason, body.addReason)) else acc.addReason
  {
    match body
    case Added(reason, items) =>
      AddsNoOthers(acc.(addReason := Some(MergeAddReason(acc.addReason, reason))), items);
    case Completed(items) => AddsNoOthers(acc, items);
    case Removed(reason, ids) => RemovesNoOthers(acc, reason, ids);
    case Delta(patches) => PatchesNoOthers(acc, patches);
    case Other(_, _) =>
  }

  lemma {:induction false} OthersAreKept(bodies: seq<FrameBody>)
    ensures OtherFrames(AbsorbAll(bodies).others) == OthersIn(bodies)
  {
    if bodies != [] {
      var init, body := bodies[..|bodies| - 1], bodies[|bodies| - 1];
      var others := AbsorbAll(init).others;
      OthersAreKept(init);
      AbsorbsOthers(AbsorbAll(init), body);
      if body.Other? {
        assert OtherFrames(others + [(body.kind, body.value)]) == OtherFrames(others) + [body];
      } else {
        assert others + [] == others && OthersIn(init) + [] == OthersIn(init);
      }
    }
  }

  lemma {:induction false} OtherFramesAreOthers(others: seq<(OtherKind, Json)>)
    ensures OthersIn(OtherFrames(others)) == OtherFrames(others)
  {
    if others != [] {
      var init := others[..|others| - 1];
      OtherFramesAreOthers(init);
      assert OtherFrames(others)[..|others| - 1] == OtherFrames(init);
    }
  }

  lemma {:induction false} NoOthers(bodies: seq<FrameBody>)
    requires forall i :: 0 <= i < |bodies| ==> !bodies[i].Other?
    ensures OthersIn(bodies) == []
  {
    if bodies != [] { NoOthers(bodies[..|bodies| - 1]); }
  }

  lemma OnlyTheLastPart(u: seq<FrameBody>, r: seq<FrameBody>, d: seq<FrameBody>, o: seq<FrameBody>)
    requires forall body :: body in u + r + d ==> !body.Other?
    ensures OthersIn(u + r + d + o) == OthersIn(o)
  {
    var front := u + r + d;
    forall i | 0 <= i < |front| ensures !front[i].Other? { assert front[i] in front; }
    NoOthers(front);
    OthersConcatenate(front, o);
  }

  lemma EmittedOthers(f: Fold)
    ensures OthersIn(Emit(f)) == OtherFrames(f.others)
  {
    var d := if f.delta != [] then [Delta(f.delta)] else [];
    OnlyTheLastPart(Upserts(f), RemovedFrames(f.removed), d, OtherFrames(f.others));
    OtherFramesAreOthers(f.others);
  }

  /** A client that is sent a fold gets every such frame of the window, in order. */
  lemma FoldKeepsOthers(bodies: seq<FrameBody>, from: nat, to: nat)
    ensures Inv(AbsorbAll(bodies))
    ensures OthersIn(Emit(Finish(AbsorbAll(bodies), from, to))) == OthersIn(bodies)
  {
    AbsorbAllMeans(bodies, map[]);
    EmittedOthers(Finish(AbsorbAll(bodies), from, to));
    OthersAreKept(bodies);
  }

  /** How much an add reason says: that a playlist was expanded most, that boot recovered an item least. */
  function Specificity(r: AddReason): nat {
    match r
    case Recovered => 0
    case Created => 1
    case Retried => 2
    case Expanded => 3
  }

  /** The most specific add reason of a window. */
  ghost predicate MostSpecific(bodies: seq<FrameBody>, r: Option<AddReason>) {
    && (r.Some? ==> exists i :: 0 <= i < |bodies| && bodies[i].Added? && bodies[i].addReason == r.value)
    && (forall i :: 0 <= i < |bodies| && bodies[i].Added? ==>
          r.Some? && Specificity(bodies[i].addReason) <= Specificity(r.value))
  }

  lemma MergedReason(init: seq<FrameBody>, body: FrameBody, r: Option<AddReason>)
    requires MostSpecific(init, r)
    ensures MostSpecific(init + [body], if body.Added? then Some(MergeAddReason(r, body.addReason)) else r)
  {
    var bodies := init + [body];
    assert bodies[|init|] == body && forall i :: 0 <= i < |init| ==> bodies[i] == init[i];
    if r.Some? {
      var i :| 0 <= i < |init| && init[i].Added? && init[i].addReason == r.value;
      assert bodies[i].Added? && bodies[i].addReason == r.value;
    }
  }

  lemma {:induction false} ReasonIsMostSpecific(bodies: seq<FrameBody>)
    ensures MostSpecific(bodies, AbsorbAll(bodies).addReason)
  {
    if bodies != [] {
      var init, body := bodies[..|bodies| - 1], bodies[|bodies| - 1];
      ReasonIsMostSpecific(init);
      AbsorbsOthers(AbsorbAll(init), body);
      MergedReason(init, body, AbsorbAll(init).addReason);
      assert bodies == init + [body];
    }
  }

  /** A fold tells of a window all a client may go by: what it comes to, its items' last words in order, the rest. */
  ghost predicate Tells(f: Fold, bodies: seq<FrameBody>) {
    var ms := Mentions(bodies);
    && (forall s :: Replay(s, Emit(f)) == Replay(s, bodies))
    && (forall id :: Says(f, LastWord(ms, id), Changes(ms, id), id))
    && Ordered(f, ms)
    && (f.added.Some? ==> MostSpecific(bodies, Some(f.added.value.0)))
    && OthersIn(Emit(f)) == OthersIn(bodies)
  }

  lemma FoldTells(bodies: seq<FrameBody>, from: nat, to: nat)
    ensures Inv(AbsorbAll(bodies))
    ensures Tells(Finish(AbsorbAll(bodies), from, to), bodies)
  {
    FoldServesAll(bodies, from, to);
    FoldIsOrdered(bodies, from, to);
    FoldKeepsOthers(bodies, from, to);
    ReasonIsMostSpecific(bodies);
    forall id { FoldSays(bodies, from, to, id); }
  }
}

/**
 What a window of frames folds down to, and why handing the fold to a client is the same as
 replaying the window frame by frame.
 */
module ReplayFold {
  import opened Prelude
  import opened IndexMaps
  import opened Frames

  /** The fold's working state: the last frame that spoke about an id is the only one kept. */
  datatype Acc = Acc(
    added: IndexMap<ItemId, View>,
    addReason: Option<AddReason>,
    completed: IndexMap<ItemId, View>,
    removed: map<RemoveReason, seq<ItemId>>,
    delta: IndexMap<ItemId, Record>,
    others: seq<(OtherKind, Json)>)

  const START: Acc := Acc(IndexMap([], map[]), None, IndexMap([], map[]), map[], IndexMap([], map[]), [])

  /** The most specific reason wins; `Recovered` is the least specific. */
  function MergeAddReason(current: Option<AddReason>, next: AddReason): AddReason {
    if current.None? then next
    else if current.value.Expanded? || next.Expanded? then Expanded
    else if current.value.Retried? || next.Retried? then Retried
    else if current.value.Recovered? && next.Recovered? then Recovered
    else Created
  }

  function ForgetRemoval(removed: map<RemoveReason, seq<ItemId>>, id: ItemId): map<RemoveReason, seq<ItemId>> {
    map r | r in removed :: Without(removed[r], id)
  }

  function RemovedIds(removed: map<RemoveReason, seq<ItemId>>): set<ItemId> {
    set r, id | r in removed && id in removed[r] :: id
  }

  // -- one pass over a window -------------------------------------------------

  function AddView(acc: Acc, v: View): Acc {
    acc.(
      delta := acc.delta.ShiftRemove(v.id),
      completed := acc.completed.ShiftRemove(v.id),
      removed := ForgetRemoval(acc.removed, v.id),
      added := acc.added.Insert(v.id, v))
  }

  function CompleteView(acc: Acc, v: View): Acc {
    acc.(
      delta := acc.delta.ShiftRemove(v.id),
      added := acc.added.ShiftRemove(v.id),
      removed := ForgetRemoval(acc.removed, v.id),
      completed := acc.completed.Insert(v.id, v))
  }

  /** Moves `id` into one bucket, whichever it sat in before. */
  function Bucketed(removed: map<RemoveReason, seq<ItemId>>, reason: RemoveReason, id: ItemId)
    : map<RemoveReason, seq<ItemId>>
  {
    var cleared := ForgetRemoval(removed, id);
    cleared[reason := (if reason in cleared then cleared[reason] else []) + [id]]
  }

  function RemoveId(acc: Acc, reason: RemoveReason, id: ItemId): Acc {
    acc.(
      added := acc.added.ShiftRemove(id),
      completed := acc.completed.ShiftRemove(id),
      delta := acc.delta.ShiftRemove(id),
      removed := Bucketed(acc.removed, reason, id))
  }

  function PatchItem(acc: Acc, p: Patch): Acc {
    if p.id in RemovedIds(acc.removed) then acc
    else
      var slot := if p.id in acc.delta.entries then acc.delta.entries[p.id] else map[];
      acc.(delta := acc.delta.Insert(p.id, slot + p.fields))
  }

  function AddViews(acc: Acc, items: seq<View>): Acc {
    if items == [] then acc else AddView(AddViews(acc, items[..|items| - 1]), items[|items| - 1])
  }

  function CompleteViews(acc: Acc, items: seq<View>): Acc {
    if items == [] then acc else CompleteView(CompleteViews(acc, items[..|items| - 1]), items[|items| - 1])
  }

  function RemoveIds(acc: Acc, reason: RemoveReason, ids: seq<ItemId>): Acc {
    if ids == [] then acc else RemoveId(RemoveIds(acc, reason, ids[..|ids| - 1]), reason, ids[|ids| - 1])
  }

  function PatchItems(acc: Acc, patches: seq<Patch>): Acc {
    if patches == [] then acc else PatchItem(PatchItems(acc, patches[..|patches| - 1]), patches[|patches| - 1])
  }

  function Absorb(acc: Acc, body: FrameBody): Acc {
    match body
    case Added(reason, items) =>
      AddViews(acc.(addReason := Some(MergeAddReason(acc.addReason, reason))), items)
    case Completed(items) => CompleteViews(acc, items)
    case Removed(reason, ids) => RemoveIds(acc, reason, ids)
    case Delta(patches) => PatchItems(acc, patches)
    case Other(kind, value) => acc.(others := acc.others + [(kind, value)])
  }

  function AbsorbAll(bodies: seq<FrameBody>): Acc {
    if bodies == [] then START else Absorb(AbsorbAll(bodies[..|bodies| - 1]), bodies[|bodies| - 1])
  }

  // -- what an accumulator means to a client -----------------------------------

  /** The part of an accumulator a client can observe. */
  datatype Core = Core(
    added: map<ItemId, View>, completed: map<ItemId, View>, gone: set<ItemId>, delta: map<ItemId, Record>)
  {
    /** The record a client that held `s` now holds for `id`. */
    function Final(s: Client, id: ItemId): Option<Record> {
      var base :=
        if id in gone then None
        else if id in completed then Some(completed[id].fields)
        else if id in added then Some(added[id].fields)
        else Lookup(s, id);
      if base.Some? && id in delta then Some(Merge(base.value, delta[id])) else base
    }

    /** The three id sets are disjoint, patches never name a removed id, views sit under their own id. */
    ghost predicate Valid() {
      && (forall id :: id in added ==> added[id].id == id && id !in completed && id !in gone)
      && (forall id :: id in completed ==> completed[id].id == id && id !in gone)
      && (forall id :: id in delta ==> id !in gone)
    }

    function Add(v: View): Core {
      Core(added[v.id := v], completed - {v.id}, gone - {v.id}, delta - {v.id})
    }

    function Complete(v: View): Core {
      Core(added - {v.id}, completed[v.id := v], gone - {v.id}, delta - {v.id})
    }

    function Remove(id: ItemId): Core {
      Core(added - {id}, completed - {id}, gone + {id}, delta - {id})
    }

    function PatchBy(p: Patch): Core {
      if p.id in gone then this
      else this.(delta := delta[p.id := (if p.id in delta then delta[p.id] else map[]) + p.fields])
    }

    /** `after` is what a client at `s` holds once everything absorbed so far is applied. */
    ghost predicate Means(s: Client, after: Client) {
      forall id :: Lookup(after, id) == Final(s, id)
    }
  }

  function Lookup(s: Client, id: ItemId): Option<Record> {
    if id in s then Some(s[id]) else None
  }

  lemma MeaningIsUnique(c: Core, s: Client, a: Client, b: Client)
    requires c.Means(s, a) && c.Means(s, b)
    ensures a == b
  {
    forall id ensures Lookup(a, id) == Lookup(b, id) {}
    assert forall id :: id in a <==> Lookup(a, id).Some?;
    assert forall id :: id in b <==> Lookup(b, id).Some?;
    assert forall id :: id in a ==> a[id] == Lookup(a, id).value == b[id];
  }

  lemma AddFinal(c: Core, v: View, s: Client, x: ItemId)
    requires c.Valid()
    ensures c.Add(v).Final(s, x) == if x == v.id then Some(v.fields) else c.Final(s, x)
  {
  }

  lemma AddStep(c: Core, v: View, s: Client, after: Client)
    requires c.Valid() && c.Means(s, after)
    ensures c.Add(v).Valid() && c.Add(v).Means(s, after[v.id := v.fields])
  {
    forall id ensures Lookup(after[v.id := v.fields], id) == c.Add(v).Final(s, id) {
      assert Lookup(after, id) == c.Final(s, id);
      AddFinal(c, v, s, id);
    }
  }

  lemma CompleteFinal(c: Core, v: View, s: Client, x: ItemId)
    requires c.Valid()
    ensures c.Complete(v).Final(s, x) == if x == v.id then Some(v.fields) else c.Final(s, x)
  {
  }

  lemma CompleteStep(c: Core, v: View, s: Client, after: Client)
    requires c.Valid() && c.Means(s, after)
    ensures c.Complete(v).Valid() && c.Complete(v).Means(s, after[v.id := v.fields])
  {
    forall id ensures Lookup(after[v.id := v.fields], id) == c.Complete(v).Final(s, id) {
      assert Lookup(after, id) == c.Final(s, id);
      CompleteFinal(c, v, s, id);
    }
  }

  lemma RemoveStep(c: Core, id: ItemId, s: Client, after: Client)
    requires c.Valid() && c.Means(s, after)
    ensures c.Remove(id).Valid() && c.Remove(id).Means(s, after - {id})
  {
    forall x ensures Lookup(after - {id}, x) == c.Remove(id).Final(s, x) {
      assert Lookup(after, x) == c.Final(s, x);
    }
  }

  function Patched(r: Option<Record>, fields: Record): Option<Record> {
    if r.Some? then Some(Merge(r.value, fields)) else None
  }

  lemma PatchesOther(c: Core, p: Patch, s: Client, x: ItemId)
    requires x != p.id
    ensures c.PatchBy(p).Final(s, x) == c.Final(s, x)
  {
  }

  lemma PatchesGone(c: Core, p: Patch, s: Client)
    requires c.Valid() && p.id in c.gone
    ensures c.PatchBy(p).Final(s, p.id) == None == c.Final(s, p.id)
  {
  }

  lemma PatchesHeld(c: Core, p: Patch, s: Client)
    requires p.id !in c.gone
    ensures c.PatchBy(p).Final(s, p.id) == Patched(c.Final(s, p.id), p.fields)
  {
    var base := c.(delta := map[]).Final(s, p.id);
    assert map[] + p.fields == p.fields;
    if base.Some? && p.id in c.delta {
      MergeTwice(base.value, c.delta[p.id], p.fields);
    }
  }

  lemma PatchFinal(c: Core, p: Patch, s: Client, x: ItemId)
    requires c.Valid()
    ensures c.PatchBy(p).Final(s, x) == if x == p.id then Patched(c.Final(s, x), p.fields) else c.Final(s, x)
  {
    if x != p.id {
      PatchesOther(c, p, s, x);
    } else if x in c.gone {
      PatchesGone(c, p, s);
    } else {
      PatchesHeld(c, p, s);
    }
  }

  lemma PatchStep(c: Core, p: Patch, s: Client, after: Client)
    requires c.Valid() && c.Means(s, after)
    ensures c.PatchBy(p).Valid() && c.PatchBy(p).Means(s, PatchOne(after, p))
  {
    forall x ensures Lookup(PatchOne(after, p), x) == c.PatchBy(p).Final(s, x) {
      assert Lookup(after, x) == c.Final(s, x);
      PatchFinal(c, p, s, x);
    }
  }

  lemma MergeTwice(q: Record, a: Record, b: Record)
    ensures Merge(Merge(q, a), b) == Merge(q, a + b)
  {
    assert (a + b) - {"id"} == (a - {"id"}) + (b - {"id"});
  }

  // -- the accumulator refines the core -----------------------------------------

  function CoreOf(acc: Acc): Core {
    Core(acc.added.entries, acc.completed.entries, RemovedIds(acc.removed), acc.delta.entries)
  }

  ghost predicate Inv(acc: Acc) {
    && acc.added.Valid() && acc.completed.Valid() && acc.delta.Valid()
    && CoreOf(acc).Valid()
    && ValidBuckets(acc.removed)
    && (acc.added.order != [] ==> acc.addReason.Some?)
  }

  /** No bucket repeats an id and no id is in two buckets. */
  ghost predicate ValidBuckets(removed: map<RemoveReason, seq<ItemId>>) {
    && (forall r :: r in removed ==> Distinct(removed[r]))
    && (forall r, q :: r in removed && q in removed && r != q ==> Apart(removed[r], removed[q]))
  }

  ghost predicate Apart(a: seq<ItemId>, b: seq<ItemId>) {
    forall id :: id in a ==> id !in b
  }

  lemma ForgetRemovalStep(removed: map<RemoveReason, seq<ItemId>>, id: ItemId)
    requires ValidBuckets(removed)
    ensures ValidBuckets(ForgetRemoval(removed, id))
    ensures RemovedIds(ForgetRemoval(removed, id)) == RemovedIds(removed) - {id}
  {
    var cleared := ForgetRemoval(removed, id);
    forall r, q | r in cleared && q in cleared && r != q ensures Apart(cleared[r], cleared[q]) {
      assert Apart(removed[r], removed[q]);
    }
    forall x | x in RemovedIds(removed) - {id} ensures x in RemovedIds(cleared) {
      var r :| r in removed && x in removed[r];
      assert x in cleared[r];
    }
  }

  lemma InBucket(removed: map<RemoveReason, seq<ItemId>>, r: RemoveReason, x: ItemId)
    requires r in removed && x in removed[r]
    ensures x in RemovedIds(removed)
  {}

  lemma BucketKeepsIds(cleared: map<RemoveReason, seq<ItemId>>, reason: RemoveReason, bucket: seq<ItemId>)
    requires reason in cleared ==> forall x :: x in cleared[reason] ==> x in bucket
    ensures RemovedIds(cleared) <= RemovedIds(cleared[reason := bucket])
  {
    forall x | x in RemovedIds(cleared) ensures x in RemovedIds(cleared[reason := bucket]) {
      var r :| r in cleared && x in cleared[r];
      InBucket(cleared[reason := bucket], r, x);
    }
  }

  lemma BucketAddsOnly(cleared: map<RemoveReason, seq<ItemId>>, reason: RemoveReason, bucket: seq<ItemId>)
    ensures forall x :: x in RemovedIds(cleared[reason := bucket]) ==> x in RemovedIds(cleared) || x in bucket
  {
    forall x | x in RemovedIds(cleared[reason := bucket]) ensures x in RemovedIds(cleared) || x in bucket {
      var r :| r in cleared[reason := bucket] && x in cleared[reason := bucket][r];
      if r != reason { InBucket(cleared, r, x); }
    }
  }

  lemma BucketedIds(removed: map<RemoveReason, seq<ItemId>>, reason: RemoveReason, id: ItemId)
    requires ValidBuckets(removed)
    ensures RemovedIds(Bucketed(removed, reason, id)) == RemovedIds(removed) + {id}
  {
    ForgetRemovalStep(removed, id);
    var cleared := ForgetRemoval(removed, id);
    var bucket := (if reason in cleared then cleared[reason] else []) + [id];
    BucketKeepsIds(cleared, reason, bucket);
    BucketAddsOnly(cleared, reason, bucket);
    InBucket(cleared[reason := bucket], reason, id);
    forall x | x in bucket && x != id ensures x in RemovedIds(cleared) {
      InBucket(cleared, reason, x);
    }
  }

  lemma BucketedStep(removed: map<RemoveReason, seq<ItemId>>, reason: RemoveReason, id: ItemId)
    requires ValidBuckets(removed)
    ensures ValidBuckets(Bucketed(removed, reason, id))
    ensures RemovedIds(Bucketed(removed, reason, id)) == RemovedIds(removed) + {id}
  {
    BucketedIds(removed, reason, id);
    ForgetRemovalStep(removed, id);
    var cleared, next := ForgetRemoval(removed, id), Bucketed(removed, reason, id);
    forall r | r in next ensures Distinct(next[r]) {
      if r == reason && r in cleared { assert id !in cleared[r]; }
    }
    forall r, q | r in next && q in next && r != q ensures Apart(next[r], next[q]) {
      if r in cleared && q in cleared { assert Apart(cleared[r], cleared[q]); }
    }
  }

  lemma {:induction false} AddViewsMeans(acc: Acc, items: seq<View>, s: Client, after: Client)
    requires Inv(acc) && acc.addReason.Some? && CoreOf(acc).Means(s, after)
    ensures Inv(AddViews(acc, items)) && AddViews(acc, items).addReason == acc.addReason
    ensures CoreOf(AddViews(acc, items)).Means(s, Upsert(after, items))
  {
    if items != [] {
      var init, v := items[..|items| - 1], items[|items| - 1];
      AddViewsMeans(acc, init, s, after);
      var mid := AddViews(acc, init);
      ForgetRemovalStep(mid.removed, v.id);
      AddStep(CoreOf(mid), v, s, Upsert(after, init));
      assert CoreOf(AddView(mid, v)) == CoreOf(mid).Add(v);
    }
  }

  lemma {:induction false} CompleteViewsMeans(acc: Acc, items: seq<View>, s: Client, after: Client)
    requires Inv(acc) && CoreOf(acc).Means(s, after)
    ensures Inv(CompleteViews(acc, items))
    ensures CoreOf(CompleteViews(acc, items)).Means(s, Upsert(after, items))
  {
    if items != [] {
      var init, v := items[..|items| - 1], items[|items| - 1];
      CompleteViewsMeans(acc, init, s, after);
      var mid := CompleteViews(acc, init);
      ForgetRemovalStep(mid.removed, v.id);
      CompleteStep(CoreOf(mid), v, s, Upsert(after, init));
      assert CoreOf(CompleteView(mid, v)) == CoreOf(mid).Complete(v);
      assert CompleteView(mid, v).added.order == Without(mid.added.order, v.id);
    }
  }

  lemma {:induction false} RemoveIdsMeans(acc: Acc, reason: RemoveReason, ids: seq<ItemId>, s: Client, after: Client)
    requires Inv(acc) && CoreOf(acc).Means(s, after)
    ensures Inv(RemoveIds(acc, reason, ids))
    ensures CoreOf(RemoveIds(acc, reason, ids)).Means(s, Erase(after, ids))
  {
    if ids != [] {
      var init, id := ids[..|ids| - 1], ids[|ids| - 1];
      RemoveIdsMeans(acc, reason, init, s, after);
      var mid := RemoveIds(acc, reason, init);
      BucketedStep(mid.removed, reason, id);
      RemoveStep(CoreOf(mid), id, s, Erase(after, init));
      assert CoreOf(RemoveId(mid, reason, id)) == CoreOf(mid).Remove(id);
      assert RemoveId(mid, reason, id).added.order == Without(mid.added.order, id);
    }
  }

  lemma {:induction false} PatchItemsMeans(acc: Acc, patches: seq<Patch>, s: Client, after: Client)
    requires Inv(acc) && CoreOf(acc).Means(s, after)
    ensures Inv(PatchItems(acc, patches))
    ensures CoreOf(PatchItems(acc, patches)).Means(s, PatchAll(after, patches))
  {
    if patches != [] {
      var init, p := patches[..|patches| - 1], patches[|patches| - 1];
      PatchItemsMeans(acc, init, s, after);
      var mid := PatchItems(acc, init);
      PatchStep(CoreOf(mid), p, s, PatchAll(after, init));
      assert CoreOf(PatchItem(mid, p)) == CoreOf(mid).PatchBy(p);
    }
  }

  /** Whatever the window, the accumulator means what replaying the window does. */
  lemma {:induction false} AbsorbAllMeans(bodies: seq<FrameBody>, s: Client)
    ensures Inv(AbsorbAll(bodies))
    ensures CoreOf(AbsorbAll(bodies)).Means(s, Replay(s, bodies))
  {
    if bodies != [] {
      var init, body := bodies[..|bodies| - 1], bodies[|bodies| - 1];
      AbsorbAllMeans(init, s);
      var acc, after := AbsorbAll(init), Replay(s, init);
      match body
      case Added(reason, items) =>
        var acc' := acc.(addReason := Some(MergeAddReason(acc.addReason, reason)));
        assert CoreOf(acc') == CoreOf(acc);
        AddViewsMeans(acc', items, s, after);
      case Completed(items) => CompleteViewsMeans(acc, items, s, after);
      case Removed(reason, ids) => RemoveIdsMeans(acc, reason, ids, s, after);
      case Delta(patches) => PatchItemsMeans(acc, patches, s, after);
      case Other(kind, value) => assert CoreOf(Absorb(acc, body)) == CoreOf(acc);
    }
  }

  // -- the fold and the frames it is sent as --------------------------------------

  datatype MergeCounts = MergeCounts(added: nat, completed: nat, removed: nat, deltaItems: nat)

  datatype Fold = Fold(
    from: nat,
    to: nat,
    added: Option<(AddReason, seq<View>)>,
    completed: seq<View>,
    removed: seq<(RemoveReason, seq<ItemId>)>,
    delta: seq<Patch>,
    others: seq<(OtherKind, Json)>,
    counts: MergeCounts)

  const REASON_ORDER: seq<RemoveReason> := [Deleted, Cleared, Expired, Replaced]

  function Buckets(removed: map<RemoveReason, seq<ItemId>>, order: seq<RemoveReason>)
    : seq<(RemoveReason, seq<ItemId>)>
  {
    if order == [] then []
    else
      var r := order[|order| - 1];
      Buckets(removed, order[..|order| - 1]) + (if r in removed && removed[r] != [] then [(r, removed[r])] else [])
  }

  function Patches(delta: map<ItemId, Record>, order: seq<ItemId>): seq<Patch>
    requires forall id :: id in order ==> id in delta
  {
    if order == [] then []
    else
      var id := order[|order| - 1];
      Patches(delta, order[..|order| - 1]) + (if delta[id] != map[] then [Patch(id, delta[id])] else [])
  }

  function IdCount(buckets: seq<(RemoveReason, seq<ItemId>)>): nat {
    if buckets == [] then 0 else IdCount(buckets[..|buckets| - 1]) + |buckets[|buckets| - 1].1|
  }

  function Finish(acc: Acc, from: nat, to: nat): Fold
    requires acc.added.Valid() && acc.completed.Valid() && acc.delta.Valid()
  {
    var removed := Buckets(acc.removed, REASON_ORDER);
    var delta := Patches(acc.delta.entries, acc.delta.order);
    Fold(
      from, to,
      if acc.addReason.Some? && acc.added.order != [] then Some((acc.addReason.value, acc.added.Values())) else None,
      acc.completed.Values(),
      removed, delta, acc.others,
      MergeCounts(|acc.added.order|, |acc.completed.order|, IdCount(removed), |delta|))
  }

  /** What a window folds down to. */
  function FoldOf(bodies: seq<FrameBody>, from: nat, to: nat): Fold {
    AbsorbAllMeans(bodies, map[]);
    Finish(AbsorbAll(bodies), from, to)
  }

  function RemovedFrames(buckets: seq<(RemoveReason, seq<ItemId>)>): seq<FrameBody> {
    seq(|buckets|, i requires 0 <= i < |buckets| => Removed(buckets[i].0, buckets[i].1))
  }

  function OtherFrames(others: seq<(OtherKind, Json)>): seq<FrameBody> {
    seq(|others|, i requires 0 <= i < |others| => Other(others[i].0, others[i].1))
  }

  /** The frames in their fixed order: upserts, then removals, then patches, then the rest. */
  function Emit(f: Fold): seq<FrameBody> {
    (if f.added.Some? then [Added(f.added.value.0, f.added.value.1)] else [])
    + (if f.completed != [] then [Completed(f.completed)] else [])
    + RemovedFrames(f.removed)
    + (if f.delta != [] then [Delta(f.delta)] else [])
    + OtherFrames(f.others)
  }

  lemma {:induction false} UpsertValues(m: IndexMap<ItemId, View>, s: Client, k: nat)
    requires m.Valid() && k <= |m.order|
    requires forall id :: id in m.entries ==> m.entries[id].id == id
    ensures forall id :: Lookup(Upsert(s, m.Values()[..k]), id) ==
                         if id in m.order[..k] then Some(m.entries[id].fields) else Lookup(s, id)
  {
    if k > 0 {
      UpsertValues(m, s, k - 1);
      assert m.Values()[..k][..k - 1] == m.Values()[..k - 1];
      assert m.order[..k] == m.order[..k - 1] + [m.order[k - 1]];
    }
  }

  lemma {:induction false} EraseLookup(s: Client, ids: seq<ItemId>)
    ensures forall id :: Lookup(Erase(s, ids), id) == if id in ids then None else Lookup(s, id)
  {
    if ids != [] {
      EraseLookup(s, ids[..|ids| - 1]);
      assert ids == ids[..|ids| - 1] + [ids[|ids| - 1]];
    }
  }

  function GoneIn(removed: map<RemoveReason, seq<ItemId>>, order: seq<RemoveReason>): set<ItemId> {
    if order == [] then {}
    else
      var r := order[|order| - 1];
      GoneIn(removed, order[..|order| - 1]) + (if r in removed then set id | id in removed[r] else {})
  }

  lemma {:induction false} RemovedFramesLookup(
    s: Client, removed: map<RemoveReason, seq<ItemId>>, order: seq<RemoveReason>)
    ensures forall id :: Lookup(Replay(s, RemovedFrames(Buckets(removed, order))), id) ==
                         if id in GoneIn(removed, order) then None else Lookup(s, id)
  {
    if order != [] {
      var init, r := order[..|order| - 1], order[|order| - 1];
      RemovedFramesLookup(s, removed, init);
      var before, now := Buckets(removed, init), Buckets(removed, order);
      if r in removed && removed[r] != [] {
        assert RemovedFrames(now)[..|now| - 1] == RemovedFrames(before);
        EraseLookup(Replay(s, RemovedFrames(before)), removed[r]);
      } else {
        assert now == before;
      }
    }
  }

  lemma {:induction false} GoneInMember(removed: map<RemoveReason, seq<ItemId>>, order: seq<RemoveReason>, id: ItemId)
    ensures id in GoneIn(removed, order) <==> exists r :: r in order && r in removed && id in removed[r]
  {
    if order != [] {
      var init, last := order[..|order| - 1], order[|order| - 1];
      GoneInMember(removed, init, id);
      assert order == init + [last];
    }
  }

  lemma EveryReasonIsOrdered(removed: map<RemoveReason, seq<ItemId>>)
    ensures GoneIn(removed, REASON_ORDER) == RemovedIds(removed)
  {
    assert REASON_ORDER[0].Deleted? && REASON_ORDER[1].Cleared?;
    assert REASON_ORDER[2].Expired? && REASON_ORDER[3].Replaced?;
    forall id ensures id in GoneIn(removed, REASON_ORDER) <==> id in RemovedIds(removed) {
      GoneInMember(removed, REASON_ORDER, id);
      if id in RemovedIds(removed) {
        var r :| r in removed && id in removed[r];
        assert r == Deleted || r == Cleared || r == Expired || r == Replaced;
      }
    }
  }

  lemma PatchAllGrows(s: Client, patches: seq<Patch>, p: Patch)
    ensures PatchAll(s, patches + [p]) == PatchOne(PatchAll(s, patches), p)
  {
    assert (patches + [p])[..|patches|] == patches;
  }

  lemma PatchOneLookup(s: Client, p: Patch, id: ItemId)
    ensures Lookup(PatchOne(s, p), id) == if id == p.id && id in s then Some(Merge(s[id], p.fields)) else Lookup(s, id)
  {
  }

  lemma MergeNothing(r: Record)
    ensures Merge(r, map[]) == r
  {
  }

  lemma {:induction false} PatchesLookup(s: Client, delta: map<ItemId, Record>, order: seq<ItemId>, id: ItemId)
    requires Distinct(order) && forall x :: x in order ==> x in delta
    ensures Lookup(PatchAll(s, Patches(delta, order)), id) ==
            if id in order && id in s then Some(Merge(s[id], delta[id])) else Lookup(s, id)
  {
    if order != [] {
      var init, last := order[..|order| - 1], order[|order| - 1];
      assert order == init + [last] && last !in init;
      PatchesLookup(s, delta, init, id);
      PatchAllGrows(s, Patches(delta, init), Patch(last, delta[last]));
      PatchOneLookup(PatchAll(s, Patches(delta, init)), Patch(last, delta[last]), id);
      assert Patches(delta, init) + [] == Patches(delta, init);
      if id == last && id in s { MergeNothing(s[id]); }
    }
  }

  lemma {:induction false} OthersAreInert(s: Client, others: seq<(OtherKind, Json)>)
    ensures Replay(s, OtherFrames(others)) == s
  {
    if others != [] {
      OthersAreInert(s, others[..|others| - 1]);
      assert OtherFrames(others)[..|others| - 1] == OtherFrames(others[..|others| - 1]);
    }
  }

  lemma ReplayOne(s: Client, body: FrameBody)
    ensures Replay(s, [body]) == Apply(s, body)
  {
    assert [body][..0] == [];
  }

  function Upserts(f: Fold): seq<FrameBody> {
    (if f.added.Some? then [Added(f.added.value.0, f.added.value.1)] else [])
    + (if f.completed != [] then [Completed(f.completed)] else [])
  }

  lemma ReplayUpserts(acc: Acc, from: nat, to: nat, s: Client)
    requires Inv(acc)
    ensures Replay(s, Upserts(Finish(acc, from, to))) == Upsert(Upsert(s, acc.added.Values()), acc.completed.Values())
  {
    var f := Finish(acc, from, to);
    var a := if f.added.Some? then [Added(f.added.value.0, f.added.value.1)] else [];
    var c := if f.completed != [] then [Completed(f.completed)] else [];
    ReplayConcat(s, a, c);
    var s1 := Upsert(s, acc.added.Values());
    assert Replay(s, a) == s1 by {
      if f.added.Some? { ReplayOne(s, a[0]); }
    }
    if f.completed != [] { ReplayOne(s1, c[0]); }
  }

  lemma ReplayPatches(s: Client, patches: seq<Patch>)
    ensures Replay(s, if patches != [] then [Delta(patches)] else []) == PatchAll(s, patches)
  {
    if patches != [] { ReplayOne(s, Delta(patches)); }
  }

  /** Sending the fold leaves a client exactly where its core says. */
  lemma EmitMeans(acc: Acc, from: nat, to: nat, s: Client)
    requires Inv(acc)
    ensures CoreOf(acc).Means(s, Replay(s, Emit(Finish(acc, from, to))))
  {
    var f := Finish(acc, from, to);
    var u, r, o := Upserts(f), RemovedFrames(f.removed), OtherFrames(f.others);
    var d := if f.delta != [] then [Delta(f.delta)] else [];
    var s2 := Replay(s, u);
    var s3 := Replay(s2, r);
    var s4 := PatchAll(s3, f.delta);
    ReplayConcat(s, u, r);
    ReplayConcat(s, u + r, d);
    ReplayConcat(s, u + r + d, o);
    ReplayPatches(s3, f.delta);
    OthersAreInert(s4, f.others);
    assert Emit(f) == u + r + d + o;
    ReplayUpserts(acc, from, to, s);
    RemovedFramesLookup(s2, acc.removed, REASON_ORDER);
    EveryReasonIsOrdered(acc.removed);
    forall id ensures Lookup(s4, id) == CoreOf(acc).Final(s, id) {
      UpsertsLookup(acc, s, s2, id);
      PatchesLookup(s3, acc.delta.entries, acc.delta.order, id);
      EmitLookup(CoreOf(acc), s, s2, s3, s4, id);
    }
  }

  lemma UpsertLookup(m: IndexMap<ItemId, View>, s: Client, id: ItemId)
    requires m.Valid() && forall x :: x in m.entries ==> m.entries[x].id == x
    ensures Lookup(Upsert(s, m.Values()), id) == if id in m.entries then Some(m.entries[id].fields) else Lookup(s, id)
  {
    UpsertValues(m, s, |m.order|);
    assert m.Values()[..|m.order|] == m.Values() && m.order[..|m.order|] == m.order;
  }

  lemma UpsertsLookup(acc: Acc, s: Client, s2: Client, id: ItemId)
    requires Inv(acc) && s2 == Upsert(Upsert(s, acc.added.Values()), acc.completed.Values())
    ensures Lookup(s2, id) ==
            if id in acc.completed.entries then Some(acc.completed.entries[id].fields)
            else if id in acc.added.entries then Some(acc.added.entries[id].fields)
            else Lookup(s, id)
  {
    UpsertLookup(acc.added, s, id);
    UpsertLookup(acc.completed, Upsert(s, acc.added.Values()), id);
  }

  lemma EmitLookup(core: Core, s: Client, s2: Client, s3: Client, s4: Client, id: ItemId)
    requires Lookup(s2, id) ==
             if id in core.completed then Some(core.completed[id].fields)
             else if id in core.added then Some(core.added[id].fields)
             else Lookup(s, id)
    requires Lookup(s3, id) == if id in core.gone then None else Lookup(s2, id)
    requires Lookup(s4, id) ==
             if id in core.delta && id in s3 then Some(Merge(s3[id], core.delta[id])) else Lookup(s3, id)
    ensures Lookup(s4, id) == core.Final(s, id)
  {
  }

  /** Applying the fold equals replaying the window, for every client and every window. */
  lemma FoldIsReplay(bodies: seq<FrameBody>, from: nat, to: nat, s: Client)
    ensures Inv(AbsorbAll(bodies))
    ensures Replay(s, Emit(Finish(AbsorbAll(bodies), from, to))) == Replay(s, bodies)
  {
    AbsorbAllMeans(bodies, s);
    EmitMeans(AbsorbAll(bodies), from, to, s);
    var folded := Replay(s, Emit(Finish(AbsorbAll(bodies), from, to)));
    MeaningIsUnique(CoreOf(AbsorbAll(bodies)), s, folded, Replay(s, bodies));
  }

  lemma FoldServesAll(bodies: seq<FrameBody>, from: nat, to: nat)
    ensures Inv(AbsorbAll(bodies))
    ensures forall s :: Replay(s, Emit(Finish(AbsorbAll(bodies), from, to))) == Replay(s, bodies)
  {
    AbsorbAllMeans(bodies, map[]);
    forall s ensures Replay(s, Emit(Finish(AbsorbAll(bodies), from, to))) == Replay(s, bodies) {
      FoldIsReplay(bodies, from, to, s);
    }
  }

  lemma MergeAgain(r: Record, d: Record)
    ensures Merge(Merge(r, d), d) == Merge(r, d)
  {
  }

  lemma FinalTwice(core: Core, s: Client, once: Client, id: ItemId)
    requires Lookup(once, id) == core.Final(s, id)
    ensures core.Final(once, id) == core.Final(s, id)
  {
    if id in s && id in core.delta { MergeAgain(s[id], core.delta[id]); }
  }

  /** A window applied twice is a window applied once, so answering a late cursor is harmless. */
  lemma ReplayIsIdempotent(bodies: seq<FrameBody>, s: Client)
    ensures Replay(Replay(s, bodies), bodies) == Replay(s, bodies)
  {
    var once := Replay(s, bodies);
    var core := CoreOf(AbsorbAll(bodies));
    AbsorbAllMeans(bodies, s);
    AbsorbAllMeans(bodies, once);
    forall id ensures core.Final(once, id) == core.Final(s, id) {
      FinalTwice(core, s, once, id);
    }
    forall id ensures Lookup(once, id) == core.Final(once, id) {
      assert Lookup(once, id) == core.Final(s, id);
    }
    MeaningIsUnique(core, once, once, Replay(once, bodies));
  }

  // -- the shape of a fold --------------------------------------------------------------

  function Rank(r: RemoveReason): nat {
    match r
    case Deleted => 0
    case Cleared => 1
    case Expired => 2
    case Replaced => 3
  }

  /** The ids a fold gives a full object for, or removes. */
  function Spoken(f: Fold): seq<ItemId> {
    (if f.added.Some? then Ids(f.added.value.1) else []) + Ids(f.completed) + RemovedList(f.removed)
  }

  function Ids(items: seq<View>): (r: seq<ItemId>)
    ensures |r| == |items|
  {
    seq(|items|, i requires 0 <= i < |items| => items[i].id)
  }

  function RemovedList(buckets: seq<(RemoveReason, seq<ItemId>)>): (r: seq<ItemId>)
    ensures |r| == IdCount(buckets)
  {
    if buckets == [] then [] else RemovedList(buckets[..|buckets| - 1]) + buckets[|buckets| - 1].1
  }

  /** The reasons appear at most once, in the fixed order, and none ranks `n` or later. */
  ghost predicate Ranked(bs: seq<(RemoveReason, seq<ItemId>)>, n: nat) {
    && (forall i :: 0 <= i < |bs| ==> Rank(bs[i].0) < n)
    && (forall i, j :: 0 <= i < j < |bs| ==> Rank(bs[i].0) < Rank(bs[j].0))
  }

  lemma {:induction false} BucketsRanks(removed: map<RemoveReason, seq<ItemId>>, n: nat)
    requires n <= 4
    ensures Ranked(Buckets(removed, REASON_ORDER[..n]), n)
  {
    if n > 0 {
      BucketsRanks(removed, n - 1);
      var order, r := REASON_ORDER[..n], REASON_ORDER[n - 1];
      assert order[..n - 1] == REASON_ORDER[..n - 1] && order[n - 1] == r;
      assert Rank(r) == n - 1;
      var before, now := Buckets(removed, REASON_ORDER[..n - 1]), Buckets(removed, order);
      assert now == before + if r in removed && removed[r] != [] then [(r, removed[r])] else [];
      assert forall i :: 0 <= i < |before| ==> now[i] == before[i];
      assert Ranked(now, n);
    }
  }

  lemma {:induction false} BucketsMembers(removed: map<RemoveReason, seq<ItemId>>, order: seq<RemoveReason>)
    requires ValidBuckets(removed) && Distinct(order)
    ensures forall id :: id in RemovedList(Buckets(removed, order)) <==> id in GoneIn(removed, order)
    ensures Distinct(RemovedList(Buckets(removed, order)))
  {
    if order != [] {
      var init, r := order[..|order| - 1], order[|order| - 1];
      BucketsMembers(removed, init);
      var before, now := Buckets(removed, init), Buckets(removed, order);
      if r in removed && removed[r] != [] {
        assert now[..|now| - 1] == before;
        forall id | id in RemovedList(before) ensures id !in removed[r] {
          GoneInMember(removed, init, id);
          var q :| q in init && q in removed && id in removed[q];
          assert Apart(removed[q], removed[r]);
        }
        DistinctConcat(RemovedList(before), removed[r]);
      } else {
        assert now == before;
      }
    }
  }

  lemma ThreeApart(a: seq<ItemId>, b: seq<ItemId>, c: seq<ItemId>)
    requires Distinct(a) && Distinct(b) && Distinct(c) && Apart(a, b) && Apart(a, c) && Apart(b, c)
    ensures Distinct(a + b + c)
  {
    DistinctConcat(a, b);
    DistinctConcat(a + b, c);
  }

  lemma SpokenOf(acc: Acc, from: nat, to: nat)
    requires Inv(acc)
    ensures Spoken(Finish(acc, from, to)) ==
            acc.added.order + acc.completed.order + RemovedList(Buckets(acc.removed, REASON_ORDER))
  {
    var f := Finish(acc, from, to);
    assert (if f.added.Some? then Ids(f.added.value.1) else []) == acc.added.order;
    assert Ids(f.completed) == acc.completed.order;
  }

  /**
   A fold is small: no id is spoken of twice by an object or a removal, each removal reason appears
   at most once and in the fixed order, and the counts are exact.
   */
  lemma FoldNamesEachIdOnce(bodies: seq<FrameBody>, from: nat, to: nat)
    ensures Inv(AbsorbAll(bodies))
    ensures var f := Finish(AbsorbAll(bodies), from, to);
            && Distinct(Spoken(f))
            && Ranked(f.removed, 4)
            && f.counts.added == (if f.added.Some? then |f.added.value.1| else 0)
            && f.counts.completed == |f.completed|
            && f.counts.added + f.counts.completed + f.counts.removed == |Spoken(f)|
            && f.counts.deltaItems == |f.delta|
  {
    AbsorbAllMeans(bodies, map[]);
    var acc := AbsorbAll(bodies);
    SpokenOf(acc, from, to);
    BucketsRanks(acc.removed, 4);
    assert REASON_ORDER[..4] == REASON_ORDER;
    SpokenApart(acc);
  }

  lemma SpokenApart(acc: Acc)
    requires Inv(acc)
    ensures Distinct(acc.added.order + acc.completed.order + RemovedList(Buckets(acc.removed, REASON_ORDER)))
  {
    BucketsMembers(acc.removed, REASON_ORDER);
    EveryReasonIsOrdered(acc.removed);
    var gone := RemovedList(Buckets(acc.removed, REASON_ORDER));
    assert forall id :: id in gone ==> id in CoreOf(acc).gone;
    ThreeApart(acc.added.order, acc.completed.order, gone);
  }

  lemma DistinctConcat<T(!new)>(a: seq<T>, b: seq<T>)
    requires Distinct(a) && Distinct(b) && forall x :: x in a ==> x !in b
    ensures Distinct(a + b)
  {
    var c := a + b;
    forall i, j | 0 <= i < j < |c| ensures c[i] != c[j] {
      if j < |a| {
        assert c[i] == a[i] && c[j] == a[j];
      } else if i < |a| {
        assert a[i] in a && b[j - |a|] in b;
      } else {
        assert c[i] == b[i - |a|] && c[j] == b[j - |a|];
      }
    }
  }
}

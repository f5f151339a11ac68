/**
 The frames the hub broadcasts and the client's apply algorithm: an upsert replaces the whole
 record, a removal forgets it, and a patch changes only what it mentions and never creates.
 */
module Frames {
  import opened Prelude

  type ItemId = string

  /** A JSON value, as its text: nothing here looks into one. */
  datatype Json = Json(text: string)

  type Record = map<string, Json>
  type Client = map<ItemId, Record>

  datatype View = View(id: ItemId, fields: Record)
  datatype Patch = Patch(id: ItemId, fields: Record)

  datatype AddReason = Created | Expanded | Retried | Recovered
  datatype RemoveReason = Deleted | Cleared | Expired | Replaced
  datatype OtherKind = Subscription | SubscriptionRemoved | YtdlOptions | Providers | Notice | Health

  datatype FrameBody =
    | Added(addReason: AddReason, addedItems: seq<View>)
    | Completed(completedItems: seq<View>)
    | Removed(removeReason: RemoveReason, ids: seq<ItemId>)
    | Delta(patches: seq<Patch>)
    | Other(kind: OtherKind, value: Json)

  // -- the client ------------------------------------------------------------

  function Upsert(s: Client, items: seq<View>): Client {
    if items == [] then s
    else
      var v := items[|items| - 1];
      Upsert(s, items[..|items| - 1])[v.id := v.fields]
  }

  function Erase(s: Client, ids: seq<ItemId>): Client {
    if ids == [] then s else Erase(s, ids[..|ids| - 1]) - {ids[|ids| - 1]}
  }

  /** A patch's own keys win; its `id` key is not a field. */
  function Merge(r: Record, fields: Record): Record { r + (fields - {"id"}) }

  function PatchOne(s: Client, p: Patch): Client {
    if p.id in s then s[p.id := Merge(s[p.id], p.fields)] else s
  }

  /** A patch gives an item it names the values it carries, and touches no other key, no other item and no `id`. */
  lemma PatchTouchesOnly(s: Client, p: Patch, id: ItemId)
    ensures id in PatchOne(s, p) <==> id in s
    ensures id in s ==> forall key ::
              var said := id == p.id && key in p.fields && key != "id";
              && (key in PatchOne(s, p)[id] <==> said || key in s[id])
              && (key in PatchOne(s, p)[id] ==> PatchOne(s, p)[id][key] == if said then p.fields[key] else s[id][key])
  {
  }

  function PatchAll(s: Client, patches: seq<Patch>): Client {
    if patches == [] then s
    else PatchOne(PatchAll(s, patches[..|patches| - 1]), patches[|patches| - 1])
  }

  function Apply(s: Client, body: FrameBody): Client {
    match body
    case Added(_, items) => Upsert(s, items)
    case Completed(items) => Upsert(s, items)
    case Removed(_, ids) => Erase(s, ids)
    case Delta(patches) => PatchAll(s, patches)
    case Other(_, _) => s
  }

  function Replay(s: Client, bodies: seq<FrameBody>): Client {
    if bodies == [] then s
    else Apply(Replay(s, bodies[..|bodies| - 1]), bodies[|bodies| - 1])
  }

  lemma {:induction false} ReplayConcat(s: Client, a: seq<FrameBody>, b: seq<FrameBody>)
    ensures Replay(s, a + b) == Replay(Replay(s, a), b)
    decreases |b|
  {
    if b == [] {
      assert a + b == a;
    } else {
      assert (a + b)[..|a + b| - 1] == a + b[..|b| - 1];
      ReplayConcat(s, a, b[..|b| - 1]);
    }
  }
}

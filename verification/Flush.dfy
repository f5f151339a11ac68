/** One repaint of the page: items into sections, sections into containers, stale rows away. */
module Flush {
  import opened Prelude
  import opened Reconcile

  // -- sections -----------------------------------------------------------------------------

  datatype Item = Item(id: Id, status: string, autoStart: bool, errorCode: Option<string>, groupId: Id) {
    predicate IsTop() { groupId == "" }

    predicate IsScheduled() { status == "queued" && autoStart && errorCode == Some("not_yet_live") }

    predicate IsActive() {
      || status in ACTIVE
      || (status == "queued" && autoStart && errorCode != Some("not_yet_live"))
      || status !in KNOWN
    }

    predicate IsWaiting() { status == "queued" && !autoStart }

    predicate IsDone() { status in TERMINAL }
  }

  const ACTIVE := {"resolving", "preparing", "downloading", "postprocessing"}
  const TERMINAL := {"finished", "error", "canceled"}
  const KNOWN := ACTIVE + {"queued"} + TERMINAL

  datatype Section = Active | Scheduled | Waiting | Done {
    predicate Has(i: Item) {
      match this
      case Active => i.IsActive()
      case Scheduled => i.IsScheduled()
      case Waiting => i.IsWaiting()
      case Done => i.IsDone()
    }
  }

  const SECTIONS := [Active, Scheduled, Waiting, Done]

  lemma StatusesAreApart(status: string)
    ensures !(status in ACTIVE && status in TERMINAL)
    ensures status == "queued" ==> status !in ACTIVE && status !in TERMINAL
  {
    assert |"queued"| == 6 && |"resolving"| == 9 && |"preparing"| == 9 && |"downloading"| == 11
        && |"postprocessing"| == 14 && |"finished"| == 8 && |"error"| == 5 && |"canceled"| == 8;
  }

  /** Every item, whatever its status says, belongs to one section and to no other. */
  lemma OneSection(i: Item, s: Section, t: Section)
    ensures i.IsActive() || i.IsScheduled() || i.IsWaiting() || i.IsDone()
    ensures s.Has(i) && t.Has(i) ==> s == t
  {
    StatusesAreApart(i.status);
  }

  /** The section an item belongs to, decided once; an unknown status counts as work in progress. */
  function SectionOf(i: Item): Section {
    if i.status in {"finished", "error", "canceled"} then Done
    else if i.status != "queued" then Active
    else if !i.autoStart then Waiting
    else if i.errorCode == Some("not_yet_live") then Scheduled
    else Active
  }

  /** The four filters agree with that decision. */
  lemma FiltersDecideOnce(i: Item, s: Section)
    ensures s.Has(i) <==> s == SectionOf(i)
  {
    StatusesAreApart(i.status);
  }

  function Members(all: seq<Item>, s: Section): seq<Id> {
    if all == [] then []
    else (if all[0].IsTop() && s.Has(all[0]) then [all[0].id] else []) + Members(all[1..], s)
  }

  ghost predicate DistinctIds(all: seq<Item>) {
    forall i, j :: 0 <= i < j < |all| ==> all[i].id != all[j].id
  }

  ghost predicate IsMember(all: seq<Item>, s: Section, i: nat, id: Id) {
    i < |all| && all[i].id == id && all[i].IsTop() && s.Has(all[i])
  }

  lemma {:induction false} MembersMean(all: seq<Item>, s: Section, id: Id)
    ensures id in Members(all, s) <==> exists i: nat :: IsMember(all, s, i, id)
  {
    if all != [] {
      MembersMean(all[1..], s, id);
      if i: nat :| IsMember(all, s, i, id) {
        if i > 0 { assert IsMember(all[1..], s, i - 1, id); }
      }
      if id in Members(all[1..], s) {
        var i: nat :| IsMember(all[1..], s, i, id);
        assert IsMember(all, s, i + 1, id);
      } else if id in Members(all, s) {
        assert IsMember(all, s, 0, id);
      }
    }
  }

  lemma {:induction false} MembersAreDistinct(all: seq<Item>, s: Section)
    requires DistinctIds(all)
    ensures Distinct(Members(all, s))
  {
    if all != [] {
      MembersAreDistinct(all[1..], s);
      MembersMean(all[1..], s, all[0].id);
      forall i: nat
        ensures !IsMember(all[1..], s, i, all[0].id)
      {
        assert i + 1 < |all| ==> all[1..][i] == all[i + 1];
      }
    }
  }

  lemma SectionsAreDisjoint(all: seq<Item>, s: Section, t: Section, id: Id)
    requires DistinctIds(all) && id in Members(all, s) && id in Members(all, t)
    ensures s == t
  {
    MembersMean(all, s, id);
    MembersMean(all, t, id);
    var i: nat :| IsMember(all, s, i, id);
    var j: nat :| IsMember(all, t, j, id);
    assert i == j;
    OneSection(all[i], s, t);
  }

  function IdsOf(all: seq<Item>): seq<Id> { seq(|all|, i requires 0 <= i < |all| => all[i].id) }

  /** A section keeps the order of the list. */
  lemma {:induction false} MembersInOrder(all: seq<Item>, s: Section)
    ensures IsSubsequence(Members(all, s), IdsOf(all))
  {
    if all != [] {
      MembersInOrder(all[1..], s);
      SubsequenceBehind(all[0].id, Members(all[1..], s), IdsOf(all[1..]));
      assert IdsOf(all) == [all[0].id] + IdsOf(all[1..]);
      assert [] + Members(all[1..], s) == Members(all[1..], s);
    }
  }

  /** Only the newest completed rows are kept. */
  function Shown(all: seq<Item>, s: Section, doneLimit: nat): seq<Id> {
    var members := Members(all, s);
    if s.Done? then members[Max(0, |members| - doneLimit)..] else members
  }

  function Evicted(all: seq<Item>, doneLimit: nat): seq<Id> {
    var members := Members(all, Done);
    members[..Max(0, |members| - doneLimit)]
  }

  lemma CutSplits(members: seq<Id>, cut: nat, id: Id)
    requires Distinct(members) && cut <= |members|
    ensures id in members[..cut] ==> id !in members[cut..]
    ensures id in members <==> id in members[..cut] || id in members[cut..]
  {
    assert members == members[..cut] + members[cut..];
  }

  /** Each top-level item is shown in its own section or evicted, never both, and nowhere else. */
  lemma ShownOnceOrEvicted(all: seq<Item>, doneLimit: nat, i: nat, s: Section, t: Section)
    requires DistinctIds(all) && i < |all| && all[i].groupId == "" && s == SectionOf(all[i])
    ensures all[i].id in Shown(all, s, doneLimit) <==> all[i].id !in Evicted(all, doneLimit)
    ensures t != s ==> all[i].id !in Shown(all, t, doneLimit)
  {
    var id := all[i].id;
    FiltersDecideOnce(all[i], s);
    assert IsMember(all, s, i, id);
    MembersMean(all, s, id);
    MembersAreDistinct(all, Done);
    var done := Members(all, Done);
    CutSplits(done, Max(0, |done| - doneLimit), id);
    if id in Members(all, t) { SectionsAreDisjoint(all, s, t, id); }
    if id in done { SectionsAreDisjoint(all, s, Done, id); }
  }

  /** The completed rows shown are the newest, at most `doneLimit` of them. */
  lemma NewestDoneAreShown(all: seq<Item>, doneLimit: nat)
    ensures Evicted(all, doneLimit) + Shown(all, Done, doneLimit) == Members(all, Done)
    ensures |Shown(all, Done, doneLimit)| == Min(doneLimit, |Members(all, Done)|)
  {}

  // -- containers ---------------------------------------------------------------------------------

  /** The rows of a list stay where they are while another list is placed elsewhere. */
  lemma StaysPut(rows: map<Id, Node>, here: seq<Id>, elsewhere: seq<Id>)
    requires Injective(rows)
    requires forall id :: id in here ==> id in rows && id !in elsewhere
    requires forall id :: id in elsewhere ==> id in rows
    ensures Without(Els(rows, here), NodesOf(Els(rows, elsewhere))) == Els(rows, here)
  {
    var s, t := Els(rows, here), Els(rows, elsewhere);
    forall x | x in s
      ensures x !in NodesOf(t)
    {
      var i :| 0 <= i < |s| && s[i] == x;
      assert here[i] in here;
      if x in t {
        var j :| 0 <= j < |t| && t[j] == x;
        assert elsewhere[j] in elsewhere;
        assert here[i] == elsewhere[j];
      }
    }
    WithoutStrangers(s, NodesOf(t));
  }

  ghost predicate Disjoint(lists: seq<seq<Id>>) {
    && (forall i :: 0 <= i < |lists| ==> Distinct(lists[i]))
    && forall i, j, id :: 0 <= i < j < |lists| && id in lists[i] ==> id !in lists[j]
  }

  /** What reconciling the containers in turn comes to, so far. */
  ghost predicate Holds(
    rows: map<Id, Node>, children: map<Container, seq<Node>>, cs: seq<Container>, lists: seq<seq<Id>>)
    requires |cs| == |lists|
  {
    forall k :: 0 <= k < |cs| ==>
      && cs[k] in children && (forall id :: id in lists[k] ==> id in rows)
      && children[cs[k]] == Els(rows, lists[k])
  }

  function Flat(lists: seq<seq<Id>>): seq<Id> {
    if lists == [] then [] else Flat(lists[..|lists| - 1]) + lists[|lists| - 1]
  }

  lemma OneMoreHolds(
    rows: map<Id, Node>, created: Node, children: map<Container, seq<Node>>,
    rows': map<Id, Node>, created': Node, children': map<Container, seq<Node>>,
    cs: seq<Container>, lists: seq<seq<Id>>, k: nat)
    requires |cs| == |lists| && k < |cs| && Distinct(cs) && Disjoint(lists)
    requires Holds(rows, children, cs[..k], lists[..k])
    requires RowsGrewBy(rows, created, rows', created', lists[k]) && cs[k] in children
    requires children' == Detached(children, NodesOf(Els(rows', lists[k])))[cs[k] := Els(rows', lists[k])]
    ensures Holds(rows', children', cs[..k + 1], lists[..k + 1])
  {
    forall j | 0 <= j < k
      ensures cs[j] in children' && (forall id :: id in lists[j] ==> id in rows')
      ensures children'[cs[j]] == Els(rows', lists[j])
    {
      assert cs[..k][j] == cs[j] && lists[..k][j] == lists[j];
      assert Els(rows', lists[j]) == Els(rows, lists[j]) by {
        forall i | 0 <= i < |lists[j]|
          ensures rows'[lists[j][i]] == rows[lists[j][i]]
        {
          assert lists[j][i] in lists[j];
        }
      }
      StaysPut(rows', lists[j], lists[k]);
    }
    forall j | 0 <= j < k + 1
      ensures cs[..k + 1][j] == cs[j] && lists[..k + 1][j] == lists[j]
    {}
  }

  /**
   Reconciling containers one after another leaves each with exactly its list's rows, in order, using
   the rows that were there, whatever the document held before.
   */
  method ReconcileAll(page: Page, cs: seq<Container>, lists: seq<seq<Id>>)
    requires page.Valid() && |cs| == |lists| && Distinct(cs) && Disjoint(lists)
    requires forall c :: c in cs ==> c in page.children
    modifies page
    ensures page.Valid() && page.children.Keys == old(page.children.Keys)
    ensures Holds(page.rows, page.children, cs, lists)
    ensures RowsGrewBy(old(page.rows), old(page.created), page.rows, page.created, Flat(lists))
  {
    for k := 0 to |cs|
      invariant page.Valid() && page.children.Keys == old(page.children.Keys)
      invariant Holds(page.rows, page.children, cs[..k], lists[..k])
      invariant RowsGrewBy(old(page.rows), old(page.created), page.rows, page.created, Flat(lists[..k]))
    {
      ghost var rows, created, children := page.rows, page.created, page.children;
      page.Reconcile(cs[k], lists[k]);
      OneMoreHolds(rows, created, children, page.rows, page.created, page.children, cs, lists, k);
      assert lists[..k + 1][..k] == lists[..k];
    }
    assert cs[..|cs|] == cs && lists[..|lists|] == lists;
  }

  // -- the repaint ----------------------------------------------------------------------------------

  const CONTAINERS := ["rows-active", "rows-scheduled", "rows-waiting", "rows-done"]

  function Lists(all: seq<Item>, doneLimit: nat): seq<seq<Id>> {
    seq(4, k requires 0 <= k < 4 => Shown(all, SECTIONS[k], doneLimit))
  }

  /** The items left after the oldest completed ones are evicted. */
  function Kept(all: seq<Item>, doneLimit: nat): set<Id> {
    (set i | i in all :: i.id) - (set id | id in Evicted(all, doneLimit))
  }

  lemma ShownIsKept(all: seq<Item>, doneLimit: nat, s: Section, id: Id)
    requires DistinctIds(all) && id in Shown(all, s, doneLimit)
    ensures id in Members(all, s) && id in Kept(all, doneLimit)
  {
    MembersMean(all, s, id);
    var i: nat :| IsMember(all, s, i, id);
    FiltersDecideOnce(all[i], s);
    ShownOnceOrEvicted(all, doneLimit, i, s, s);
    assert all[i] in all;
  }

  lemma ShownIsDistinct(all: seq<Item>, doneLimit: nat, s: Section)
    requires DistinctIds(all)
    ensures Distinct(Shown(all, s, doneLimit))
  {
    MembersAreDistinct(all, s);
  }

  lemma TwoListsAreDisjoint(all: seq<Item>, doneLimit: nat, s: Section, t: Section, id: Id)
    requires DistinctIds(all) && s != t && id in Shown(all, s, doneLimit)
    ensures id !in Shown(all, t, doneLimit)
  {
    ShownIsKept(all, doneLimit, s, id);
    if id in Shown(all, t, doneLimit) {
      ShownIsKept(all, doneLimit, t, id);
      SectionsAreDisjoint(all, s, t, id);
    }
  }

  lemma ListsAreDisjoint(all: seq<Item>, doneLimit: nat)
    requires DistinctIds(all)
    ensures Disjoint(Lists(all, doneLimit))
  {
    var lists := Lists(all, doneLimit);
    forall k | 0 <= k < 4 ensures Distinct(lists[k]) {
      ShownIsDistinct(all, doneLimit, SECTIONS[k]);
    }
    forall i, j, id | 0 <= i < j < 4 && id in lists[i]
      ensures id !in lists[j]
    {
      TwoListsAreDisjoint(all, doneLimit, SECTIONS[i], SECTIONS[j], id);
    }
  }

  /** Dropping the row of an item that no list shows leaves every list's container alone. */
  lemma DropKeepsLists(
    rows: map<Id, Node>, children: map<Container, seq<Node>>, cs: seq<Container>, lists: seq<seq<Id>>, id: Id)
    requires |cs| == |lists| && Holds(rows, children, cs, lists) && Injective(rows) && id in rows
    requires forall k :: 0 <= k < |lists| ==> id !in lists[k]
    ensures Holds(rows - {id}, Detached(children, {rows[id]}), cs, lists)
  {
    forall k | 0 <= k < |cs|
      ensures (forall x :: x in lists[k] ==> x in rows - {id})
      ensures Detached(children, {rows[id]})[cs[k]] == Els(rows - {id}, lists[k])
    {
      assert Els(rows, [id]) == [rows[id]];
      assert NodesOf(Els(rows, [id])) == {rows[id]};
      StaysPut(rows, lists[k], [id]);
    }
  }

  /** Removes the rows of items that are gone. */
  method DropStale(page: Page, items: set<Id>, ghost cs: seq<Container>, ghost lists: seq<seq<Id>>)
    requires page.Valid() && |cs| == |lists| && Holds(page.rows, page.children, cs, lists)
    requires forall k, id :: 0 <= k < |lists| && id in lists[k] ==> id in items
    modifies page
    ensures page.Valid() && page.children.Keys == old(page.children.Keys)
    ensures page.rows.Keys == old(page.rows).Keys * items
    ensures forall id :: id in page.rows ==> page.rows[id] == old(page.rows)[id]
    ensures Holds(page.rows, page.children, cs, lists)
  {
    var stale := page.rows.Keys - items;
    while stale != {}
      invariant page.Valid() && page.children.Keys == old(page.children.Keys)
      invariant stale == page.rows.Keys - items
      invariant old(page.rows).Keys * items <= page.rows.Keys
      invariant forall id :: id in page.rows ==> id in old(page.rows) && page.rows[id] == old(page.rows)[id]
      invariant Holds(page.rows, page.children, cs, lists)
      decreases |stale|
    {
      var id :| id in stale;
      DropKeepsLists(page.rows, page.children, cs, lists, id);
      page.Drop(id);
      stale := stale - {id};
    }
    assert forall id :: id in page.rows.Keys ==> id in stale || id in items;
  }

  /**
   One repaint: every container holds exactly its section's rows in order, rows that were there are
   used again, and a row is kept only for an item that is kept.
   */
  method FlushRows(page: Page, all: seq<Item>, doneLimit: nat) returns (items: set<Id>)
    requires page.Valid() && DistinctIds(all)
    requires forall c :: c in CONTAINERS ==> c in page.children
    modifies page
    ensures page.Valid()
    ensures forall id :: id in items <==> (exists i :: i in all && i.id == id) && id !in Evicted(all, doneLimit)
    ensures Holds(page.rows, page.children, ["rows-active", "rows-scheduled", "rows-waiting", "rows-done"],
                  [Shown(all, Active, doneLimit), Shown(all, Scheduled, doneLimit),
                   Shown(all, Waiting, doneLimit), Shown(all, Done, doneLimit)])
    ensures page.rows.Keys <= items
    ensures forall id :: id in page.rows && id in old(page.rows) ==> page.rows[id] == old(page.rows[id])
    ensures forall id :: id in page.rows && id !in old(page.rows) ==> old(page.created) <= page.rows[id]
  {
    var lists := Lists(all, doneLimit);
    items := Kept(all, doneLimit);
    ListsAreDisjoint(all, doneLimit);
    forall k, id | 0 <= k < 4 && id in lists[k] {
      ShownIsKept(all, doneLimit, SECTIONS[k], id);
    }
    ContainersAreDistinct();
    ReconcileAll(page, CONTAINERS, lists);
    DropStale(page, items, CONTAINERS, lists);
  }

  lemma ContainersAreDistinct()
    ensures Distinct(CONTAINERS)
  {
    assert |CONTAINERS[0]| == 11 && |CONTAINERS[1]| == 14 && |CONTAINERS[2]| == 12 && |CONTAINERS[3]| == 9;
  }
}

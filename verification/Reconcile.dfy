/**
 The page's reconciliation of row nodes with a list of items: nodes are moved, never rebuilt, and
 moving one takes it out of whatever container held it.
 */
module Reconcile {
  import opened Prelude

  type Id = string
  type Node = nat
  type Container = string

  // -- sequences of sibling nodes -------------------------------------------------------

  function Without(s: seq<Node>, gone: set<Node>): seq<Node> {
    if s == [] then [] else (if s[0] in gone then [] else [s[0]]) + Without(s[1..], gone)
  }

  lemma {:induction false} WithoutMeans(s: seq<Node>, gone: set<Node>)
    ensures forall x :: x in Without(s, gone) <==> x in s && x !in gone
    ensures Distinct(s) ==> Distinct(Without(s, gone))
  {
    if s != [] {
      WithoutMeans(s[1..], gone);
      assert s == [s[0]] + s[1..];
    }
  }

  lemma {:induction false} WithoutConcat(s: seq<Node>, t: seq<Node>, gone: set<Node>)
    ensures Without(s + t, gone) == Without(s, gone) + Without(t, gone)
  {
    if s == [] {
      assert s + t == t;
    } else {
      var head := if s[0] in gone then [] else [s[0]];
      calc {
        Without(s + t, gone);
      == { assert (s + t)[1..] == s[1..] + t; }
        head + Without(s[1..] + t, gone);
      == { WithoutConcat(s[1..], t, gone); }
        head + (Without(s[1..], gone) + Without(t, gone));
      == { assert head + (Without(s[1..], gone) + Without(t, gone))
                == head + Without(s[1..], gone) + Without(t, gone); }
        Without(s, gone) + Without(t, gone);
      }
    }
  }

  lemma {:induction false} WithoutStrangers(s: seq<Node>, gone: set<Node>)
    requires forall x :: x in s ==> x !in gone
    ensures Without(s, gone) == s
  {
    if s != [] {
      WithoutStrangers(s[1..], gone);
    }
  }

  lemma {:induction false} WithoutTwice(s: seq<Node>, gone: set<Node>, more: set<Node>)
    ensures Without(Without(s, gone), more) == Without(s, gone + more)
  {
    if s != [] {
      WithoutTwice(s[1..], gone, more);
      WithoutConcat(if s[0] in gone then [] else [s[0]], Without(s[1..], gone), more);
    }
  }

  /** `el` put in front of `before`, or at the end. */
  function Inserted(s: seq<Node>, el: Node, before: Option<Node>): seq<Node> {
    if s == [] || before == Some(s[0]) then [el] + s else [s[0]] + Inserted(s[1..], el, before)
  }

  function NextAfter(s: seq<Node>, node: Node): Option<Node> {
    if s == [] then None
    else if s[0] == node then (if |s| > 1 then Some(s[1]) else None)
    else NextAfter(s[1..], node)
  }

  function First(s: seq<Node>): Option<Node> { if s == [] then None else Some(s[0]) }

  lemma {:induction false} InsertedAtCursor(placed: seq<Node>, rest: seq<Node>, el: Node)
    requires forall x :: x in placed ==> x !in rest
    ensures Inserted(placed + rest, el, First(rest)) == placed + [el] + rest
  {
    if placed == [] {
      assert placed + rest == rest;
    } else {
      assert (placed + rest)[1..] == placed[1..] + rest;
      assert placed[0] in placed && First(rest) != Some(placed[0]);
      InsertedAtCursor(placed[1..], rest, el);
      assert [placed[0]] + (placed[1..] + [el] + rest) == placed + [el] + rest;
    }
  }

  lemma {:induction false} NextAtCursor(placed: seq<Node>, rest: seq<Node>)
    requires rest != [] && rest[0] !in placed
    ensures NextAfter(placed + rest, rest[0]) == First(rest[1..])
  {
    if placed == [] {
      assert placed + rest == rest;
    } else {
      assert (placed + rest)[1..] == placed[1..] + rest;
      NextAtCursor(placed[1..], rest);
    }
  }

  // -- the page -----------------------------------------------------------------------------

  function Els(rows: map<Id, Node>, list: seq<Id>): (s: seq<Node>)
    requires forall id :: id in list ==> id in rows
    ensures |s| == |list|
  {
    seq(|list|, i requires 0 <= i < |list| => assert list[i] in list; rows[list[i]])
  }

  ghost predicate Injective(rows: map<Id, Node>) {
    forall a, b :: a in rows && b in rows && rows[a] == rows[b] ==> a == b
  }

  ghost predicate RowsValid(rows: map<Id, Node>, created: Node) {
    Injective(rows) && forall id :: id in rows ==> rows[id] < created
  }

  /** The rows after those of `list` were asked for: old ones are the same, new ones are new nodes. */
  ghost predicate RowsGrewBy(
    rows: map<Id, Node>, created: Node, rows': map<Id, Node>, created': Node, list: seq<Id>)
  {
    && RowsValid(rows', created') && created <= created'
    && (forall id :: id in rows' <==> id in rows || id in list)
    && forall id :: id in rows' ==> if id in rows then rows'[id] == rows[id] else created <= rows'[id]
  }

  lemma OneMoreRow(
    rows: map<Id, Node>, created: Node, rows': map<Id, Node>, created': Node, list: seq<Id>, id: Id)
    requires RowsGrewBy(rows, created, rows', created', list)
    ensures id in rows' ==> RowsGrewBy(rows, created, rows', created', list + [id])
    ensures id !in rows' ==> RowsGrewBy(rows, created, rows'[id := created'], created' + 1, list + [id])
  {
    assert forall x :: x in list + [id] <==> x in list || x == id;
  }

  /** Every node has at most one place in the document. */
  ghost predicate OnePlace(children: map<Container, seq<Node>>) {
    && (forall c :: c in children ==> Distinct(children[c]))
    && forall c, d, x :: c in children && d in children && x in children[c] && x in children[d] ==> c == d
  }

  function Detached(children: map<Container, seq<Node>>, gone: set<Node>): map<Container, seq<Node>> {
    map c | c in children :: Without(children[c], gone)
  }

  lemma DetachedKeepsPlaces(children: map<Container, seq<Node>>, gone: set<Node>)
    requires OnePlace(children)
    ensures OnePlace(Detached(children, gone))
    ensures forall c, x :: c in children && x in Detached(children, gone)[c] ==> x in children[c] && x !in gone
  {
    forall c | c in children {
      WithoutMeans(children[c], gone);
    }
  }

  /** Distinct items have distinct rows. */
  lemma NewElement(rows: map<Id, Node>, created: Node, list: seq<Id>, i: nat)
    requires RowsValid(rows, created) && Distinct(list) && i < |list|
    requires forall id :: id in list[..i] ==> id in rows
    ensures var el := if list[i] in rows then rows[list[i]] else created;
      && el !in Els(rows, list[..i])
      && var rows' := rows[list[i] := el];
         (forall id :: id in list[..i + 1] ==> id in rows')
         && Els(rows', list[..i + 1]) == Els(rows, list[..i]) + [el]
  {
    assert list[..i + 1] == list[..i] + [list[i]];
    forall k | 0 <= k < i
      ensures list[k] in rows && list[k] != list[i]
    {
      assert list[..i][k] == list[k];
    }
  }

  lemma ElsAreBelow(rows: map<Id, Node>, created: Node, list: seq<Id>)
    requires RowsValid(rows, created) && forall id :: id in list ==> id in rows
    ensures forall x :: x in Els(rows, list) ==> x < created
  {
    forall i | 0 <= i < |list|
      ensures Els(rows, list)[i] < created
    {
      assert list[i] in list;
    }
  }

  lemma ElsAreDistinct(rows: map<Id, Node>, list: seq<Id>)
    requires Injective(rows) && Distinct(list) && forall id :: id in list ==> id in rows
    ensures Distinct(Els(rows, list))
  {
    forall i, j | 0 <= i < j < |list|
      ensures Els(rows, list)[i] != Els(rows, list)[j]
    {
      assert list[i] in list && list[j] in list;
    }
  }

  function NodesOf(s: seq<Node>): set<Node> { set x | x in s }

  lemma NodesOfGrows(s: seq<Node>, x: Node)
    ensures NodesOf(s + [x]) == NodesOf(s) + {x}
  {}

  /** The document in the middle of a reconciliation: what is placed, then what is left of the old content. */
  function Midway(children: map<Container, seq<Node>>, c: Container, placed: seq<Node>, gone: set<Node>)
    : map<Container, seq<Node>>
    requires c in children
  {
    Detached(children, gone)[c := placed + Without(children[c], gone)]
  }

  lemma MidwayStarts(children: map<Container, seq<Node>>, c: Container)
    requires c in children
    ensures Midway(children, c, [], {}) == children
    ensures Without(children[c], {}) == children[c]
  {
    forall d | d in children {
      WithoutStrangers(children[d], {});
    }
    assert [] + children[c] == children[c];
  }

  lemma StrangerToOthers(children: map<Container, seq<Node>>, c: Container, d: Container, gone: set<Node>, el: Node)
    requires OnePlace(children) && c in children && d in children && c != d && el in children[c]
    ensures Without(children[d], gone + {el}) == Without(children[d], gone)
  {
    WithoutMeans(children[d], gone);
    WithoutStrangers(Without(children[d], gone), {el});
    WithoutTwice(children[d], gone, {el});
  }

  lemma FirstGone(s: seq<Node>, gone: set<Node>, el: Node)
    requires Distinct(s) && First(Without(s, gone)) == Some(el)
    ensures el in s && Without(s, gone + {el}) == Without(s, gone)[1..]
  {
    var rest := Without(s, gone);
    WithoutMeans(s, gone);
    assert rest[0] in rest;
    WithoutTwice(s, gone, {el});
    WithoutStrangers(rest[1..], {el});
  }

  /** The cursor already stands at the node: nothing moves. */
  lemma KeepOne(children: map<Container, seq<Node>>, c: Container, placed: seq<Node>, gone: set<Node>, el: Node)
    requires OnePlace(children) && c in children
    requires First(Without(children[c], gone)) == Some(el)
    ensures Midway(children, c, placed + [el], gone + {el}) == Midway(children, c, placed, gone)
    ensures Without(children[c], gone + {el}) == Without(children[c], gone)[1..]
  {
    FirstGone(children[c], gone, el);
    forall d | d in children && d != c {
      StrangerToOthers(children, c, d, gone, el);
    }
    var rest := Without(children[c], gone);
    assert placed + rest == (placed + [el]) + rest[1..];
  }

  lemma OthersDetach(children: map<Container, seq<Node>>, gone: set<Node>, el: Node)
    ensures Detached(Detached(children, gone), {el}) == Detached(children, gone + {el})
  {
    forall d | d in children {
      WithoutTwice(children[d], gone, {el});
    }
  }

  lemma CursorStays(s: seq<Node>, gone: set<Node>, el: Node)
    requires First(Without(s, gone)) != Some(el)
    ensures First(Without(s, gone + {el})) == First(Without(s, gone))
  {
    WithoutTwice(s, gone, {el});
  }

  /** The node is taken from wherever it is and put in front of the cursor. */
  lemma MoveOne(children: map<Container, seq<Node>>, c: Container, placed: seq<Node>, gone: set<Node>, el: Node)
    requires c in children && el !in placed && forall x :: x in placed ==> x in gone
    requires First(Without(children[c], gone)) != Some(el)
    ensures var now := Midway(children, c, placed, gone);
      Detached(now, {el})[c := Inserted(Without(now[c], {el}), el, First(Without(children[c], gone)))]
      == Midway(children, c, placed + [el], gone + {el})
  {
    var rest, rest' := Without(children[c], gone), Without(children[c], gone + {el});
    CursorStays(children[c], gone, el);
    WithoutConcat(placed, rest, {el});
    WithoutStrangers(placed, {el});
    WithoutTwice(children[c], gone, {el});
    WithoutMeans(children[c], gone + {el});
    InsertedAtCursor(placed, rest', el);
    OthersDetach(children, gone, el);
  }

  /** What the cursor has not passed is removed from the front. */
  lemma TrimOne(children: map<Container, seq<Node>>, c: Container, els: seq<Node>, gone: set<Node>, rest: seq<Node>)
    requires OnePlace(children) && c in children && rest != [] && Distinct(rest)
    requires forall x :: x in rest ==> x in children[c] && x !in els
    ensures Detached(Detached(children, gone)[c := els + rest], {rest[0]})
            == Detached(children, gone)[c := els + rest[1..]]
    ensures NextAfter(els + rest, rest[0]) == First(rest[1..])
  {
    var x := rest[0];
    assert x in rest;
    forall d | d in children && d != c
      ensures Without(Without(children[d], gone), {x}) == Without(children[d], gone)
    {
      StrangerToOthers(children, c, d, gone, x);
      WithoutTwice(children[d], gone, {x});
    }
    WithoutConcat(els, rest, {x});
    WithoutStrangers(els, {x});
    WithoutStrangers(rest[1..], {x});
    assert Without(rest, {x}) == rest[1..];
    NextAtCursor(els, rest);
  }

  lemma PlacedHavePlaces(children: map<Container, seq<Node>>, c: Container, els: seq<Node>)
    requires OnePlace(children) && c in children && Distinct(els)
    ensures OnePlace(Detached(children, NodesOf(els))[c := els])
  {
    var gone := NodesOf(els);
    DetachedKeepsPlaces(children, gone);
    var m := Detached(children, gone)[c := els];
    forall d, e, x | d in m && e in m && x in m[d] && x in m[e]
      ensures d == e
    {
      if d == c || e == c { assert x in gone; }
    }
  }

  ghost predicate Below(children: map<Container, seq<Node>>, created: Node) {
    forall c, x :: c in children && x in children[c] ==> x < created
  }

  lemma DetachedStaysBelow(children: map<Container, seq<Node>>, gone: set<Node>, created: Node)
    requires Below(children, created)
    ensures Below(Detached(children, gone), created)
  {
    forall c, x | c in children && x in Detached(children, gone)[c]
      ensures x < created
    {
      WithoutMeans(children[c], gone);
    }
  }

  lemma ReconciledIsValid(
    children: map<Container, seq<Node>>, c: Container, rows: map<Id, Node>, created: Node, list: seq<Id>)
    requires OnePlace(children) && Below(children, created) && c in children && Distinct(list)
    requires RowsValid(rows, created) && forall id :: id in list ==> id in rows
    ensures var els := Els(rows, list);
      var m := Detached(children, NodesOf(els))[c := els];
      OnePlace(m) && Below(m, created)
  {
    var els := Els(rows, list);
    ElsAreDistinct(rows, list);
    PlacedHavePlaces(children, c, els);
    ElsAreBelow(rows, created, list);
    var gone := NodesOf(els);
    DetachedKeepsPlaces(children, gone);
    var m := Detached(children, gone)[c := els];
    forall d, x | d in m && x in m[d]
      ensures x < created
    {
      if d != c {
        WithoutMeans(children[d], gone);
      }
    }
  }

  class Page {
    var children: map<Container, seq<Node>>
    var rows: map<Id, Node>
    var created: Node

    ghost predicate Valid()
      reads this
    {
      OnePlace(children) && RowsValid(rows, created) && Below(children, created)
    }

    /** Puts `el` into `c`, after taking it from wherever it was. */
    method InsertBefore(c: Container, el: Node, before: Option<Node>)
      requires c in children
      modifies this`children
      ensures children == Detached(old(children), {el})[c := Inserted(Without(old(children[c]), {el}), el, before)]
    {
      var without := map d | d in children :: Without(children[d], {el});
      children := without[c := Inserted(without[c], el, before)];
    }

    method Remove(el: Node)
      modifies this`children
      ensures children == Detached(old(children), {el})
    {
      children := map d | d in children :: Without(children[d], {el});
    }

    /** Takes an item's row out of the document and forgets it. */
    method Drop(id: Id)
      requires Valid() && id in rows
      modifies this`children, this`rows
      ensures Valid()
      ensures children == Detached(old(children), {old(rows)[id]}) && rows == old(rows) - {id}
    {
      DetachedKeepsPlaces(children, {rows[id]});
      DetachedStaysBelow(children, {rows[id]}, created);
      Remove(rows[id]);
      rows := rows - {id};
    }

    /** The row of an item: the one it has, or a new node. */
    method RowFor(id: Id) returns (el: Node)
      requires RowsValid(rows, created)
      modifies this`rows, this`created
      ensures RowsValid(rows, created) && id in rows && rows[id] == el
      ensures id in old(rows) ==> rows == old(rows) && created == old(created)
      ensures id !in old(rows) ==> rows == old(rows)[id := old(created)] && created == old(created) + 1
    {
      if id in rows {
        return rows[id];
      }
      el := created;
      rows, created := rows[id := el], created + 1;
    }

    /** One turn of the first loop: the item's row ends up next in place. */
    method PlaceNext(c: Container, id: Id, cursor: Option<Node>,
                     ghost before: map<Container, seq<Node>>, ghost placed: seq<Node>)
      returns (el: Node, node: Option<Node>)
      requires RowsValid(rows, created) && OnePlace(before) && c in before
      requires (if id in rows then rows[id] else created) !in placed
      requires children == Midway(before, c, placed, NodesOf(placed))
      requires cursor == First(Without(before[c], NodesOf(placed)))
      modifies this
      ensures id in old(rows) ==> rows == old(rows) && el == rows[id] && created == old(created)
      ensures id !in old(rows) ==> el == old(created) && rows == old(rows)[id := el] && created == old(created) + 1
      ensures children == Midway(before, c, placed + [el], NodesOf(placed + [el]))
      ensures node == First(Without(before[c], NodesOf(placed + [el])))
    {
      el := RowFor(id);
      ghost var gone := NodesOf(placed);
      NodesOfGrows(placed, el);
      if cursor == Some(el) {
        KeepOne(before, c, placed, gone, el);
        NextAtCursor(placed, Without(before[c], gone));
        node := NextAfter(children[c], el);
      } else {
        MoveOne(before, c, placed, gone, el);
        CursorStays(before[c], gone, el);
        InsertBefore(c, el, cursor);
        node := cursor;
      }
    }

    /** Puts the rows of `list` in front of the rest of the content; `node` is the first of that rest. */
    method PlaceAll(c: Container, list: seq<Id>) returns (node: Option<Node>)
      requires Valid() && c in children && Distinct(list)
      modifies this
      ensures RowsGrewBy(old(rows), old(created), rows, created, list)
      ensures children == Midway(old(children), c, Els(rows, list), NodesOf(Els(rows, list)))
      ensures node == First(Without(old(children[c]), NodesOf(Els(rows, list))))
    {
      node := First(children[c]);
      ghost var before, placed: seq<Node> := children, [];
      MidwayStarts(children, c);
      assert NodesOf(placed) == {};
      for i := 0 to |list|
        invariant RowsGrewBy(old(rows), old(created), rows, created, list[..i])
        invariant placed == Els(rows, list[..i])
        invariant children == Midway(before, c, placed, NodesOf(placed))
        invariant node == First(Without(before[c], NodesOf(placed)))
      {
        assert list[..i + 1] == list[..i] + [list[i]];
        OneMoreRow(old(rows), old(created), rows, created, list[..i], list[i]);
        NewElement(rows, created, list, i);
        var el;
        el, node := PlaceNext(c, list[i], node, before, placed);
        placed := placed + [el];
      }
      assert list[..|list|] == list;
    }

    /** Removes `node` and everything after it. */
    method TrimFrom(c: Container, first: Option<Node>, ghost before: map<Container, seq<Node>>, ghost placed: seq<Node>)
      requires OnePlace(before) && c in before && children == Midway(before, c, placed, NodesOf(placed))
      requires first == First(Without(before[c], NodesOf(placed)))
      modifies this`children
      ensures children == Detached(before, NodesOf(placed))[c := placed]
    {
      var node := first;
      ghost var gone := NodesOf(placed);
      ghost var rest := Without(before[c], gone);
      WithoutMeans(before[c], gone);
      while node.Some?
        invariant node == First(rest) && Distinct(rest)
        invariant forall x :: x in rest ==> x in before[c] && x !in placed
        invariant children == Detached(before, gone)[c := placed + rest]
        decreases |rest|
      {
        TrimOne(before, c, placed, gone, rest);
        var next := NextAfter(children[c], node.value);
        Remove(node.value);
        node, rest := next, rest[1..];
      }
      assert placed + [] == placed;
    }

    /** Makes `c` hold the rows of `list`, in order, and takes those rows out of every other container. */
    method Reconcile(c: Container, list: seq<Id>)
      requires Valid() && c in children && Distinct(list)
      modifies this
      ensures Valid() && RowsGrewBy(old(rows), old(created), rows, created, list)
      ensures var els := Els(rows, list);
        children == Detached(old(children), NodesOf(els))[c := els]
    {
      ghost var before := children;
      var node := PlaceAll(c, list);
      TrimFrom(c, node, before, Els(rows, list));
      ReconciledIsValid(before, c, rows, created, list);
    }
  }
}

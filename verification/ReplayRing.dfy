/** The bounded replay ring and the hub in front of it. */
module ReplayRing {
  import opened Prelude
  import opened IndexMaps
  import opened Frames
  import opened ReplayFold
  import FoldWords

  /** One published frame: its sequence, what a fold reads, and the bytes the ring counts. */
  datatype Entry = Entry(seqNo: nat, body: FrameBody, size: nat)

  ghost predicate Increasing(log: seq<Entry>) {
    forall i, j :: 0 <= i < j < |log| ==> log[i].seqNo < log[j].seqNo
  }

  function Bodies(entries: seq<Entry>): (r: seq<FrameBody>)
    ensures |r| == |entries|
  {
    seq(|entries|, i requires 0 <= i < |entries| => entries[i].body)
  }

  function TotalSize(entries: seq<Entry>): nat {
    if entries == [] then 0 else entries[0].size + TotalSize(entries[1..])
  }

  lemma {:induction false} TotalSizeSnoc(entries: seq<Entry>, e: Entry)
    ensures TotalSize(entries + [e]) == TotalSize(entries) + e.size
  {
    if entries == [] {
      assert [e][1..] == [];
    } else {
      assert (entries + [e])[1..] == entries[1..] + [e];
      TotalSizeSnoc(entries[1..], e);
    }
  }

  /** How many leading frames a cursor has seen. */
  function Seen(log: seq<Entry>, cursor: nat): (k: nat)
    ensures k <= |log|
  {
    if log == [] || log[0].seqNo > cursor then 0 else 1 + Seen(log[1..], cursor)
  }

  lemma {:induction false} SeenSplits(log: seq<Entry>, cursor: nat)
    requires Increasing(log)
    ensures forall i :: 0 <= i < |log| ==> (i < Seen(log, cursor) <==> log[i].seqNo <= cursor)
  {
    if log != [] && log[0].seqNo <= cursor {
      SeenSplits(log[1..], cursor);
      forall i | 0 <= i < |log| ensures i < Seen(log, cursor) <==> log[i].seqNo <= cursor {
        if i > 0 { assert log[i] == log[1..][i - 1]; }
      }
    }
  }

  /** `Seen` is the only index that splits a log at a cursor. */
  lemma SeenIs(log: seq<Entry>, cursor: nat, k: nat)
    requires Increasing(log) && k <= |log|
    requires k > 0 ==> log[k - 1].seqNo <= cursor
    requires k < |log| ==> cursor < log[k].seqNo
    ensures Seen(log, cursor) == k
  {
    SeenSplits(log, cursor);
  }

  /** The retained frames strictly above `since`. */
  function After(entries: seq<Entry>, since: nat): seq<Entry> {
    if entries == [] then []
    else After(entries[..|entries| - 1], since)
         + (if entries[|entries| - 1].seqNo > since then [entries[|entries| - 1]] else [])
  }

  lemma SeenOfSnoc(init: seq<Entry>, e: Entry, since: nat)
    requires Increasing(init + [e])
    ensures Increasing(init)
    ensures Seen(init + [e], since) == if e.seqNo > since then Seen(init, since) else |init| + 1
    ensures e.seqNo <= since ==> Seen(init, since) == |init|
  {
    var log := init + [e];
    assert forall i :: 0 <= i < |init| ==> log[i] == init[i];
    SeenSplits(init, since);
    if e.seqNo > since {
      SeenIs(log, since, Seen(init, since));
    } else {
      assert log[|init|] == e;
      SeenIs(log, since, |log|);
      SeenIs(init, since, |init|);
    }
  }

  lemma AfterSnoc(init: seq<Entry>, e: Entry, since: nat)
    ensures After(init + [e], since) == After(init, since) + if e.seqNo > since then [e] else []
  {
    assert (init + [e])[..|init|] == init;
  }

  lemma SuffixSnoc(init: seq<Entry>, e: Entry, k: nat)
    requires k <= |init|
    ensures (init + [e])[k..] == init[k..] + [e]
  {}

  lemma {:induction false} AfterIsSuffix(entries: seq<Entry>, since: nat)
    requires Increasing(entries)
    ensures After(entries, since) == entries[Seen(entries, since)..]
  {
    if entries != [] {
      var init, e := entries[..|entries| - 1], entries[|entries| - 1];
      assert entries == init + [e];
      SeenOfSnoc(init, e, since);
      AfterIsSuffix(init, since);
      AfterSnoc(init, e, since);
      SuffixSnoc(init, e, Seen(init, since));
    }
  }

  /** A log with its first `cut` frames no longer replayable. */
  datatype Window = Window(log: seq<Entry>, cut: nat, boot: nat) {
    ghost predicate Valid() {
      && cut <= |log|
      && Increasing(log)
      // The allocator starts above the boot cursor, except that a fresh store hands out 0 itself.
      && (log != [] ==> boot < log[0].seqNo || log[0].seqNo == boot == 0)
    }

    /** The allocator only moves forward. */
    ghost predicate Next(e: Entry) {
      if log == [] then boot < e.seqNo || e.seqNo == boot == 0 else log[|log| - 1].seqNo < e.seqNo
    }

    /** The highest sequence that is no longer replayable. */
    function Floor(): nat
      requires cut <= |log|
    {
      if cut == 0 then boot else log[cut - 1].seqNo
    }

    function Head(): nat { if log == [] then boot else log[|log| - 1].seqNo }

    function Retained(): seq<Entry>
      requires cut <= |log|
    {
      log[cut..]
    }
  }

  lemma SeenOfSuffix(log: seq<Entry>, cut: nat, since: nat)
    requires Increasing(log) && cut <= Seen(log, since)
    ensures Increasing(log[cut..]) && Seen(log[cut..], since) == Seen(log, since) - cut
  {
    SeenSplits(log, since);
    SeenIs(log[cut..], since, Seen(log, since) - cut);
  }

  lemma SuffixOfSuffix(log: seq<Entry>, cut: nat, k: nat)
    requires cut <= k <= |log|
    ensures log[cut..][k - cut..] == log[k..]
  {}

  lemma FloorIsSeen(w: Window, since: nat)
    requires w.Valid() && w.Floor() <= since
    ensures w.cut <= Seen(w.log, since)
  {
    SeenSplits(w.log, since);
    assert w.cut > 0 ==> w.log[w.cut - 1].seqNo <= since;
  }

  /** At or above the floor, the ring alone holds every newer frame. */
  lemma RingCoversAboveFloor(w: Window, since: nat)
    requires w.Valid() && w.Floor() <= since
    ensures After(w.Retained(), since) == w.log[Seen(w.log, since)..]
    ensures w.cut <= Seen(w.log, since)
  {
    FloorIsSeen(w, since);
    var k := Seen(w.log, since);
    SeenOfSuffix(w.log, w.cut, since);
    AfterIsSuffix(w.Retained(), since);
    SuffixOfSuffix(w.log, w.cut, k);
  }

  predicate OverBounds(entries: seq<Entry>, maxFrames: nat, maxBytes: nat) {
    |entries| > maxFrames || TotalSize(entries) > maxBytes
  }

  /** How many frames eviction drops. */
  function Evict(entries: seq<Entry>, maxFrames: nat, maxBytes: nat): (n: nat)
    ensures n <= |entries|
  {
    if |entries| > 1 && OverBounds(entries, maxFrames, maxBytes) then
      1 + Evict(entries[1..], maxFrames, maxBytes)
    else
      0
  }

  /** Eviction stops inside both bounds, and never drops the newest frame. */
  lemma {:induction false} EvictSuffices(entries: seq<Entry>, maxFrames: nat, maxBytes: nat)
    requires entries != []
    ensures var n := Evict(entries, maxFrames, maxBytes);
            && n < |entries|
            && (|entries| - n == 1 || (|entries| - n <= maxFrames && TotalSize(entries[n..]) <= maxBytes))
  {
    var n := Evict(entries, maxFrames, maxBytes);
    assert entries[0..] == entries;
    if n > 0 {
      EvictSuffices(entries[1..], maxFrames, maxBytes);
      assert entries[1..][n - 1..] == entries[n..];
    }
  }

  /** Eviction drops no frame while both bounds hold. */
  lemma {:induction false} EvictIsLeast(entries: seq<Entry>, maxFrames: nat, maxBytes: nat, m: nat)
    requires m < Evict(entries, maxFrames, maxBytes)
    ensures |entries| - m > maxFrames || TotalSize(entries[m..]) > maxBytes
  {
    assert entries[0..] == entries;
    if m > 0 {
      EvictIsLeast(entries[1..], maxFrames, maxBytes, m - 1);
      assert entries[1..][m - 1..] == entries[m..];
    }
  }

  /** What a ring's fields say about the frames pushed so far. */
  ghost predicate RingInv(w: Window, entries: seq<Entry>, bytes: nat, floor: nat, maxFrames: nat, maxBytes: nat) {
    && w.Valid()
    && entries == w.Retained()
    && floor == w.Floor()
    && bytes == TotalSize(entries)
    && (|entries| <= 1 || (|entries| <= maxFrames && TotalSize(entries) <= maxBytes))
  }

  lemma WindowGrows(w: Window, e: Entry, n: nat)
    requires w.Valid() && w.Next(e) && n <= |w.log| - w.cut
    ensures var next := Window(w.log + [e], w.cut + n, w.boot);
            && next.Valid()
            && next.Retained() == (w.Retained() + [e])[n..]
            && next.Floor() == if n == 0 then w.Floor() else (w.Retained() + [e])[n - 1].seqNo
  {
    SuffixOfSnoc(w.log, e, w.cut, n);
    IncreasingSnoc(w.log, e);
  }

  lemma EvictedFits(entries: seq<Entry>, maxFrames: nat, maxBytes: nat, kept: seq<Entry>)
    requires entries != [] && kept == entries[Evict(entries, maxFrames, maxBytes)..]
    ensures |kept| <= 1 || (|kept| <= maxFrames && TotalSize(kept) <= maxBytes)
  {
    EvictSuffices(entries, maxFrames, maxBytes);
  }

  lemma PushedRing(
    w: Window, e: Entry, gone: nat, kept: seq<Entry>, rest: nat, floor: nat, maxFrames: nat, maxBytes: nat)
    requires w.Valid() && w.Next(e) && gone <= |w.log| - w.cut
    requires kept == (w.Retained() + [e])[gone..] && rest == TotalSize(kept)
    requires floor == if gone == 0 then w.Floor() else (w.Retained() + [e])[gone - 1].seqNo
    requires |kept| <= 1 || (|kept| <= maxFrames && TotalSize(kept) <= maxBytes)
    ensures RingInv(Window(w.log + [e], w.cut + gone, w.boot), kept, rest, floor, maxFrames, maxBytes)
  {
    WindowGrows(w, e, gone);
  }

  lemma SuffixOfSnoc(log: seq<Entry>, e: Entry, cut: nat, n: nat)
    requires cut <= |log| && n <= |log| - cut
    ensures (log[cut..] + [e])[n..] == (log + [e])[cut + n..]
    ensures n > 0 ==> (log[cut..] + [e])[n - 1] == (log + [e])[cut + n - 1]
  {
  }

  lemma IncreasingSnoc(log: seq<Entry>, e: Entry)
    requires Increasing(log) && (log != [] ==> log[|log| - 1].seqNo < e.seqNo)
    ensures Increasing(log + [e])
  {
  }

  method AddAll(start: Acc, items: seq<View>) returns (acc: Acc)
    ensures acc == AddViews(start, items)
  {
    acc := start;
    for j := 0 to |items|
      invariant acc == AddViews(start, items[..j])
    {
      assert items[..j + 1][..j] == items[..j];
      acc := AddView(acc, items[j]);
    }
    assert items[..|items|] == items;
  }

  method CompleteAll(start: Acc, items: seq<View>) returns (acc: Acc)
    ensures acc == CompleteViews(start, items)
  {
    acc := start;
    for j := 0 to |items|
      invariant acc == CompleteViews(start, items[..j])
    {
      assert items[..j + 1][..j] == items[..j];
      acc := CompleteView(acc, items[j]);
    }
    assert items[..|items|] == items;
  }

  method RemoveAll(start: Acc, reason: RemoveReason, ids: seq<ItemId>) returns (acc: Acc)
    ensures acc == RemoveIds(start, reason, ids)
  {
    acc := start;
    for j := 0 to |ids|
      invariant acc == RemoveIds(start, reason, ids[..j])
    {
      assert ids[..j + 1][..j] == ids[..j];
      acc := RemoveId(acc, reason, ids[j]);
    }
    assert ids[..|ids|] == ids;
  }

  method PatchAllItems(start: Acc, patches: seq<Patch>) returns (acc: Acc)
    ensures acc == PatchItems(start, patches)
  {
    acc := start;
    for j := 0 to |patches|
      invariant acc == PatchItems(start, patches[..j])
    {
      assert patches[..j + 1][..j] == patches[..j];
      acc := PatchItem(acc, patches[j]);
    }
    assert patches[..|patches|] == patches;
  }

  /** One frame's contribution to a fold. */
  method AbsorbFrame(start: Acc, body: FrameBody) returns (acc: Acc)
    ensures acc == Absorb(start, body)
  {
    match body
    case Added(reason, items) =>
      acc := AddAll(start.(addReason := Some(MergeAddReason(start.addReason, reason))), items);
    case Completed(items) =>
      acc := CompleteAll(start, items);
    case Removed(reason, ids) =>
      acc := RemoveAll(start, reason, ids);
    case Delta(patches) =>
      acc := PatchAllItems(start, patches);
    case Other(kind, value) =>
      acc := start.(others := start.others + [(kind, value)]);
  }

  lemma AbsorbOneMore(window: seq<Entry>, entry: Entry)
    ensures AbsorbAll(Bodies(window + [entry])) == Absorb(AbsorbAll(Bodies(window)), entry.body)
  {
    var bodies := Bodies(window + [entry]);
    assert bodies[..|window|] == Bodies(window) && bodies[|window|] == entry.body;
  }

  lemma AbsorbNext(init: seq<Entry>, entry: Entry, since: nat)
    ensures var before := AbsorbAll(Bodies(After(init, since)));
      AbsorbAll(Bodies(After(init + [entry], since))) ==
      if entry.seqNo > since then Absorb(before, entry.body) else before
  {
    AfterSnoc(init, entry, since);
    if entry.seqNo > since {
      AbsorbOneMore(After(init, since), entry);
    } else {
      assert After(init, since) + [] == After(init, since);
    }
  }

  /** The number a fold of these frames reports: the newest one's, if any is above the cursor. */
  function Reached(entries: seq<Entry>, since: nat): nat {
    if After(entries, since) == [] then since else entries[|entries| - 1].seqNo
  }

  lemma ReachedNext(init: seq<Entry>, entry: Entry, since: nat)
    requires Increasing(init + [entry])
    ensures Reached(init + [entry], since) ==
            if entry.seqNo > since then Max(Reached(init, since), entry.seqNo) else Reached(init, since)
  {
    AfterSnoc(init, entry, since);
    if init != [] {
      assert (init + [entry])[|init| - 1] == init[|init| - 1] && (init + [entry])[|init|] == entry;
    }
    if After(init, since) != [] {
      LastIsAfter(init, since);
    }
  }

  lemma {:induction false} LastIsAfter(entries: seq<Entry>, since: nat)
    requires Increasing(entries) && After(entries, since) != []
    ensures entries[|entries| - 1].seqNo > since
  {
    var init := entries[..|entries| - 1];
    if After(init, since) != [] {
      LastIsAfter(init, since);
      assert init[|init| - 1] == entries[|entries| - 2];
    }
  }

  /** One pass over the retained frames, skipping what the cursor has already seen. */
  method FoldEntries(entries: seq<Entry>, since: nat) returns (acc: Acc, to: nat)
    requires Increasing(entries)
    ensures acc == AbsorbAll(Bodies(After(entries, since)))
    ensures to == Reached(entries, since)
  {
    acc, to := START, since;
    for i := 0 to |entries|
      invariant acc == AbsorbAll(Bodies(After(entries[..i], since)))
      invariant to == Reached(entries[..i], since)
    {
      var entry := entries[i];
      assert entries[..i + 1] == entries[..i] + [entry];
      AbsorbNext(entries[..i], entry, since);
      ReachedNext(entries[..i], entry, since);
      if entry.seqNo > since {
        to := Max(to, entry.seqNo);
        acc := AbsorbFrame(acc, entry.body);
      }
    }
    assert entries[..|entries|] == entries;
  }

  /** Pops from the front until both bounds hold, keeping the byte count in step. */
  method EvictOldest(entries: seq<Entry>, total: nat, maxFrames: nat, maxBytes: nat) returns (gone: nat, bytes: nat)
    requires entries != [] && total == TotalSize(entries)
    ensures gone == Evict(entries, maxFrames, maxBytes)
    ensures gone <= |entries| && bytes == TotalSize(entries[gone..])
  {
    gone, bytes := 0, total;
    while |entries| - gone > 1 && (|entries| - gone > maxFrames || bytes > maxBytes)
      invariant gone < |entries|
      invariant bytes == TotalSize(entries[gone..])
      invariant Evict(entries, maxFrames, maxBytes) == gone + Evict(entries[gone..], maxFrames, maxBytes)
    {
      assert entries[gone..][1..] == entries[gone + 1..];
      bytes := bytes - entries[gone].size;
      gone := gone + 1;
    }
  }

  class Ring {
    var entries: seq<Entry>
    var bytes: nat
    var floor: nat
    const maxFrames: nat
    const maxBytes: nat
    /** Every frame ever pushed, and how many of them are gone. */
    ghost var window: Window

    ghost predicate Valid()
      reads this
    {
      RingInv(window, entries, bytes, floor, maxFrames, maxBytes)
    }

    constructor (frames: nat, size: nat, floor: nat)
      ensures Valid() && window == Window([], 0, floor)
      ensures maxFrames >= 1 && maxBytes >= 1
    {
      entries, bytes, this.floor := [], 0, floor;
      maxFrames := if frames < 1 then 1 else frames;
      maxBytes := if size < 1 then 1 else size;
      window := Window([], 0, floor);
    }

    /** Appends a frame, then evicts from the front until both bounds hold. */
    method Push(e: Entry)
      requires Valid() && window.Next(e)
      modifies this
      ensures Valid()
      ensures window == Window(
                old(window).log + [e],
                old(window).cut + Evict(old(entries) + [e], maxFrames, maxBytes),
                old(window).boot)
    {
      var all := entries + [e];
      TotalSizeSnoc(entries, e);
      EvictSuffices(all, maxFrames, maxBytes);
      var gone, rest := EvictOldest(all, bytes + e.size, maxFrames, maxBytes);
      ghost var before := window;
      entries, bytes := all[gone..], rest;
      floor := if gone == 0 then floor else all[gone - 1].seqNo;
      window := Window(before.log + [e], before.cut + gone, before.boot);
      EvictedFits(all, maxFrames, maxBytes, entries);
      PushedRing(before, e, gone, entries, bytes, floor, maxFrames, maxBytes);
    }

    /** Folds the retained frames above `since`, one pass, keeping only the last word on each id. */
    method MergeAfter(since: nat) returns (fold: Fold)
      requires Valid()
      ensures fold == FoldOf(Bodies(After(entries, since)), since, Reached(entries, since))
      ensures FoldWords.Tells(fold, Bodies(After(entries, since)))
    {
      var acc, to := FoldEntries(entries, since);
      ghost var newer := Bodies(After(entries, since));
      FoldWords.FoldTells(newer, since, to);
      fold := Finish(acc, since, to);
    }
  }
}

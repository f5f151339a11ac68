/**
 Translating a path by its longest configured prefix. The program sorts the pairs once and takes the
 first that covers the path; the reference is a scan of the pairs as they were written.
 */
module PathMap {
  import opened Prelude

  datatype Pair = Pair(from: string, to: string)

  // -- reading the setting ---------------------------------------------------------------

  predicate IsSpace(c: char) {
    || '\U{9}' <= c <= '\U{D}' || c == ' ' || c == '\U{85}' || c == '\U{A0}' || c == '\U{1680}'
    || '\U{2000}' <= c <= '\U{200A}' || c == '\U{2028}' || c == '\U{2029}' || c == '\U{202F}'
    || c == '\U{205F}' || c == '\U{3000}'
  }

  function TrimStart(s: string): string {
    if s != "" && IsSpace(s[0]) then TrimStart(s[1..]) else s
  }

  function TrimEnd(s: string): string {
    if s != "" && IsSpace(s[|s| - 1]) then TrimEnd(s[..|s| - 1]) else s
  }

  function Trim(s: string): string { TrimEnd(TrimStart(s)) }

  function TrimSlashes(s: string): string {
    if s != "" && s[|s| - 1] == '/' then TrimSlashes(s[..|s| - 1]) else s
  }

  function Find(s: string, c: char): (k: nat)
    ensures k <= |s| && (k < |s| ==> s[k] == c) && forall j :: 0 <= j < k ==> s[j] != c
  {
    if s == "" || s[0] == c then 0 else 1 + Find(s[1..], c)
  }

  function Split(s: string, c: char): (parts: seq<string>)
    ensures parts != []
    decreases |s|
  {
    var k := Find(s, c);
    if k == |s| then [s] else [s[..k]] + Split(s[k + 1..], c)
  }

  /** One entry, unless it is malformed or has a blank half. */
  function ReadPair(entry: string): Option<Pair> {
    var item := Trim(entry);
    var k := Find(item, '=');
    if k == |item| then None
    else
      var from, to := TrimSlashes(Trim(item[..k])), TrimSlashes(Trim(item[k + 1..]));
      if from == "" || to == "" then None else Some(Pair(from, to))
  }

  /** The usable pairs, as written. */
  function Written(entries: seq<string>): seq<Pair> {
    if entries == [] then []
    else
      var pair := ReadPair(entries[|entries| - 1]);
      Written(entries[..|entries| - 1]) + if pair.Some? then [pair.value] else []
  }

  // -- what was read ----------------------------------------------------------------------

  function Join(parts: seq<string>, c: char): string
    requires parts != []
  {
    if |parts| == 1 then parts[0] else parts[0] + [c] + Join(parts[1..], c)
  }

  /** Splitting loses nothing and leaves no separator inside an entry. */
  lemma {:induction false} SplitIsExact(s: string, c: char)
    ensures Join(Split(s, c), c) == s
    ensures forall i :: 0 <= i < |Split(s, c)| ==> c !in Split(s, c)[i]
    decreases |s|
  {
    var k := Find(s, c);
    if k < |s| {
      SplitIsExact(s[k + 1..], c);
      assert Split(s, c)[1..] == Split(s[k + 1..], c);
      assert s == s[..k] + [c] + s[k + 1..];
    }
  }

  lemma {:induction false} TrimmedSlashes(s: string)
    ensures TrimSlashes(s) <= s
    ensures TrimSlashes(s) == "" || TrimSlashes(s)[|TrimSlashes(s)| - 1] != '/'
  {
    if s != "" && s[|s| - 1] == '/' {
      TrimmedSlashes(s[..|s| - 1]);
    }
  }

  predicate Tidy(p: Pair) {
    p.from != "" && p.from[|p.from| - 1] != '/' && p.to != "" && p.to[|p.to| - 1] != '/'
  }

  lemma ReadPairIsTidy(entry: string)
    ensures ReadPair(entry).Some? ==> Tidy(ReadPair(entry).value)
  {
    var item := Trim(entry);
    var k := Find(item, '=');
    if k < |item| {
      TrimmedSlashes(Trim(item[..k]));
      TrimmedSlashes(Trim(item[k + 1..]));
    }
  }

  /** No half of a usable pair is blank or ends at a separator, so a boundary is always a real one. */
  lemma {:induction false} WrittenPairsAreTidy(entries: seq<string>)
    ensures forall p :: p in Written(entries) ==>
              && p.from != "" && p.from[|p.from| - 1] != '/'
              && p.to != "" && p.to[|p.to| - 1] != '/'
  {
    if entries != [] {
      WrittenPairsAreTidy(entries[..|entries| - 1]);
      ReadPairIsTidy(entries[|entries| - 1]);
      forall p | p in Written(entries) ensures Tidy(p) {}
    }
  }

  /** The characters of Unicode's White_Space property. */
  lemma SpaceIs(c: char)
    ensures IsSpace(c) <==> c in SPACES
  {
    if '\U{9}' <= c <= '\U{D}' {
      assert SPACES[c as int - 9] == c;
    } else if '\U{2000}' <= c <= '\U{200A}' {
      assert SPACES[9 + c as int - 0x2000] == c;
    } else if IsSpace(c) {
      assert SPACES[5] == ' ' && SPACES[6] == '\U{85}' && SPACES[7] == '\U{A0}' && SPACES[8] == '\U{1680}';
      assert SPACES[20] == '\U{2028}' && SPACES[21] == '\U{2029}' && SPACES[22] == '\U{202F}';
      assert SPACES[23] == '\U{205F}' && SPACES[24] == '\U{3000}';
    }
  }

  const SPACES: string :=
    "\U{9}\U{A}\U{B}\U{C}\U{D} \U{85}\U{A0}\U{1680}\U{2000}\U{2001}\U{2002}\U{2003}\U{2004}\U{2005}"
    + "\U{2006}\U{2007}\U{2008}\U{2009}\U{200A}\U{2028}\U{2029}\U{202F}\U{205F}\U{3000}"

  predicate Blank(s: string) { forall i :: 0 <= i < |s| ==> IsSpace(s[i]) }

  predicate AllSlashes(s: string) { forall i :: 0 <= i < |s| ==> s[i] == '/' }

  /** A text that does not end at a separator, and has no space at either end. */
  predicate Bare(s: string) {
    s != "" && !IsSpace(s[0]) && !IsSpace(s[|s| - 1]) && s[|s| - 1] != '/'
  }

  lemma {:induction false} StartTrimmed(pad: string, s: string)
    requires Blank(pad) && s != "" && !IsSpace(s[0])
    ensures TrimStart(pad + s) == s
  {
    if pad == "" {
      assert pad + s == s;
    } else {
      assert (pad + s)[1..] == pad[1..] + s;
      StartTrimmed(pad[1..], s);
    }
  }

  lemma {:induction false} EndTrimmed(s: string, pad: string)
    requires Blank(pad) && s != "" && !IsSpace(s[|s| - 1])
    ensures TrimEnd(s + pad) == s
  {
    if pad == "" {
      assert s + pad == s;
    } else {
      assert (s + pad)[..|s + pad| - 1] == s + pad[..|pad| - 1];
      EndTrimmed(s, pad[..|pad| - 1]);
    }
  }

  lemma Trimmed(pad: string, s: string, pad': string)
    requires Blank(pad) && Blank(pad') && s != "" && !IsSpace(s[0]) && !IsSpace(s[|s| - 1])
    ensures Trim(pad + s + pad') == s
  {
    assert pad + s + pad' == pad + (s + pad');
    StartTrimmed(pad, s + pad');
    EndTrimmed(s, pad');
  }

  lemma {:induction false} SlashesTrimmed(s: string, slashes: string)
    requires AllSlashes(slashes) && s != "" && s[|s| - 1] != '/'
    ensures TrimSlashes(s + slashes) == s
  {
    if slashes == "" {
      assert s + slashes == s;
    } else {
      assert (s + slashes)[..|s + slashes| - 1] == s + slashes[..|slashes| - 1];
      SlashesTrimmed(s, slashes[..|slashes| - 1]);
    }
  }

  lemma {:induction false} FoundAt(s: string, c: char, k: nat)
    requires k < |s| && s[k] == c && forall j :: 0 <= j < k ==> s[j] != c
    ensures Find(s, c) == k
  {
    if k > 0 {
      FoundAt(s[1..], c, k - 1);
    }
  }

  /** One half of an entry, with separators at its end and spaces around it. */
  lemma HalfReads(pad: string, half: string, slashes: string, pad': string)
    requires Blank(pad) && Bare(half) && AllSlashes(slashes) && Blank(pad')
    ensures TrimSlashes(Trim(pad + (half + slashes) + pad')) == half
  {
    assert var s := half + slashes; s[0] == half[0] && s[|s| - 1] == if slashes == "" then half[|half| - 1] else '/';
    Trimmed(pad, half + slashes, pad');
    SlashesTrimmed(half, slashes);
  }

  lemma HalvesFound(front: string, back: string)
    requires forall j :: 0 <= j < |front| ==> front[j] != '='
    ensures var item := front + "=" + back;
      Find(item, '=') == |front| < |item| && item[..|front|] == front && item[|front| + 1..] == back
  {
    FoundAt(front + "=" + back, '=', |front|);
  }

  lemma ItemReads(front: string, back: string, pad: string, pad': string, from: string, to: string)
    requires Blank(pad) && Blank(pad') && forall j :: 0 <= j < |front| ==> front[j] != '='
    requires front != "" && !IsSpace(front[0]) && back != "" && !IsSpace(back[|back| - 1])
    requires TrimSlashes(Trim(front)) == from != "" && TrimSlashes(Trim(back)) == to != ""
    ensures ReadPair(pad + (front + "=" + back) + pad') == Some(Pair(from, to))
  {
    Trimmed(pad, front + "=" + back, pad');
    HalvesFound(front, back);
  }

  /** An entry reads as its pair, whatever spaces stand around its halves and separators at their ends. */
  lemma EntryReads(
    from: string, to: string, pad: string, fromSlashes: string, left: string, right: string, toSlashes: string,
    pad': string)
    requires Bare(from) && Bare(to) && '=' !in from
    requires Blank(pad) && Blank(left) && Blank(right) && Blank(pad')
    requires AllSlashes(fromSlashes) && AllSlashes(toSlashes)
    ensures var front, back := from + fromSlashes + left, right + to + toSlashes;
      ReadPair(pad + (front + "=" + back) + pad') == Some(Pair(from, to))
  {
    var front, back := from + fromSlashes + left, right + to + toSlashes;
    assert front == "" + (from + fromSlashes) + left && back == right + (to + toSlashes) + "";
    HalfReads("", from, fromSlashes, left);
    HalfReads(right, to, toSlashes, "");
    forall j | 0 <= j < |front| ensures front[j] != '=' {
      if j < |from| { assert front[j] == from[j] && from[j] in from; }
    }
    assert front[0] == from[0];
    assert back[|back| - 1] == if toSlashes == "" then to[|to| - 1] else '/';
    ItemReads(front, back, pad, pad', from, to);
  }

  // -- the order --------------------------------------------------------------------------

  predicate LexLess(a: string, b: string) {
    b != "" && (a == "" || a[0] < b[0] || (a[0] == b[0] && LexLess(a[1..], b[1..])))
  }

  /** Longer sources first, then alphabetically. */
  predicate Less(a: string, b: string) { |a| > |b| || (|a| == |b| && LexLess(a, b)) }

  lemma {:induction false} LexLessIsStrict(a: string, b: string, c: string)
    ensures !LexLess(a, a)
    ensures LexLess(a, b) && LexLess(b, c) ==> LexLess(a, c)
    ensures a == b || LexLess(a, b) || LexLess(b, a)
  {
    if a != "" && b != "" {
      LexLessIsStrict(a[1..], b[1..], if c == "" then "" else c[1..]);
      assert a == [a[0]] + a[1..] && b == [b[0]] + b[1..];
    } else if a != "" {
      LexLessIsStrict(a[1..], "", "");
    }
  }

  lemma LessIsStrict(a: string, b: string, c: string)
    ensures !Less(a, a)
    ensures Less(a, b) && Less(b, c) ==> Less(a, c)
    ensures a == b || Less(a, b) || Less(b, a)
  {
    LexLessIsStrict(a, b, c);
    LexLessIsStrict(a, a, a);
  }

  /** The library's stable sort: a pair goes behind every pair it is not strictly before. */
  function Inserted(sorted: seq<Pair>, p: Pair): seq<Pair> {
    if sorted == [] || Less(p.from, sorted[0].from) then [p] + sorted
    else [sorted[0]] + Inserted(sorted[1..], p)
  }

  function SortPairs(pairs: seq<Pair>): seq<Pair> {
    if pairs == [] then [] else Inserted(SortPairs(pairs[..|pairs| - 1]), pairs[|pairs| - 1])
  }

  /** Of neighbours with one source the first stays. */
  function Dedup(pairs: seq<Pair>): seq<Pair>
    decreases |pairs|
  {
    if |pairs| < 2 then pairs
    else if pairs[0].from == pairs[1].from then Dedup([pairs[0]] + pairs[2..])
    else [pairs[0]] + Dedup(pairs[1..])
  }

  /** One turn of the reading loop. */
  method ReadEntry(entry: string) returns (pair: Option<Pair>)
    ensures pair == ReadPair(entry)
  {
    var item := Trim(entry);
    var k := Find(item, '=');
    if item == "" || k == |item| {
      return None;
    }
    var from, to := TrimSlashes(Trim(item[..k])), TrimSlashes(Trim(item[k + 1..]));
    if from == "" || to == "" {
      return None;
    }
    return Some(Pair(from, to));
  }

  lemma WrittenGrows(entries: seq<string>, entry: string)
    ensures Written(entries + [entry]) ==
            if ReadPair(entry).Some? then Written(entries) + [ReadPair(entry).value] else Written(entries)
  {
    assert (entries + [entry])[..|entries|] == entries;
  }

  method Parse(raw: string) returns (pairs: seq<Pair>)
    ensures pairs == Dedup(SortPairs(Written(Split(raw, ','))))
  {
    var entries := Split(raw, ',');
    var written := [];
    for i := 0 to |entries|
      invariant written == Written(entries[..i])
    {
      assert entries[..i + 1] == entries[..i] + [entries[i]];
      WrittenGrows(entries[..i], entries[i]);
      var pair := ReadEntry(entries[i]);
      if pair.Some? {
        written := written + [pair.value];
      }
    }
    assert entries[..|entries|] == entries;
    pairs := Dedup(SortPairs(written));
  }

  // -- the answer -----------------------------------------------------------------------------

  /** The path lies under the source: it is the source, or goes on at a separator. */
  predicate Covers(from: string, path: string) {
    from <= path && (|from| == |path| || path[|from|] == '/')
  }

  /** The path with the covering source replaced. */
  function Translated(p: Pair, path: string): string
    requires Covers(p.from, path)
  {
    p.to + path[|p.from|..]
  }

  function FirstCover(pairs: seq<Pair>, path: string): Option<Pair> {
    if pairs == [] then None
    else if Covers(pairs[0].from, path) then Some(pairs[0])
    else FirstCover(pairs[1..], path)
  }

  /** The reference: scan the pairs as written, changing one's mind only for a longer source. */
  function Best(written: seq<Pair>, path: string): Option<Pair> {
    if written == [] then None
    else
      var earlier, last := Best(written[..|written| - 1], path), written[|written| - 1];
      if Covers(last.from, path) && (earlier.None? || |last.from| > |earlier.value.from|) then Some(last)
      else earlier
  }

  ghost predicate Sorted(s: seq<Pair>) {
    forall i, j :: 0 <= i < j < |s| ==> !Less(s[j].from, s[i].from)
  }

  lemma {:induction false} InsertKeepsOrder(s: seq<Pair>, p: Pair)
    requires Sorted(s)
    ensures Sorted(Inserted(s, p))
    ensures forall q :: q in Inserted(s, p) <==> q in s || q == p
  {
    LessIsStrict(p.from, p.from, p.from);
    if s != [] && !Less(p.from, s[0].from) {
      InsertKeepsOrder(s[1..], p);
      var rest := Inserted(s[1..], p);
      assert s == [s[0]] + s[1..];
      forall j | 0 <= j < |rest|
        ensures !Less(rest[j].from, s[0].from)
      {
        assert rest[j] in rest;
        if rest[j] in s[1..] {
          var k :| 0 <= k < |s| - 1 && s[1..][k] == rest[j];
          assert s[k + 1] == rest[j];
        }
      }
    } else if s != [] {
      forall j | 0 <= j < |s|
        ensures !Less(s[j].from, p.from)
      {
        LessIsStrict(s[j].from, p.from, s[0].from);
        LessIsStrict(s[0].from, s[0].from, s[0].from);
      }
    }
  }

  lemma {:induction false} SortIsSorted(pairs: seq<Pair>)
    ensures Sorted(SortPairs(pairs))
  {
    if pairs != [] {
      SortIsSorted(pairs[..|pairs| - 1]);
      InsertKeepsOrder(SortPairs(pairs[..|pairs| - 1]), pairs[|pairs| - 1]);
    }
  }

  lemma CoversSameLength(a: string, b: string, path: string)
    requires Covers(a, path) && Covers(b, path) && |a| == |b|
    ensures a == b
  {
    assert a == path[..|a|] && b == path[..|b|];
  }

  lemma {:induction false} FirstCoverMeans(s: seq<Pair>, path: string)
    ensures match FirstCover(s, path)
      case None => forall q :: q in s ==> !Covers(q.from, path)
      case Some(p) => p in s && Covers(p.from, path)
  {
    if s != [] {
      FirstCoverMeans(s[1..], path);
      assert s == [s[0]] + s[1..];
    }
  }

  /** Inserting into a sorted list changes the answer just as the scan would. */
  lemma {:induction false} InsertActsAsScan(s: seq<Pair>, p: Pair, path: string)
    requires Sorted(s)
    ensures var was := FirstCover(s, path);
      FirstCover(Inserted(s, p), path) ==
      if Covers(p.from, path) && (was.None? || |p.from| > |was.value.from|) then Some(p) else was
  {
    if s != [] && !Less(p.from, s[0].from) {
      assert Inserted(s, p)[1..] == Inserted(s[1..], p);
      InsertActsAsScan(s[1..], p, path);
    } else {
      assert Inserted(s, p)[1..] == s;
      var was := FirstCover(s, path);
      if s != [] && was.Some? && Covers(p.from, path) {
        FirstCoverMeans(s, path);
        var k :| 0 <= k < |s| && s[k] == was.value;
        LessIsStrict(s[0].from, s[0].from, s[0].from);
        if |p.from| == |was.value.from| {
          CoversSameLength(p.from, was.value.from, path);
        }
      }
    }
  }

  lemma {:induction false} SortedScanIsBest(pairs: seq<Pair>, path: string)
    ensures FirstCover(SortPairs(pairs), path) == Best(pairs, path)
  {
    if pairs != [] {
      SortIsSorted(pairs[..|pairs| - 1]);
      SortedScanIsBest(pairs[..|pairs| - 1], path);
      InsertActsAsScan(SortPairs(pairs[..|pairs| - 1]), pairs[|pairs| - 1], path);
    }
  }

  lemma {:induction false} DedupKeepsAnswers(pairs: seq<Pair>, path: string)
    ensures FirstCover(Dedup(pairs), path) == FirstCover(pairs, path)
    decreases |pairs|
  {
    if |pairs| >= 2 {
      if pairs[0].from == pairs[1].from {
        var shorter := [pairs[0]] + pairs[2..];
        DedupKeepsAnswers(shorter, path);
        assert shorter[1..] == pairs[2..] && pairs[1..][1..] == pairs[2..];
      } else {
        DedupKeepsAnswers(pairs[1..], path);
        assert Dedup(pairs)[1..] == Dedup(pairs[1..]);
      }
    }
  }

  /** Looking a path up in the parsed map gives what scanning the written pairs gives. */
  lemma MapIsBest(written: seq<Pair>, path: string)
    ensures FirstCover(Dedup(SortPairs(written)), path) == Best(written, path)
  {
    DedupKeepsAnswers(SortPairs(written), path);
    SortedScanIsBest(written, path);
  }

  ghost predicate StrictlySorted(s: seq<Pair>) {
    forall i, j :: 0 <= i < j < |s| ==> Less(s[i].from, s[j].from)
  }

  /** In a sorted list equal sources are neighbours, so after deduplication none is left twice. */
  lemma {:induction false} DedupIsStrict(s: seq<Pair>)
    requires Sorted(s)
    ensures StrictlySorted(Dedup(s))
    ensures forall p :: p in Dedup(s) ==> p in s
    ensures s != [] ==> Dedup(s) != [] && Dedup(s)[0] == s[0]
    decreases |s|
  {
    if |s| >= 2 && s[0].from == s[1].from {
      var shorter := [s[0]] + s[2..];
      assert forall i :: 1 <= i < |shorter| ==> shorter[i] == s[i + 1];
      DedupIsStrict(shorter);
      assert forall p :: p in shorter ==> p in s;
    } else if |s| >= 2 {
      var rest := Dedup(s[1..]);
      DedupIsStrict(s[1..]);
      forall j | 0 <= j < |rest|
        ensures Less(s[0].from, rest[j].from)
      {
        assert rest[j] in s[1..];
        var k :| 0 <= k < |s| - 1 && s[1..][k] == rest[j];
        assert s[k + 1] == rest[j] && s[1..][0] == s[1];
        LessIsStrict(s[0].from, s[1].from, rest[j].from);
        LessIsStrict(s[1].from, rest[j].from, rest[j].from);
      }
    }
  }

  /** A parsed map lists each source once, longest first. */
  lemma ParsedSourcesAreDistinct(written: seq<Pair>)
    ensures StrictlySorted(Dedup(SortPairs(written)))
  {
    SortIsSorted(written);
    DedupIsStrict(SortPairs(written));
  }

  // -- what the scan means ---------------------------------------------------------------------

  /** No pair in front of this one has its source. */
  ghost predicate FirstOfItsSource(written: seq<Pair>, i: nat) {
    i < |written| && forall j :: 0 <= j < i ==> written[j].from != written[i].from
  }

  /**
   The scan succeeds exactly when some source covers the path at a component boundary; it takes the
   longest such source, and of the pairs with that source the one written first.
   */
  lemma {:induction false} BestIsLongestThenFirst(written: seq<Pair>, path: string)
    ensures match Best(written, path)
      case None => forall q :: q in written ==> !Under(q.from, path)
      case Some(p) =>
        && Under(p.from, path)
        && (forall q :: q in written && Under(q.from, path) ==> |q.from| <= |p.from|)
        && exists i: nat :: FirstOfItsSource(written, i) && written[i] == p
  {
    forall from { CoversIs(from, path); }
    if written != [] {
      var earlier, last := written[..|written| - 1], written[|written| - 1];
      BestIsLongestThenFirst(earlier, path);
      assert written == earlier + [last];
      if Best(written, path) == Some(last) && Best(earlier, path) != Some(last) {
        assert Covers(last.from, path);
        forall j | 0 <= j < |earlier|
          ensures written[j].from != last.from
        {
          assert earlier[j] in earlier;
        }
        assert FirstOfItsSource(written, |earlier|);
      } else if Best(earlier, path).Some? {
        var i: nat :| FirstOfItsSource(earlier, i) && earlier[i] == Best(earlier, path).value;
        assert FirstOfItsSource(written, i);
      }
    }
  }

  ghost predicate DistinctSources(written: seq<Pair>) {
    forall p, q :: p in written && q in written && p.from == q.from ==> p == q
  }

  predicate Under(from: string, path: string) { path == from || from + "/" <= path }

  /** A source covers itself, and whatever goes on behind it at a separator. */
  lemma CoversIs(from: string, path: string)
    ensures Covers(from, path) <==> Under(from, path)
  {
    if Covers(from, path) && |from| < |path| { assert from + "/" == path[..|from| + 1]; }
    if from + "/" <= path { assert path[|from|] == (from + "/")[|from|]; }
  }

  /** With distinct sources, the order they are written in does not matter. */
  lemma OrderDoesNotMatter(written: seq<Pair>, reordered: seq<Pair>, path: string)
    requires DistinctSources(written) && forall p :: p in written <==> p in reordered
    ensures Best(written, path) == Best(reordered, path)
  {
    BestIsLongestThenFirst(written, path);
    BestIsLongestThenFirst(reordered, path);
    forall from { CoversIs(from, path); }
    var a, b := Best(written, path), Best(reordered, path);
    if a.Some? && b.Some? {
      CoversSameLength(a.value.from, b.value.from, path);
    }
  }

  // -- the lookup ---------------------------------------------------------------------------------

  /** Translates a path by a parsed map. */
  method MapPath(pairs: seq<Pair>, path: string) returns (r: Option<string>)
    ensures var p := FirstCover(pairs, path);
      r == if p.None? then None else (FirstCoverMeans(pairs, path); Some(Translated(p.value, path)))
  {
    for i := 0 to |pairs|
      invariant FirstCover(pairs, path) == FirstCover(pairs[i..], path)
    {
      var from, to := pairs[i].from, pairs[i].to;
      assert pairs[i..][1..] == pairs[i + 1..];
      if from <= path {
        var rest := path[|from|..];
        if rest == "" {
          assert to + rest == to;
          return Some(to);
        }
        if rest[0] == '/' {
          assert to + rest == to + "/" + rest[1..];
          return Some(to + "/" + rest[1..]);
        }
      }
    }
    r := None;
  }

  /** Parsing and looking up, end to end, for every setting and every path. */
  method Translate(raw: string, path: string) returns (r: Option<string>)
    ensures var p := Best(Written(Split(raw, ',')), path);
      r.Some? == p.Some? && (
        p.Some? ==> Under(p.value.from, path) && r == Some(p.value.to + path[|p.value.from|..]))
  {
    var pairs := Parse(raw);
    ghost var written := Written(Split(raw, ','));
    MapIsBest(written, path);
    FirstCoverMeans(pairs, path);
    r := MapPath(pairs, path);
    forall from { CoversIs(from, path); }
  }
}

/**
 `%%KEY/suffix` indirection between settings. Resolution rewrites the map in place, key by key, so a
 chain may run through keys already rewritten; it is proved against what each chain means in the
 original map.
 */
module Indirection {
  import opened Prelude

  type Key = string

  datatype Problem =
    | UnknownIndirection(key: Key, target: Key)
    | IndirectionCycle(chain: seq<Key>)

  predicate IsReference(v: string) { |v| >= 2 && v[..2] == "%%" }

  /** Everything before the first separator, and everything after it (nothing, if there is none). */
  function SplitOnce(s: string): (r: (string, string))
    ensures '/' !in r.0
    ensures s == r.0 + "/" + r.1 || (s == r.0 && r.1 == "")
  {
    if s == "" then ("", "")
    else if s[0] == '/' then ("", s[1..])
    else
      var rest := SplitOnce(s[1..]);
      ([s[0]] + rest.0, rest.1)
  }

  /** A reference is written as its target, and a suffix behind a separator if there is one. */
  lemma {:induction false} SplitUndoesJoin(target: Key, suffix: string)
    requires '/' !in target
    ensures SplitOnce(target + "/" + suffix) == (target, suffix)
    ensures SplitOnce(target) == (target, "")
  {
    if target == "" {
      assert (target + "/" + suffix)[1..] == suffix;
    } else {
      SplitUndoesJoin(target[1..], suffix);
      assert (target + "/" + suffix)[1..] == target[1..] + "/" + suffix;
      assert [target[0]] + target[1..] == target;
    }
  }

  function Target(v: string): Key
    requires IsReference(v)
  {
    SplitOnce(v[2..]).0
  }

  function Suffix(v: string): string
    requires IsReference(v)
  {
    SplitOnce(v[2..]).1
  }

  predicate IsAbsolute(path: string) { path != "" && path[0] == '/' }

  /** Appending to a path: an absolute suffix replaces it, and a separator is added where missing. */
  function Push(path: string, suffix: string): string {
    if IsAbsolute(suffix) then suffix
    else if path == "" || path[|path| - 1] == '/' then path + suffix
    else path + "/" + suffix
  }

  function Extend(path: string, suffix: string): string {
    if suffix == "" then path else Push(path, suffix)
  }

  /** The suffixes met on the way out from a key, appended innermost first. */
  function PushAll(path: string, suffixes: seq<string>): string {
    if suffixes == [] then path else Push(PushAll(path, suffixes[1..]), suffixes[0])
  }

  // -- what a chain means ----------------------------------------------------------------

  /** The value a key stands for, if a literal is at most `n` references away. */
  function Follow(m: map<Key, string>, k: Key, n: nat): Option<string>
    decreases n
  {
    if k !in m then None
    else if !IsReference(m[k]) then Some(m[k])
    else if n == 0 then None
    else
      var inner := Follow(m, Target(m[k]), n - 1);
      if inner.None? then None else Some(Extend(inner.value, Suffix(m[k])))
  }

  /** The value a key stands for: that of the literal its chain reaches, with the suffixes on the way. */
  ghost function Value(m: map<Key, string>, k: Key): Option<string> {
    if exists n: nat :: Follow(m, k, n).Some? then
      var n: nat :| Follow(m, k, n).Some?;
      Follow(m, k, n)
    else None
  }

  lemma {:induction false} FollowIsMonotone(m: map<Key, string>, k: Key, n: nat, n': nat)
    requires n <= n' && Follow(m, k, n).Some?
    ensures Follow(m, k, n') == Follow(m, k, n)
    decreases n
  {
    if IsReference(m[k]) {
      FollowIsMonotone(m, Target(m[k]), n - 1, n' - 1);
    }
  }

  lemma FollowIsValue(m: map<Key, string>, k: Key, n: nat)
    requires Follow(m, k, n).Some?
    ensures Value(m, k) == Follow(m, k, n)
  {
    var n': nat :| Follow(m, k, n').Some? && Value(m, k) == Follow(m, k, n');
    if n <= n' { FollowIsMonotone(m, k, n, n'); } else { FollowIsMonotone(m, k, n', n); }
  }

  function Extended(inner: Option<string>, suffix: string): Option<string> {
    if inner.None? then None else Some(Extend(inner.value, suffix))
  }

  lemma ValueUnfolds(m: map<Key, string>, k: Key)
    ensures Value(m, k) ==
            if k !in m then None
            else if !IsReference(m[k]) then Some(m[k])
            else Extended(Value(m, Target(m[k])), Suffix(m[k]))
  {
    if k in m && !IsReference(m[k]) {
      FollowIsValue(m, k, 0);
    } else if k in m {
      var t := Target(m[k]);
      if Value(m, t).Some? {
        var n: nat :| Follow(m, t, n).Some? && Value(m, t) == Follow(m, t, n);
        assert Follow(m, k, n + 1) == Extended(Value(m, t), Suffix(m[k]));
        FollowIsValue(m, k, n + 1);
      } else {
        forall n: nat
          ensures Follow(m, k, n).None?
        {
          if n > 0 { assert Follow(m, t, n - 1).None?; }
        }
      }
    }
  }

  // -- rewriting one key ------------------------------------------------------------------

  lemma {:induction false} RewriteKeepsReached(m: map<Key, string>, key: Key, v: string, k: Key, n: nat)
    requires Value(m, key) == Some(v) && !IsReference(v) && Follow(m, k, n).Some?
    ensures Follow(m[key := v], k, n) == Follow(m, k, n)
    decreases n
  {
    if k == key {
      FollowIsValue(m, k, n);
    } else if IsReference(m[k]) {
      RewriteKeepsReached(m, key, v, Target(m[k]), n - 1);
    }
  }

  lemma {:induction false} RewriteReachesNoMore(m: map<Key, string>, key: Key, v: string, k: Key, n: nat)
    requires Value(m, key) == Some(v) && !IsReference(v) && Follow(m[key := v], k, n).Some?
    ensures Value(m, k).Some?
    decreases n
  {
    ValueUnfolds(m, k);
    if k != key && IsReference(m[k]) {
      RewriteReachesNoMore(m, key, v, Target(m[k]), n - 1);
    }
  }

  /** Putting a key's own value in its place changes the value of no key. */
  lemma RewriteKeepsValues(m: map<Key, string>, key: Key, v: string, k: Key)
    requires Value(m, key) == Some(v) && !IsReference(v)
    ensures Value(m[key := v], k) == Value(m, k)
  {
    if Value(m, k).Some? {
      var n: nat :| Follow(m, k, n).Some?;
      RewriteKeepsReached(m, key, v, k, n);
      FollowIsValue(m, k, n);
      FollowIsValue(m[key := v], k, n);
    } else if Value(m[key := v], k).Some? {
      var n: nat :| Follow(m[key := v], k, n).Some?;
      RewriteReachesNoMore(m, key, v, k, n);
    }
  }

  // -- chains -------------------------------------------------------------------------------

  predicate Refers(m: map<Key, string>, k: Key, target: Key) {
    k in m && IsReference(m[k]) && Target(m[k]) == target
  }

  /** Each key but the last refers to the next. */
  ghost predicate Chain(m: map<Key, string>, s: seq<Key>) {
    s != [] && forall i :: 0 <= i < |s| - 1 ==> Refers(m, s[i], s[i + 1])
  }

  lemma {:induction false} ChainSharesFate(m: map<Key, string>, s: seq<Key>, i: nat)
    requires Chain(m, s) && i < |s|
    ensures Value(m, s[i]).Some? <==> Value(m, s[|s| - 1]).Some?
    decreases |s| - i
  {
    if i < |s| - 1 {
      assert Refers(m, s[i], s[i + 1]);
      ValueUnfolds(m, s[i]);
      ChainSharesFate(m, s, i + 1);
    }
  }

  lemma {:induction false} ChainCostsLinks(m: map<Key, string>, s: seq<Key>, i: nat, n: nat)
    requires Chain(m, s) && i < |s| && Follow(m, s[i], n).Some?
    ensures n >= |s| - 1 - i && Follow(m, s[|s| - 1], n - (|s| - 1 - i)).Some?
    decreases |s| - i
  {
    if i < |s| - 1 {
      assert Refers(m, s[i], s[i + 1]);
      ChainCostsLinks(m, s, i + 1, n - 1);
    }
  }

  lemma {:induction false} RoundTripReachesNothing(m: map<Key, string>, s: seq<Key>, i: nat, n: nat)
    requires Chain(m, s) && i < |s| - 1 && s[i] == s[|s| - 1]
    ensures Follow(m, s[i], n).None?
    decreases n
  {
    if Follow(m, s[i], n).Some? {
      ChainCostsLinks(m, s, i, n);
      RoundTripReachesNothing(m, s, i, n - (|s| - 1 - i));
    }
  }

  /** What a problem says is so in the original map: the key's chain leaves the map, or meets itself. */
  ghost predicate Explains(m: map<Key, string>, key: Key, p: Problem) {
    match p
    case UnknownIndirection(k, target) =>
      k == key && target !in m && exists s: seq<Key> :: s != [] && s[0] == key && Chain(m, s + [target])
    case IndirectionCycle(chain) =>
      && Chain(m, chain) && chain[0] == key
      && exists i :: 0 <= i < |chain| - 1 && chain[i] == chain[|chain| - 1]
  }

  /** A reported key stands for nothing. */
  lemma ExplainedHasNoValue(m: map<Key, string>, key: Key, p: Problem)
    requires Explains(m, key, p)
    ensures Value(m, key).None?
  {
    match p {
      case UnknownIndirection(_, target) =>
        var s: seq<Key> :| s != [] && s[0] == key && Chain(m, s + [target]);
        ValueUnfolds(m, target);
        ChainSharesFate(m, s + [target], 0);
      case IndirectionCycle(chain) =>
        var i :| 0 <= i < |chain| - 1 && chain[i] == chain[|chain| - 1];
        forall n: nat ensures Follow(m, chain[i], n).None? {
          RoundTripReachesNothing(m, chain, i, n);
        }
        ChainSharesFate(m, chain, 0);
        ChainSharesFate(m, chain, i);
    }
  }

  // -- the loops ------------------------------------------------------------------------------

  lemma {:induction false} PushInnermost(path: string, suffixes: seq<string>, x: string)
    ensures PushAll(path, suffixes + [x]) == PushAll(Push(path, x), suffixes)
  {
    if suffixes == [] {
      assert suffixes + [x] == [x];
    } else {
      assert (suffixes + [x])[1..] == suffixes[1..] + [x];
      PushInnermost(path, suffixes[1..], x);
    }
  }

  method PushEach(path: string, suffixes: seq<string>) returns (resolved: string)
    ensures resolved == PushAll(path, suffixes)
  {
    resolved := path;
    var i := |suffixes|;
    assert suffixes[..i] == suffixes;
    while i > 0
      invariant 0 <= i <= |suffixes|
      invariant PushAll(path, suffixes) == PushAll(resolved, suffixes[..i])
    {
      i := i - 1;
      assert suffixes[..i + 1] == suffixes[..i] + [suffixes[i]];
      PushInnermost(resolved, suffixes[..i], suffixes[i]);
      resolved := Push(resolved, suffixes[i]);
    }
    assert suffixes[..0] == [];
  }

  function PushedOn(inner: Option<string>, suffixes: seq<string>): Option<string> {
    if inner.None? then None else Some(PushAll(inner.value, suffixes))
  }

  lemma PushedOnStep(inner: Option<string>, suffix: string, suffixes: seq<string>)
    ensures PushedOn(Extended(inner, suffix), suffixes)
            == PushedOn(inner, if suffix == "" then suffixes else suffixes + [suffix])
  {
    if inner.Some? && suffix != "" {
      PushInnermost(inner.value, suffixes, suffix);
    }
  }

  lemma ChainGrows(m: map<Key, string>, s: seq<Key>, target: Key)
    requires Chain(m, s) && Refers(m, s[|s| - 1], target)
    ensures Chain(m, s + [target])
  {
    var t := s + [target];
    forall i | 0 <= i < |t| - 1
      ensures Refers(m, t[i], t[i + 1])
    {
      if i < |s| - 1 { assert Refers(m, s[i], s[i + 1]); }
    }
  }

  /** Walks one key's chain in the map as it stands, and rewrites that key or reports why it cannot. */
  method ResolveKey(m: map<Key, string>, key: Key) returns (m': map<Key, string>, problem: Option<Problem>)
    requires key in m
    ensures Value(m, key).Some? ==> problem == None && m' == m[key := Value(m, key).value]
    ensures Value(m, key).None? ==> problem.Some? && Explains(m, key, problem.value) && m' == m
  {
    var seen, current, suffixes: seq<string> := [key], key, [];
    m', problem := m, None;
    while true
      invariant Chain(m, seen) && seen[0] == key && seen[|seen| - 1] == current && current in m
      invariant current == key ==> suffixes == []
      invariant Value(m, key) == PushedOn(Value(m, current), suffixes)
      decreases m.Keys - (set k | k in seen)
    {
      ValueUnfolds(m, current);
      var value := m[current];
      if !IsReference(value) {
        if current != key {
          var resolved := PushEach(value, suffixes);
          m' := m[key := resolved];
        }
        return;
      }
      var target, suffix := Target(value), Suffix(value);
      PushedOnStep(Value(m, target), suffix, suffixes);
      ChainGrows(m, seen, target);
      if suffix != "" {
        suffixes := suffixes + [suffix];
      }
      if target !in m {
        problem := Some(UnknownIndirection(key, target));
        ExplainedHasNoValue(m, key, problem.value);
        return;
      }
      if target in seen {
        var i :| 0 <= i < |seen| && seen[i] == target;
        assert (seen + [target])[i] == target;
        problem := Some(IndirectionCycle(seen + [target]));
        ExplainedHasNoValue(m, key, problem.value);
        return;
      }
      assert (set k | k in seen + [target]) == (set k | k in seen) + {target};
      seen, current := seen + [target], target;
    }
  }

  /** One key put through the loop: its value in its place, or nothing changed. */
  ghost function Resolved(m: map<Key, string>, key: Key): map<Key, string> {
    if Value(m, key).Some? then m[key := Value(m, key).value] else m
  }

  /** Every key put through the loop in turn. */
  ghost function ResolvedAll(m: map<Key, string>, keys: seq<Key>): map<Key, string> {
    if keys == [] then m else Resolved(ResolvedAll(m, keys[..|keys| - 1]), keys[|keys| - 1])
  }

  lemma ResolvedAllGrows(m: map<Key, string>, keys: seq<Key>, key: Key)
    ensures ResolvedAll(m, keys + [key]) == Resolved(ResolvedAll(m, keys), key)
  {
    assert (keys + [key])[..|keys|] == keys;
  }

  /** What the key stands for would itself be read as a reference. */
  ghost predicate IsOdd(m: map<Key, string>, k: Key) {
    Value(m, k).Some? && IsReference(Value(m, k).value)
  }

  /** Read on by its own text or, where that is odd, by what it stands for, a key always comes to a literal. */
  ghost predicate SteadyIn(m: map<Key, string>, k: Key, n: nat)
    decreases n
  {
    && k in m
    && (IsReference(m[k]) ==> n > 0 && SteadyIn(m, Target(m[k]), n - 1))
    && (IsOdd(m, k) ==> n > 0 && SteadyIn(m, Target(Value(m, k).value), n - 1))
  }

  ghost predicate Steady(m: map<Key, string>, k: Key) {
    exists n: nat :: SteadyIn(m, k, n)
  }

  /** A setting that refers to an odd key takes nothing of its text, and does not lose it either. */
  ghost predicate Sound(m: map<Key, string>) {
    forall j, k :: Refers(m, j, k) && IsOdd(m, k) ==> IsAbsolute(Suffix(m[j])) && Steady(m, k)
  }

  /** Simpler to check, and enough: no setting refers to an odd key. */
  ghost predicate Clean(m: map<Key, string>) {
    forall j, k :: Refers(m, j, k) ==> !IsOdd(m, k)
  }

  /** One problem for each key that stands for nothing, in order, and none for any other. */
  ghost predicate Reports(m: map<Key, string>, keys: seq<Key>, errs: seq<Problem>) {
    if keys == [] then errs == []
    else
      var rest, key := keys[..|keys| - 1], keys[|keys| - 1];
      if Value(m, key).Some? then Reports(m, rest, errs)
      else errs != [] && Explains(m, key, errs[|errs| - 1]) && Reports(m, rest, errs[..|errs| - 1])
  }

  /** An order in which the loop may take the keys. */
  ghost predicate Order(m: map<Key, string>, keys: seq<Key>) {
    Distinct(keys) && forall k :: k in keys <==> k in m
  }

  /** As the loop reports it: one problem for each key that stood for nothing when its turn came. */
  ghost predicate ReportsInTurn(m: map<Key, string>, keys: seq<Key>, errs: seq<Problem>) {
    if keys == [] then errs == []
    else
      var rest, key := keys[..|keys| - 1], keys[|keys| - 1];
      var now := ResolvedAll(m, rest);
      if Value(now, key).Some? then ReportsInTurn(m, rest, errs)
      else errs != [] && Explains(now, key, errs[|errs| - 1]) && ReportsInTurn(m, rest, errs[..|errs| - 1])
  }

  /** A half-rewritten map: each text is the original one or what the key stands for. */
  ghost predicate Partly(m: map<Key, string>, original: map<Key, string>) {
    && m.Keys == original.Keys
    && forall k :: k in m ==> m[k] == original[k] || Value(original, k) == Some(m[k])
  }

  /** A steady key reaches a literal however far the rewriting has come. */
  lemma {:induction false} SteadyReaches(m: map<Key, string>, original: map<Key, string>, k: Key, n: nat)
    requires Partly(m, original) && SteadyIn(original, k, n)
    ensures Follow(m, k, n).Some?
    decreases n
  {
    if IsReference(m[k]) {
      SteadyReaches(m, original, Target(m[k]), n - 1);
    }
  }

  /** A key that stands for nothing goes on standing for nothing. */
  lemma {:induction false} NothingReachesNothing(m: map<Key, string>, original: map<Key, string>, k: Key, n: nat)
    requires Partly(m, original) && Value(original, k).None?
    ensures Follow(m, k, n).None?
    decreases n
  {
    ValueUnfolds(original, k);
    if k in m && n > 0 {
      NothingReachesNothing(m, original, Target(m[k]), n - 1);
    }
  }

  lemma AbsoluteReplaces(inner: Option<string>, suffix: string)
    requires inner.Some? && IsAbsolute(suffix)
    ensures Extended(inner, suffix) == Some(suffix)
  {
  }

  /** A key whose text is still its own, or which is not odd, means what it did. */
  lemma {:induction false} StandsForTheSame(m: map<Key, string>, original: map<Key, string>, k: Key, n: nat)
    requires Partly(m, original) && Sound(original) && Follow(original, k, n).Some?
    requires m[k] == original[k] || !IsOdd(original, k)
    ensures Value(m, k) == Value(original, k)
    decreases n
  {
    ValueUnfolds(m, k);
    ValueUnfolds(original, k);
    FollowIsValue(original, k, n);
    if m[k] == original[k] && IsReference(m[k]) {
      var t := Target(m[k]);
      FollowIsValue(original, t, n - 1);
      assert Refers(original, k, t);
      if IsOdd(original, t) {
        var depth: nat :| SteadyIn(original, t, depth);
        SteadyReaches(m, original, t, depth);
        FollowIsValue(m, t, depth);
        AbsoluteReplaces(Value(m, t), Suffix(m[k]));
        AbsoluteReplaces(Value(original, t), Suffix(m[k]));
      } else {
        StandsForTheSame(m, original, t, n - 1);
      }
    }
  }

  lemma UntouchedMeansSame(m: map<Key, string>, original: map<Key, string>, k: Key)
    requires Partly(m, original) && Sound(original) && k in m && m[k] == original[k]
    ensures Value(m, k) == Value(original, k)
  {
    if Value(original, k).Some? {
      var n: nat :| Follow(original, k, n).Some?;
      StandsForTheSame(m, original, k, n);
    } else {
      forall n: nat ensures Follow(m, k, n).None? {
        NothingReachesNothing(m, original, k, n);
      }
    }
  }

  lemma {:induction false} ChainWasThere(m: map<Key, string>, original: map<Key, string>, s: seq<Key>, i: nat)
    requires Partly(m, original) && Chain(m, s) && Value(original, s[0]).None? && i < |s|
    ensures Value(original, s[i]).None?
    ensures i < |s| - 1 ==> Refers(original, s[i], s[i + 1])
  {
    if i > 0 {
      ChainWasThere(m, original, s, i - 1);
      ValueUnfolds(original, s[i - 1]);
    }
    assert i < |s| - 1 ==> Refers(m, s[i], s[i + 1]);
  }

  /** What explains in a half-rewritten map that a key never stood for anything explained it before. */
  lemma ExplanationWasThere(m: map<Key, string>, original: map<Key, string>, key: Key, p: Problem)
    requires Partly(m, original) && Value(original, key).None? && Explains(m, key, p)
    ensures Explains(original, key, p)
  {
    match p {
      case UnknownIndirection(_, target) =>
        var s: seq<Key> :| s != [] && s[0] == key && Chain(m, s + [target]);
        WholeChainWasThere(m, original, s + [target]);
      case IndirectionCycle(chain) =>
        WholeChainWasThere(m, original, chain);
    }
  }

  lemma WholeChainWasThere(m: map<Key, string>, original: map<Key, string>, s: seq<Key>)
    requires Partly(m, original) && Chain(m, s) && Value(original, s[0]).None?
    ensures Chain(original, s)
  {
    forall i | 0 <= i < |s| - 1 ensures Refers(original, s[i], s[i + 1]) {
      ChainWasThere(m, original, s, i);
    }
  }

  /** How far the outer loop has come, after these keys. */
  ghost predicate Upto(m: map<Key, string>, original: map<Key, string>, keys: seq<Key>) {
    && m.Keys == original.Keys
    && forall k :: k in m ==> m[k] == if k in keys then Value(original, k).GetOr(original[k]) else original[k]
  }

  /** With a sound map the rewriting keeps pace with the meaning, and so does what it reports. */
  lemma {:induction false} SoundGoesOn(m: map<Key, string>, keys: seq<Key>)
    requires Sound(m) && Distinct(keys) && forall k :: k in keys ==> k in m
    ensures Upto(ResolvedAll(m, keys), m, keys)
  {
    if keys != [] {
      var rest, key := keys[..|keys| - 1], keys[|keys| - 1];
      assert keys == rest + [key] && key !in rest;
      SoundGoesOn(m, rest);
      UntouchedMeansSame(ResolvedAll(m, rest), m, key);
    }
  }

  lemma SoundTurn(m: map<Key, string>, rest: seq<Key>, key: Key)
    requires Sound(m) && Distinct(rest) && (forall k :: k in rest ==> k in m) && key in m && key !in rest
    ensures Partly(ResolvedAll(m, rest), m) && Value(ResolvedAll(m, rest), key) == Value(m, key)
  {
    SoundGoesOn(m, rest);
    UntouchedMeansSame(ResolvedAll(m, rest), m, key);
  }

  lemma {:induction false} SoundReports(m: map<Key, string>, keys: seq<Key>, errs: seq<Problem>)
    requires Sound(m) && Distinct(keys) && forall k :: k in keys ==> k in m
    requires ReportsInTurn(m, keys, errs)
    ensures Reports(m, keys, errs)
  {
    if keys != [] {
      var rest, key := keys[..|keys| - 1], keys[|keys| - 1];
      assert keys == rest + [key] && key !in rest;
      SoundTurn(m, rest, key);
      if Value(m, key).Some? {
        SoundReports(m, rest, errs);
      } else {
        SoundReports(m, rest, errs[..|errs| - 1]);
        ExplanationWasThere(ResolvedAll(m, rest), m, key, errs[|errs| - 1]);
      }
    }
  }

  lemma SoundResult(m: map<Key, string>, keys: seq<Key>, errs: seq<Problem>)
    requires Order(m, keys) && ReportsInTurn(m, keys, errs)
    ensures Sound(m) ==> Upto(ResolvedAll(m, keys), m, keys) && Reports(m, keys, errs)
  {
    if Sound(m) {
      SoundGoesOn(m, keys);
      SoundReports(m, keys, errs);
    }
  }

  /** One turn of the outer loop, whichever way it goes. */
  lemma TurnReports(m: map<Key, string>, now: map<Key, string>, keys: seq<Key>, errs: seq<Problem>, key: Key)
    requires now == ResolvedAll(m, keys) && ReportsInTurn(m, keys, errs)
    ensures ResolvedAll(m, keys + [key]) == Resolved(now, key)
    ensures if Value(now, key).Some? then ReportsInTurn(m, keys + [key], errs)
            else forall p :: Explains(now, key, p) ==> ReportsInTurn(m, keys + [key], errs + [p])
  {
    assert (keys + [key])[..|keys|] == keys;
    forall p: Problem ensures (errs + [p])[..|errs|] == errs && (errs + [p])[|errs|] == p {}
  }

  method TakeTurn(
    ghost settings: map<Key, string>, ghost done: seq<Key>, now: map<Key, string>, errs: seq<Problem>, key: Key)
    returns (m: map<Key, string>, errs': seq<Problem>)
    requires now == ResolvedAll(settings, done) && ReportsInTurn(settings, done, errs) && key in now
    ensures m == ResolvedAll(settings, done + [key]) && m.Keys == now.Keys
    ensures ReportsInTurn(settings, done + [key], errs')
  {
    TurnReports(settings, now, done, errs, key);
    var problem;
    m, problem := ResolveKey(now, key);
    errs' := if problem.Some? then errs + [problem.value] else errs;
  }

  /**
   In-place resolution. Each key is replaced by what it stands for in the map as it has become, and reported
   where that is nothing; for a sound map, and then for every order of the keys, that is what it stands for in
   the original map, and each key that stands for nothing keeps its text and is reported once.
   */
  method ResolveIndirection(settings: map<Key, string>, keys: seq<Key>)
    returns (m: map<Key, string>, errs: seq<Problem>)
    requires Order(settings, keys)
    ensures m == ResolvedAll(settings, keys) && m.Keys == settings.Keys
    ensures ReportsInTurn(settings, keys, errs)
    ensures Sound(settings) ==> forall k :: k in settings ==> m[k] == Value(settings, k).GetOr(settings[k])
    ensures Sound(settings) ==> Reports(settings, keys, errs)
  {
    m, errs := settings, [];
    for i := 0 to |keys|
      invariant m == ResolvedAll(settings, keys[..i]) && m.Keys == settings.Keys
      invariant ReportsInTurn(settings, keys[..i], errs)
    {
      assert keys[..i + 1] == keys[..i] + [keys[i]];
      m, errs := TakeTurn(settings, keys[..i], m, errs, keys[i]);
    }
    assert keys[..|keys|] == keys;
    SoundResult(settings, keys, errs);
  }

  // -- what the result says ---------------------------------------------------------------------

  /** Resolution succeeds exactly when every chain reaches a literal. */
  lemma {:induction false} NoProblemsMeansAllResolve(m: map<Key, string>, keys: seq<Key>, errs: seq<Problem>)
    requires Reports(m, keys, errs)
    ensures errs == [] <==> forall k :: k in keys ==> Value(m, k).Some?
  {
    if keys != [] {
      var rest, key := keys[..|keys| - 1], keys[|keys| - 1];
      assert forall k :: k in keys <==> k in rest || k == key;
      NoProblemsMeansAllResolve(m, rest, if Value(m, key).Some? then errs else errs[..|errs| - 1]);
    }
  }

  // -- when a value looks like a reference again --------------------------------------------------

  lemma PushReads(path: string, suffix: string)
    requires suffix != ""
    ensures IsReference(Push(path, suffix)) <==>
            !IsAbsolute(suffix) && (IsReference(path) || (path == "" && IsReference(suffix)))
  {
    var p := Push(path, suffix);
    if IsAbsolute(suffix) {
      assert p[0] == '/';
    } else if path == "" {
      assert p == suffix;
    } else if |path| == 1 {
      assert p[0] == path[0] && (path[0] == '/' || p[1] == '/');
    } else {
      assert p[..2] == path[..2];
    }
  }

  /**
   A resolved value reads as a reference exactly when its literal is empty, the first suffix appended
   to it starts with `%%`, and no later suffix is absolute.
   */
  lemma {:induction false} ReadsAsReference(literal: string, suffixes: seq<string>)
    requires !IsReference(literal) && forall i :: 0 <= i < |suffixes| ==> suffixes[i] != ""
    ensures IsReference(PushAll(literal, suffixes)) <==>
            && literal == "" && suffixes != [] && IsReference(suffixes[|suffixes| - 1])
            && forall i :: 0 <= i < |suffixes| - 1 ==> !IsAbsolute(suffixes[i])
  {
    if |suffixes| == 1 {
      PushReads(literal, suffixes[0]);
    } else if suffixes != [] {
      ReadsAsReference(literal, suffixes[1..]);
      var inner := PushAll(literal, suffixes[1..]);
      assert suffixes[1..][|suffixes| - 2] == suffixes[|suffixes| - 1];
      PushAllIsNotEmpty(literal, suffixes[1..]);
      PushReads(inner, suffixes[0]);
      assert forall i :: 1 <= i < |suffixes| - 1 ==> suffixes[i] == suffixes[1..][i - 1];
    }
  }

  lemma PushAllIsNotEmpty(literal: string, suffixes: seq<string>)
    requires suffixes != [] && suffixes[0] != ""
    ensures PushAll(literal, suffixes) != ""
  {}

  /** The literal a key's chain reaches, and the suffixes met on the way, outermost first. */
  function Trail(m: map<Key, string>, k: Key, n: nat): Option<(string, seq<string>)>
    decreases n
  {
    if k !in m then None
    else if !IsReference(m[k]) then Some((m[k], []))
    else if n == 0 then None
    else
      var inner := Trail(m, Target(m[k]), n - 1);
      if inner.None? then None
      else
        var suffix := Suffix(m[k]);
        Some((inner.value.0, (if suffix == "" then [] else [suffix]) + inner.value.1))
  }

  lemma {:induction false} ValueIsTrail(m: map<Key, string>, k: Key, n: nat)
    ensures Follow(m, k, n).Some? <==> Trail(m, k, n).Some?
    ensures var t := Trail(m, k, n);
      t.Some? ==>
      && Follow(m, k, n) == Some(PushAll(t.value.0, t.value.1))
      && !IsReference(t.value.0) && forall i :: 0 <= i < |t.value.1| ==> t.value.1[i] != ""
    decreases n
  {
    if k in m && IsReference(m[k]) && n > 0 {
      ValueIsTrail(m, Target(m[k]), n - 1);
      var inner := Trail(m, Target(m[k]), n - 1);
      if inner.Some? {
        var suffixes := inner.value.1;
        assert [] + suffixes == suffixes && ([Suffix(m[k])] + suffixes)[1..] == suffixes;
      }
    }
  }

  /** The settings that resolution can trip over, told from the chain alone. */
  lemma ReadsAsReferenceExactly(m: map<Key, string>, k: Key, n: nat)
    requires Follow(m, k, n).Some?
    ensures Trail(m, k, n).Some?
    ensures var (literal, suffixes) := Trail(m, k, n).value;
      Value(m, k).Some? &&
      (IsReference(Value(m, k).value) <==>
        && literal == "" && suffixes != [] && IsReference(suffixes[|suffixes| - 1])
        && forall i :: 0 <= i < |suffixes| - 1 ==> !IsAbsolute(suffixes[i]))
  {
    FollowIsValue(m, k, n);
    ValueIsTrail(m, k, n);
    ReadsAsReference(Trail(m, k, n).value.0, Trail(m, k, n).value.1);
  }

  lemma {:induction false} PlainValue(m: map<Key, string>, k: Key, n: nat)
    requires forall j :: j in m && IsReference(m[j]) ==> !IsReference(Suffix(m[j]))
    requires Follow(m, k, n).Some?
    ensures !IsReference(Follow(m, k, n).value)
    decreases n
  {
    if IsReference(m[k]) {
      PlainValue(m, Target(m[k]), n - 1);
      if Suffix(m[k]) != "" {
        PushReads(Follow(m, Target(m[k]), n - 1).value, Suffix(m[k]));
      }
    }
  }

  /** A caller can check this instead: no suffix starts with `%%`. */
  lemma PlainSuffixesAreClean(m: map<Key, string>)
    requires forall k :: k in m && IsReference(m[k]) ==> !IsReference(Suffix(m[k]))
    ensures Clean(m) && Sound(m)
  {
    forall j, k | Refers(m, j, k) && Value(m, k).Some?
      ensures !IsReference(Value(m, k).value)
    {
      var n: nat :| Follow(m, k, n).Some?;
      FollowIsValue(m, k, n);
      PlainValue(m, k, n);
    }
  }

  lemma ReadReferences()
    ensures IsReference("%%A/%%C") && Target("%%A/%%C") == "A" && Suffix("%%A/%%C") == "%%C"
    ensures IsReference("%%B") && Target("%%B") == "B" && Suffix("%%B") == ""
    ensures IsReference("%%C") && Target("%%C") == "C"
  {
    SplitUndoesJoin("A", "%%C");
    SplitUndoesJoin("B", "");
    SplitUndoesJoin("C", "");
    assert "%%A/%%C"[2..] == "A" + "/" + "%%C" && "%%B"[2..] == "B" && "%%C"[2..] == "C";
  }

  /** A text that names no key stands for nothing once it is read as a reference. */
  lemma NamesNoKey(m: map<Key, string>, k: Key)
    requires k in m && IsOdd(m, k) && Target(Value(m, k).value) !in m
    ensures Value(Resolved(m, k), k).None?
  {
    ValueUnfolds(Resolved(m, k), k);
    ValueUnfolds(Resolved(m, k), Target(Value(m, k).value));
  }

  /**
   For every map: where one key refers to an odd one, resolving it after the odd key gives what reading the
   odd key's text again gives, so it goes wrong exactly when that is something else, and it is lost when
   that is nothing. Resolving it first always gives its value.
   */
  lemma OrderDecides(m: map<Key, string>, j: Key, k: Key)
    requires Refers(m, j, k) && j != k && k in m && IsOdd(m, k)
    ensures Value(m, j).Some? && Resolved(Resolved(m, j), k)[j] == Value(m, j).value
    ensures Value(Resolved(m, k), j) == Extended(Value(Resolved(m, k), k), Suffix(m[j]))
    ensures Value(Resolved(m, k), j) == Value(m, j) <==>
            Extended(Value(Resolved(m, k), k), Suffix(m[j])) == Extended(Value(m, k), Suffix(m[j]))
    ensures Value(Resolved(m, k), k).None? ==>
            Value(Resolved(m, k), j).None? && Resolved(Resolved(m, k), j)[j] == m[j]
  {
    ValueUnfolds(m, j);
    ValueUnfolds(Resolved(m, k), j);
  }

  lemma {:induction false} LaterKeysLeave(m: map<Key, string>, done: seq<Key>, rest: seq<Key>, j: Key)
    requires j in m && j !in rest
    ensures j in ResolvedAll(m, done) && j in ResolvedAll(m, done + rest)
    ensures ResolvedAll(m, done + rest)[j] == ResolvedAll(m, done)[j]
  {
    ResolvedAllKeepsKeys(m, done);
    if rest == [] {
      assert done + rest == done;
    } else {
      assert (done + rest)[..|done + rest| - 1] == done + rest[..|rest| - 1];
      LaterKeysLeave(m, done, rest[..|rest| - 1], j);
    }
  }

  lemma {:induction false} ResolvedAllKeepsKeys(m: map<Key, string>, keys: seq<Key>)
    ensures m.Keys <= ResolvedAll(m, keys).Keys
  {
    if keys != [] {
      ResolvedAllKeepsKeys(m, keys[..|keys| - 1]);
    }
  }

  lemma ResolvedOne(m: map<Key, string>, k: Key)
    ensures ResolvedAll(m, [k]) == Resolved(m, k)
  {
    assert [k][..0] == [];
  }

  /**
   Of whole runs: with the referring key first the result is right whatever follows; with the odd key first
   it is what reading that key's text again gives, or the setting as it was where that is nothing.
   */
  lemma OrderShows(m: map<Key, string>, j: Key, k: Key, rest: seq<Key>)
    requires Refers(m, j, k) && j != k && k in m && IsOdd(m, k) && j !in rest
    ensures var first, second := ResolvedAll(m, [j] + rest), ResolvedAll(m, [k, j] + rest);
      && j in first && Some(first[j]) == Value(m, j)
      && j in second && second[j] == Extended(Value(Resolved(m, k), k), Suffix(m[j])).GetOr(m[j])
  {
    OrderDecides(m, j, k);
    ResolvedOne(m, j);
    ResolvedOne(m, k);
    assert [k, j][..1] == [k];
    LaterKeysLeave(m, [j], rest, j);
    LaterKeysLeave(m, [k, j], rest, j);
  }

  /**
   In an unsound map the order of the keys shows: resolved first, `B` reads as a reference to a
   key that is not there, and `D` is then reported although it had a value.
   */
  lemma OrderShowsWhenUnsound()
    ensures var m := map["A" := "", "B" := "%%A/%%C", "D" := "%%B"];
      && Value(m, "B") == Value(m, "D") == Some("%%C") && !Sound(m)
      && Value(m["B" := "%%C"], "D") == None
  {
    ReadReferences();
    var m := map["A" := "", "B" := "%%A/%%C", "D" := "%%B"];
    ValueUnfolds(m, "A");
    ValueUnfolds(m, "B");
    ValueUnfolds(m, "D");
    assert Push("", "%%C") == "%%C";
    assert Refers(m, "D", "B");
    var m' := m["B" := "%%C"];
    ValueUnfolds(m', "C");
    ValueUnfolds(m', "B");
    ValueUnfolds(m', "D");
  }
}

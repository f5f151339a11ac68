/** Exactly which maps of settings are resolved alike in every order of their keys. */
module IndirectionOrder {
  import opened Prelude
  import opened Indirection

  /**
   The result says what each key stands for in the original map, exactly the keys that stand for nothing are
   reported, and what is reported of them is true of the original map.
   */
  ghost predicate Right(m: map<Key, string>, keys: seq<Key>) {
    var end := ResolvedAll(m, keys);
    && end.Keys == m.Keys
    && (forall k :: k in m ==> end[k] == Value(m, k).GetOr(m[k]))
    && (forall i :: 0 <= i < |keys| ==> (Value(ResolvedAll(m, keys[..i]), keys[i]).None? <==> Value(m, keys[i]).None?))
    && (forall errs :: ReportsInTurn(m, keys, errs) ==> Reports(m, keys, errs))
  }

  ghost predicate EveryOrderIsRight(m: map<Key, string>) {
    forall keys :: Order(m, keys) ==> Right(m, keys)
  }

  lemma SoundIsRight(m: map<Key, string>, keys: seq<Key>)
    requires Sound(m) && Order(m, keys)
    ensures Right(m, keys)
  {
    SoundGoesOn(m, keys);
    forall i | 0 <= i < |keys|
      ensures Value(ResolvedAll(m, keys[..i]), keys[i]).None? <==> Value(m, keys[i]).None?
    {
      SoundTurn(m, keys[..i], keys[i]);
    }
    forall errs | ReportsInTurn(m, keys, errs) ensures Reports(m, keys, errs) {
      SoundReports(m, keys, errs);
    }
  }

  lemma {:induction false} SomeOrder(keys: set<Key>) returns (order: seq<Key>)
    ensures Distinct(order) && forall k :: k in order <==> k in keys
  {
    if keys == {} {
      order := [];
    } else {
      var k :| k in keys;
      var rest := SomeOrder(keys - {k});
      order := rest + [k];
    }
  }

  /** Any keys may come first. */
  lemma OrderGoesOn(m: map<Key, string>, done: seq<Key>) returns (rest: seq<Key>)
    requires Distinct(done) && forall k :: k in done ==> k in m
    ensures Order(m, done + rest)
  {
    rest := SomeOrder(m.Keys - (set k | k in done));
    var all := done + rest;
    forall i, j | 0 <= i < j < |all| ensures all[i] != all[j] {
      if i < |done| <= j { assert all[i] in done && all[j] in rest; }
    }
  }

  lemma OrderThrough(m: map<Key, string>, done: seq<Key>, j: Key) returns (keys: seq<Key>, rest: seq<Key>)
    requires Distinct(done) && (forall k :: k in done ==> k in m) && j in m && j !in done
    ensures Order(m, keys) && keys == (done + [j]) + rest && j !in rest
    ensures keys[..|done|] == done && keys[|done|] == j
  {
    var upto := done + [j];
    rest := OrderGoesOn(m, upto);
    keys := upto + rest;
    assert forall i :: 0 <= i < |rest| ==> rest[i] == keys[|upto| + i] != keys[|done|];
  }

  lemma RightTurn(m: map<Key, string>, keys: seq<Key>, done: seq<Key>, j: Key, rest: seq<Key>)
    requires Right(m, keys) && keys == (done + [j]) + rest && j !in rest && j in m
    requires keys[..|done|] == done && keys[|done|] == j
    ensures Value(ResolvedAll(m, done), j) == Value(m, j)
  {
    ResolvedAllGrows(m, done, j);
    LaterKeysLeave(m, done + [j], rest, j);
  }

  /** If every order is right, a key whose turn comes still stands for what it did. */
  lemma TurnIsRight(m: map<Key, string>, done: seq<Key>, j: Key)
    requires EveryOrderIsRight(m) && Distinct(done) && (forall k :: k in done ==> k in m) && j in m && j !in done
    ensures Value(ResolvedAll(m, done), j) == Value(m, j)
  {
    var keys, rest := OrderThrough(m, done, j);
    RightTurn(m, keys, done, j, rest);
  }

  lemma {:induction false} TextsAreRight(m: map<Key, string>, done: seq<Key>)
    requires EveryOrderIsRight(m) && Distinct(done) && forall k :: k in done ==> k in m
    ensures Upto(ResolvedAll(m, done), m, done)
  {
    if done != [] {
      var rest, key := done[..|done| - 1], done[|done| - 1];
      assert done == rest + [key] && key !in rest;
      TextsAreRight(m, rest);
      TurnIsRight(m, rest, key);
    }
  }

  lemma LoopReachesNothing(m: map<Key, string>, s: seq<Key>, t: Key)
    requires Chain(m, s + [t]) && s != [] && t in s
    ensures Value(m, s[0]).None?
  {
    var i :| 0 <= i < |s| && s[i] == t;
    assert (s + [t])[i] == t;
    ExplainedHasNoValue(m, s[0], IndirectionCycle(s + [t]));
  }

  // -- a text that reads back as itself

  function Slashed(path: string): string {
    if path == "" || path[|path| - 1] == '/' then path else path + "/"
  }

  predicate UpToASlash(a: string, b: string) { a == b || a + "/" == b || a == b + "/" }

  /** A suffix that does not replace the path tells paths apart, up to one separator at their end. */
  lemma ExtendTellsApart(a: string, b: string, suffix: string)
    requires !IsAbsolute(suffix) && Extend(a, suffix) == Extend(b, suffix)
    ensures UpToASlash(a, b)
  {
    if suffix != "" {
      assert Slashed(a) + suffix == Slashed(b) + suffix;
      assert (Slashed(a) + suffix)[..|Slashed(a)|] == Slashed(a);
      assert (Slashed(b) + suffix)[..|Slashed(b)|] == Slashed(b);
    }
  }

  lemma ReferenceText(v: string)
    requires IsReference(v)
    ensures '/' !in Target(v)
    ensures v == "%%" + Target(v) + "/" + Suffix(v) || (v == "%%" + Target(v) && Suffix(v) == "")
  {
    assert v == "%%" + v[2..];
  }

  lemma ReferenceTo(t: Key, tail: string)
    requires '/' !in t && (tail == "" || tail[0] == '/')
    ensures IsReference("%%" + t + tail) && Target("%%" + t + tail) == t
  {
    assert ("%%" + t + tail)[2..] == t + tail && ("%%" + t + tail)[..2] == "%%";
    assert tail == "" ==> t + tail == t;
    if tail == "" {
      SplitUndoesJoin(t, "");
    } else {
      SplitUndoesJoin(t, tail[1..]);
      assert t + tail == t + "/" + tail[1..];
    }
  }

  lemma SuffixIsNotAbsolute(v: string, u: string)
    requires IsReference(v) && UpToASlash(Extend(u, Suffix(v)), v)
    ensures !IsAbsolute(Suffix(v))
  {
    var w := Extend(u, Suffix(v));
    assert v[..2][0] == v[0] == '%';
    assert w != "" ==> w[0] == (w + "/")[0] == v[0] == (v + "/")[0];
  }

  /** Where the text behind a reference, extended by its suffix, is the reference itself, it names its own key. */
  lemma ReadsBackAsItself(v: string, u: string)
    requires IsReference(v) && UpToASlash(Extend(u, Suffix(v)), v)
    ensures IsReference(u) && Target(u) == Target(v)
  {
    SuffixIsNotAbsolute(v, u);
    ReferenceText(v);
    if Suffix(v) == "" {
      BareText(u, Target(v), v);
    } else {
      SuffixedText(u, Target(v), Suffix(v), v);
    }
  }

  /** In front of its first separator a reference has none. */
  lemma HeadHasNoSlash(t: Key, tail: string, i: nat)
    requires '/' !in t && i < |t| + 2
    ensures ("%%" + t + tail)[i] != '/'
  {
    assert ("%%" + t + tail)[i] == if i < 2 then '%' else t[i - 2];
  }

  lemma BareText(u: string, t: Key, v: string)
    requires '/' !in t && (v == "%%" + t || v == "%%" + t + "/") && UpToASlash(u, v)
    ensures IsReference(u) && Target(u) == t
  {
    ReferenceTo(t, "");
    ReferenceTo(t, "/");
    ReferenceTo(t, "//");
    HeadHasNoSlash(t, "", |t| + 1);
    assert "%%" + t + "" == "%%" + t && "%%" + t + "/" + "/" == "%%" + t + "//";
    assert (u + "/")[..|u|] == u && (u + "/")[|u|] == '/';
    assert ("%%" + t + "/")[..|t| + 2] == "%%" + t;
  }

  /** With the same suffix behind them, only texts of one length agree, even up to a separator. */
  lemma SameLength(a: string, t: Key, suffix: string)
    requires '/' !in t && suffix != "" && !IsAbsolute(suffix) && (a == "" || a[|a| - 1] == '/')
    requires UpToASlash(a + suffix, "%%" + t + "/" + suffix)
    ensures a == "%%" + t + "/"
  {
    var head, w, v := "%%" + t + "/", a + suffix, "%%" + t + "/" + suffix;
    HeadHasNoSlash(t, "/" + suffix, |t| + 1);
    assert v == "%%" + t + ("/" + suffix);
    assert (v + "/")[|head|] == suffix[0];
    assert a != "" ==> w[|a| - 1] == (w + "/")[|a| - 1] == '/';
    assert w[..|a|] == a && v[..|head|] == head;
  }

  lemma SuffixedText(u: string, t: Key, suffix: string, v: string)
    requires '/' !in t && suffix != "" && !IsAbsolute(suffix) && v == "%%" + t + "/" + suffix
    requires UpToASlash(Extend(u, suffix), v)
    ensures IsReference(u) && Target(u) == t
  {
    assert Extend(u, suffix) == Slashed(u) + suffix;
    SameLength(Slashed(u), t, suffix);
    ReferenceTo(t, "");
    ReferenceTo(t, "/");
    assert "%%" + t + "" == "%%" + t;
    assert (u + "/")[..|u|] == u && ("%%" + t + "/")[..|t| + 2] == "%%" + t;
  }

  // -- what right orders need

  /** If every order is right, a setting takes nothing of an odd key's text. */
  lemma RightNeedsAbsolute(m: map<Key, string>, j: Key, k: Key)
    requires EveryOrderIsRight(m) && Refers(m, j, k) && IsOdd(m, k)
    ensures IsAbsolute(Suffix(m[j]))
  {
    if !IsAbsolute(Suffix(m[j])) {
      ValueUnfolds(m, j);
      ValueUnfolds(m, k);
      assert j != k by { if j == k { assert Chain(m, [k] + [k]); LoopReachesNothing(m, [k], k); } }
      var t := ReadBack(m, j, k);
      ThreeKeys(m, j, k, t);
    }
  }

  /** With the odd key resolved first, its text has to read back as itself, and then its target names itself. */
  lemma ReadBack(m: map<Key, string>, j: Key, k: Key) returns (t: Key)
    requires EveryOrderIsRight(m) && Refers(m, j, k) && k in m && j != k && IsOdd(m, k) && !IsAbsolute(Suffix(m[j]))
    ensures t == Target(Value(m, k).value) && t in m && t != j && t != k
    ensures IsOdd(m, t) && Target(Value(m, t).value) == t
  {
    var v, m' := Value(m, k).value, ResolvedAll(m, [k]);
    t := Target(v);
    TextsAreRight(m, [k]);
    TurnIsRight(m, [k], j);
    ValueUnfolds(m, j);
    ValueUnfolds(m', j);
    ValueUnfolds(m', k);
    ValueUnfolds(m', t);
    assert m'[k] == v && m'[j] == m[j];
    ExtendTellsApart(Value(m', k).value, v, Suffix(m[j]));
    ReadsBackAsItself(v, Value(m', t).value);
    assert t != k by { if t == k { assert Chain(m', [k] + [k]); LoopReachesNothing(m', [k], k); } }
    assert t != j by { if t == j { assert Chain(m', [j, k] + [j]); LoopReachesNothing(m', [j, k], j); } }
    TurnIsRight(m, [k], t);
  }

  /** Resolved after the target, which then refers to itself, and after the odd key, the setting is lost. */
  lemma ThreeKeys(m: map<Key, string>, j: Key, k: Key, t: Key)
    requires EveryOrderIsRight(m) && Refers(m, j, k) && k in m && IsOdd(m, k) && j != k
    requires t == Target(Value(m, k).value) && t in m && t != j && t != k
    requires IsOdd(m, t)
    ensures Target(Value(m, t).value) != t
  {
    if Target(Value(m, t).value) == t {
      var m' := ResolvedAll(m, [t, k]);
      TextsAreRight(m, [t, k]);
      TurnIsRight(m, [t, k], j);
      ValueUnfolds(m, j);
      assert m'[t] == Value(m, t).value && m'[k] == Value(m, k).value && m'[j] == m[j];
      assert Chain(m', [j, k, t] + [t]);
      LoopReachesNothing(m', [j, k, t], t);
    }
  }

  lemma {:induction false} SteadyStays(m: map<Key, string>, k: Key, n: nat, n': nat)
    requires n <= n' && SteadyIn(m, k, n)
    ensures SteadyIn(m, k, n')
    decreases n
  {
    if IsReference(m[k]) { SteadyStays(m, Target(m[k]), n - 1, n' - 1); }
    if IsOdd(m, k) { SteadyStays(m, Target(Value(m, k).value), n - 1, n' - 1); }
  }

  /** A key from which both ways on are steady is steady. */
  lemma SteadyStep(m: map<Key, string>, k: Key)
    requires k in m
    requires IsReference(m[k]) ==> Steady(m, Target(m[k]))
    requires IsOdd(m, k) ==> Steady(m, Target(Value(m, k).value))
    ensures Steady(m, k)
  {
    var a: nat, b: nat := 0, 0;
    if IsReference(m[k]) { a :| SteadyIn(m, Target(m[k]), a); }
    if IsOdd(m, k) { b :| SteadyIn(m, Target(Value(m, k).value), b); }
    var n := a + b;
    if IsReference(m[k]) { SteadyStays(m, Target(m[k]), a, n); }
    if IsOdd(m, k) { SteadyStays(m, Target(Value(m, k).value), b, n); }
    assert SteadyIn(m, k, n + 1);
  }

  /**
   A walk from the odd key `k`, which `j` refers to: along it the keys in `done` have been resolved and are
   left by what they stood for, the others are left by their own text.
   */
  ghost predicate Walk(m: map<Key, string>, j: Key, k: Key, done: seq<Key>, s: seq<Key>) {
    && s != [] && Refers(m, j, k) && Value(m, j).Some? && j !in done
    && Distinct(done) && (forall x :: x in done ==> x in m && x in s[..|s| - 1])
    && s[0] == k && Distinct(s) && Chain(ResolvedAll(m, done), s)
  }

  /** The walk has come to a key, and its turn is still to come. */
  lemma WalkReaches(m: map<Key, string>, j: Key, k: Key, done: seq<Key>, s: seq<Key>)
    requires EveryOrderIsRight(m) && Walk(m, j, k, done, s)
    ensures var now, x := ResolvedAll(m, done), s[|s| - 1];
      && Value(now, k).Some? && x in m && x in now && x !in done && now[x] == m[x] && Value(m, x).Some?
  {
    var now, x := ResolvedAll(m, done), s[|s| - 1];
    TextsAreRight(m, done);
    TurnIsRight(m, done, j);
    ValueUnfolds(now, j);
    ChainSharesFate(now, s, 0);
    ValueUnfolds(now, x);
    assert forall i :: 0 <= i < |s| - 1 ==> s[i] != x;
    TurnIsRight(m, done, x);
  }

  /** What lies behind the walk stays as it was when its last key is resolved too. */
  lemma ChainStays(m: map<Key, string>, done: seq<Key>, done': seq<Key>, s: seq<Key>)
    requires EveryOrderIsRight(m) && Distinct(done) && Distinct(done')
    requires (forall x :: x in done ==> x in m) && (forall x :: x in done' ==> x in m)
    requires s != [] && Distinct(s) && Chain(ResolvedAll(m, done), s)
    requires done' == done || done' == done + [s[|s| - 1]]
    ensures Chain(ResolvedAll(m, done'), s)
  {
    TextsAreRight(m, done);
    TextsAreRight(m, done');
    forall i | 0 <= i < |s| - 1 ensures Refers(ResolvedAll(m, done'), s[i], s[i + 1]) {
      assert Refers(ResolvedAll(m, done), s[i], s[i + 1]);
      assert s[i] != s[|s| - 1];
    }
  }

  lemma WalkGoesOn(m: map<Key, string>, j: Key, k: Key, done: seq<Key>, s: seq<Key>, done': seq<Key>, y: Key)
    requires EveryOrderIsRight(m) && Walk(m, j, k, done, s)
    requires var x := s[|s| - 1];
      x in m && x !in done && (done' == done || (done' == done + [x] && x != j))
    requires Refers(ResolvedAll(m, done'), s[|s| - 1], y)
    ensures Walk(m, j, k, done', s + [y])
  {
    assert (s + [y])[..|s|] == s;
    assert s == s[..|s| - 1] + [s[|s| - 1]];
    ChainStays(m, done, done', s);
    ChainGrows(ResolvedAll(m, done'), s, y);
    NoWayBack(m, j, k, done', s, y);
  }

  lemma NoWayBack(m: map<Key, string>, j: Key, k: Key, done: seq<Key>, s: seq<Key>, y: Key)
    requires EveryOrderIsRight(m) && Refers(m, j, k) && Value(m, j).Some? && j !in done
    requires Distinct(done) && (forall x :: x in done ==> x in m)
    requires s != [] && s[0] == k && Chain(ResolvedAll(m, done), s + [y])
    ensures y !in s
  {
    if y in s {
      var now := ResolvedAll(m, done);
      TextsAreRight(m, done);
      TurnIsRight(m, done, j);
      ValueUnfolds(now, j);
      LoopReachesNothing(now, s, y);
    }
  }

  /** The keys a walk has not left yet. */
  function Ahead(m: map<Key, string>, s: seq<Key>): set<Key> {
    set x | x in m && x !in s
  }

  lemma AheadShrinks(m: map<Key, string>, s: seq<Key>)
    requires s != [] && Distinct(s) && s[|s| - 1] in m
    ensures Ahead(m, s) < Ahead(m, s[..|s| - 1])
  {
    var front, x := s[..|s| - 1], s[|s| - 1];
    assert s == front + [x];
    assert x in Ahead(m, front) && x !in Ahead(m, s);
  }

  /** A key on the walk that is left by its own text, or is odd and left by what it stands for. */
  lemma WalkBranches(m: map<Key, string>, j: Key, k: Key, done: seq<Key>, s: seq<Key>)
    requires EveryOrderIsRight(m) && Walk(m, j, k, done, s) && !IsOdd(m, j)
    ensures var x := s[|s| - 1];
      && x in m && Ahead(m, s) < Ahead(m, s[..|s| - 1])
      && (IsReference(m[x]) ==> Walk(m, j, k, done, s + [Target(m[x])]))
      && (IsOdd(m, x) ==> Walk(m, j, k, done + [x], s + [Target(Value(m, x).value)]))
  {
    var x := s[|s| - 1];
    WalkReaches(m, j, k, done, s);
    AheadShrinks(m, s);
    if IsReference(m[x]) {
      WalkGoesOn(m, j, k, done, s, done, Target(m[x]));
    }
    if IsOdd(m, x) {
      TextsAreRight(m, done + [x]);
      WalkGoesOn(m, j, k, done, s, done + [x], Target(Value(m, x).value));
    }
  }

  /** If every order is right, every walk from an odd key that is referred to ends at a literal. */
  lemma {:induction false} WalkIsSteady(m: map<Key, string>, j: Key, k: Key, done: seq<Key>, s: seq<Key>)
    requires EveryOrderIsRight(m) && Walk(m, j, k, done, s) && !IsOdd(m, j)
    ensures Steady(m, s[|s| - 1])
    decreases Ahead(m, s[..|s| - 1])
  {
    var x := s[|s| - 1];
    WalkBranches(m, j, k, done, s);
    if IsReference(m[x]) {
      var y := Target(m[x]);
      assert (s + [y])[..|s|] == s;
      WalkIsSteady(m, j, k, done, s + [y]);
    }
    if IsOdd(m, x) {
      var y := Target(Value(m, x).value);
      assert (s + [y])[..|s|] == s;
      WalkIsSteady(m, j, k, done + [x], s + [y]);
    }
    SteadyStep(m, x);
  }

  lemma RightNeedsSteady(m: map<Key, string>, j: Key, k: Key)
    requires EveryOrderIsRight(m) && Refers(m, j, k) && IsOdd(m, k)
    ensures Steady(m, k)
  {
    RightNeedsAbsolute(m, j, k);
    ValueUnfolds(m, j);
    AbsoluteReplaces(Value(m, k), Suffix(m[j]));
    assert Chain(m, [k]);
    WalkIsSteady(m, j, k, [], [k]);
  }

  /**
   For every map: every order of the keys gives the meaning and the reports of the original map exactly when
   the map is sound.
   */
  lemma EveryOrderIsRightExactly(m: map<Key, string>)
    ensures EveryOrderIsRight(m) <==> Sound(m)
  {
    if Sound(m) {
      forall keys | Order(m, keys) ensures Right(m, keys) {
        SoundIsRight(m, keys);
      }
    }
    if EveryOrderIsRight(m) {
      forall j, k | Refers(m, j, k) && IsOdd(m, k)
        ensures IsAbsolute(Suffix(m[j])) && Steady(m, k)
      {
        RightNeedsAbsolute(m, j, k);
        RightNeedsSteady(m, j, k);
      }
    }
  }

  /** Where no setting refers to an odd key with an absolute suffix, only a clean map will do. */
  lemma PlainReferencesNeedClean(m: map<Key, string>)
    requires forall j, k :: Refers(m, j, k) && IsOdd(m, k) ==> !IsAbsolute(Suffix(m[j]))
    ensures EveryOrderIsRight(m) <==> Clean(m)
  {
    EveryOrderIsRightExactly(m);
  }
}

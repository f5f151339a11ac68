/**
 The provider-token cache shared by every push task. One call is one critical section, so an
 interleaving of any number of tasks is a sequence of calls, and a theorem about every sequence is a
 theorem about every interleaving.

 A signed token is known by its serial number: signing never produces the same string twice.
 */
module ProviderToken {
  import opened Prelude

  const REMINT_AFTER_MS := 50 * 60 * 1_000
  const I64_MAX := 0x7fff_ffff_ffff_ffff

  type Bearer = nat

  datatype Cached = Cached(bearer: Bearer, mintedAt: int)

  datatype Cache = Cache(cached: Option<Cached>, minted: nat)

  /** One critical section, with the clock readings and the signing result it meets. */
  datatype Call =
    | Get(checkedAt: int, mintedAt: int, signs: bool)
    | RemintIfCurrent(used: Bearer, mintedAt: int, signs: bool)

  const EMPTY := Cache(None, 0)

  predicate Fresh(c: Cached, now: int) {
    now >= c.mintedAt && Min(now - c.mintedAt, I64_MAX) < REMINT_AFTER_MS
  }

  /** Whether this call goes on to sign a token. */
  predicate Signs(c: Cache, call: Call) {
    match call
    case Get(checkedAt, _, _) => !(c.cached.Some? && Fresh(c.cached.value, checkedAt))
    case RemintIfCurrent(used, _, _) => !(c.cached.Some? && c.cached.value.bearer != used)
  }

  function Step(c: Cache, call: Call): Cache {
    if Signs(c, call) && call.signs then Cache(Some(Cached(c.minted, call.mintedAt)), c.minted + 1) else c
  }

  /** The token handed back; `None` is a signing error. */
  function Reply(c: Cache, call: Call): Option<Bearer> {
    if Signs(c, call) && !call.signs then None
    else if Step(c, call).cached.Some? then Some(Step(c, call).cached.value.bearer)
    else None
  }

  function RunFrom(c: Cache, calls: seq<Call>): Cache {
    if calls == [] then c else Step(RunFrom(c, calls[..|calls| - 1]), calls[|calls| - 1])
  }

  function Run(calls: seq<Call>): Cache { RunFrom(EMPTY, calls) }

  // -- the story of a run -------------------------------------------------------------

  /** The rejected tokens that a remint replaced, in the order they were replaced. */
  function Retired(calls: seq<Call>): seq<Bearer> {
    if calls == [] then []
    else
      var earlier, call := calls[..|calls| - 1], calls[|calls| - 1];
      if call.RemintIfCurrent? && Signs(Run(earlier), call) && call.signs
      then Retired(earlier) + [call.used] else Retired(earlier)
  }

  /** How many mints were due to the cached token's age, or to an empty cache. */
  function AgeMints(calls: seq<Call>): nat {
    if calls == [] then 0
    else
      var earlier, call := calls[..|calls| - 1], calls[|calls| - 1];
      AgeMints(earlier) + if call.Get? && Signs(Run(earlier), call) && call.signs then 1 else 0
  }

  function Reported(calls: seq<Call>): set<Bearer> {
    set call | call in calls && call.RemintIfCurrent? :: call.used
  }

  /** A task reports only a token it was handed, so one already signed. */
  predicate HonestFrom(c: Cache, calls: seq<Call>) {
    calls == [] ||
    var earlier, call := calls[..|calls| - 1], calls[|calls| - 1];
    HonestFrom(c, earlier) && (call.RemintIfCurrent? ==> call.used < RunFrom(c, earlier).minted)
  }

  predicate Honest(calls: seq<Call>) { HonestFrom(EMPTY, calls) }

  /** The state every run can be in: the cached token is the newest one signed. */
  predicate Valid(c: Cache) {
    if c.minted == 0 then c.cached == None else c.cached.Some? && c.cached.value.bearer == c.minted - 1
  }

  lemma {:induction false} RunFromIsValid(c: Cache, calls: seq<Call>)
    requires Valid(c)
    ensures Valid(RunFrom(c, calls)) && c.minted <= RunFrom(c, calls).minted
  {
    if calls != [] {
      RunFromIsValid(c, calls[..|calls| - 1]);
    }
  }

  lemma {:induction false} HonestPrefix(calls: seq<Call>, n: nat)
    requires Honest(calls) && n <= |calls|
    ensures Honest(calls[..n])
  {
    if n == |calls| {
      assert calls[..n] == calls;
    } else {
      assert calls[..|calls| - 1][..n] == calls[..n];
      HonestPrefix(calls[..|calls| - 1], n);
    }
  }

  /** One run after another is one run. */
  lemma {:induction false} RunsConcatenate(c: Cache, a: seq<Call>, b: seq<Call>)
    ensures RunFrom(c, a + b) == RunFrom(RunFrom(c, a), b)
    ensures HonestFrom(c, a + b) <==> HonestFrom(c, a) && HonestFrom(RunFrom(c, a), b)
  {
    if b == [] {
      assert a + b == a;
    } else {
      RunsConcatenate(c, a, b[..|b| - 1]);
      assert (a + b)[..|a + b| - 1] == a + b[..|b| - 1];
    }
  }

  ghost predicate Increasing(s: seq<nat>) {
    forall i, j :: 0 <= i < j < |s| ==> s[i] < s[j]
  }

  lemma ReportedSplits(earlier: seq<Call>, call: Call)
    ensures Reported(earlier + [call]) ==
            Reported(earlier) + if call.RemintIfCurrent? then {call.used} else {}
  {
    forall b | b in Reported(earlier + [call])
      ensures b in Reported(earlier) || (call.RemintIfCurrent? && b == call.used)
    {
      var c :| c in earlier + [call] && c.RemintIfCurrent? && c.used == b;
      assert c in earlier || c == call;
    }
    assert forall c :: c in earlier ==> c in earlier + [call];
    assert call in earlier + [call];
  }

  ghost predicate Behind(retired: seq<Bearer>, minted: nat) {
    Increasing(retired) && forall b :: b in retired ==> b + 1 < minted
  }

  /** Only the newest token can be retired, and retiring it puts it behind a newer one. */
  lemma RetiringTakesTheNewest(retired: seq<Bearer>, c: Cache, call: Call)
    requires Valid(c) && Behind(retired, c.minted)
    requires call.RemintIfCurrent? && call.used < c.minted && Signs(c, call) && call.signs
    ensures Behind(retired + [call.used], Step(c, call).minted)
  {
    forall i | 0 <= i < |retired|
      ensures retired[i] < call.used
    {
      assert retired[i] in retired;
    }
  }

  /** Tokens are retired in the order they were signed, each behind the newest one. */
  lemma {:induction false} RetiredInOrder(calls: seq<Call>)
    requires Honest(calls)
    ensures Behind(Retired(calls), Run(calls).minted)
  {
    if calls != [] {
      var earlier, call := calls[..|calls| - 1], calls[|calls| - 1];
      RetiredInOrder(earlier);
      RunFromIsValid(EMPTY, earlier);
      var c := Run(earlier);
      if call.RemintIfCurrent? && Signs(c, call) && call.signs {
        RetiringTakesTheNewest(Retired(earlier), c, call);
      }
    }
  }

  lemma {:induction false} RetiredWereReported(calls: seq<Call>)
    ensures forall b :: b in Retired(calls) ==> b in Reported(calls)
  {
    if calls != [] {
      var earlier, call := calls[..|calls| - 1], calls[|calls| - 1];
      RetiredWereReported(earlier);
      assert calls == earlier + [call];
      ReportedSplits(earlier, call);
    }
  }

  lemma {:induction false} MintsAreAccountedFor(calls: seq<Call>)
    ensures Run(calls).minted == |Retired(calls)| + AgeMints(calls)
  {
    if calls != [] {
      MintsAreAccountedFor(calls[..|calls| - 1]);
    }
  }

  lemma {:induction false} IncreasingFits(s: seq<nat>, within: set<nat>)
    requires Increasing(s)
    requires forall b :: b in s ==> b in within
    ensures |s| <= |within|
  {
    if s != [] {
      var last := s[|s| - 1];
      forall b | b in s[..|s| - 1]
        ensures b in within - {last}
      {
        assert exists i :: 0 <= i < |s| - 1 && s[i] == b;
      }
      IncreasingFits(s[..|s| - 1], within - {last});
    }
  }

  /**
   Each rejected token is replaced at most once, however many tasks report it: the remints are at most
   as many as the distinct tokens reported, and every other mint is owed to age.
   */
  lemma RemintsAreBounded(calls: seq<Call>)
    requires Honest(calls)
    ensures Distinct(Retired(calls))
    ensures |Retired(calls)| <= |Reported(calls)|
    ensures Run(calls).minted - AgeMints(calls) <= |Reported(calls)|
  {
    RetiredInOrder(calls);
    RetiredWereReported(calls);
    MintsAreAccountedFor(calls);
    IncreasingFits(Retired(calls), Reported(calls));
  }

  /** A task that reports a token is handed another one, or an error. */
  lemma AnswersAnotherToken(calls: seq<Call>, call: Call)
    requires Honest(calls + [call]) && call.RemintIfCurrent?
    ensures Reply(Run(calls), call) != Some(call.used)
  {
    RunFromIsValid(EMPTY, calls);
    assert (calls + [call])[..|calls|] == calls;
    assert (calls + [call])[|calls|] == call;
  }

  lemma {:induction false} RetiredGrows(calls: seq<Call>, n: nat)
    requires n <= |calls|
    ensures forall b :: b in Retired(calls[..n]) ==> b in Retired(calls)
    decreases |calls| - n
  {
    if n == |calls| {
      assert calls[..n] == calls;
    } else {
      assert calls[..n + 1][..n] == calls[..n];
      RetiredGrows(calls, n + 1);
    }
  }

  /** Once replaced, a token is never handed out again, by either call. */
  lemma RetiredNeverReturns(calls: seq<Call>, n: nat, k: nat)
    requires Honest(calls) && n <= k < |calls|
    ensures var reply := Reply(Run(calls[..k]), calls[k]);
      reply.Some? ==> reply.value !in Retired(calls[..n])
  {
    HonestPrefix(calls, k);
    RetiredInOrder(calls[..k]);
    RunFromIsValid(EMPTY, calls[..k]);
    RetiredGrows(calls[..k], n);
    assert calls[..k][..n] == calls[..n];
  }

  /** When the token now cached was signed, looked up in the run itself. */
  function SignedAt(calls: seq<Call>, bearer: Bearer): Option<int> {
    if calls == [] then None
    else
      var earlier, call := calls[..|calls| - 1], calls[|calls| - 1];
      if Signs(Run(earlier), call) && call.signs && Run(earlier).minted == bearer
      then Some(call.mintedAt) else SignedAt(earlier, bearer)
  }

  lemma {:induction false} CacheRemembersSigning(calls: seq<Call>)
    ensures var c := Run(calls);
      c.cached.Some? ==> SignedAt(calls, c.cached.value.bearer) == Some(c.cached.value.mintedAt)
  {
    if calls != [] {
      RunFromIsValid(EMPTY, calls[..|calls| - 1]);
      CacheRemembersSigning(calls[..|calls| - 1]);
    }
  }

  /**
   What `bearer` hands out was signed by this very call, or was signed less than fifty minutes before
   the call's reading of the clock and not after it, even if the clock went backwards in between.
   */
  lemma BearerIsInBand(calls: seq<Call>, call: Call)
    requires call.Get? && Reply(Run(calls), call).Some?
    ensures var b := Reply(Run(calls), call).value;
      || (b == Run(calls).minted && SignedAt(calls + [call], b) == Some(call.mintedAt))
      || exists at :: SignedAt(calls, b) == Some(at) && at <= call.checkedAt < at + 3_000_000
  {
    var now := calls + [call];
    assert now[..|now| - 1] == calls;
    RunFromIsValid(EMPTY, calls);
    CacheRemembersSigning(calls);
    if !Signs(Run(calls), call) {
      assert SignedAt(calls, Reply(Run(calls), call).value) == Some(Run(calls).cached.value.mintedAt);
    }
  }

  /**
   A request for a token signs a new one exactly if the newest was not signed within the fifty minutes before the
   clock reading, and a report exactly if it names the newest, or there is none.
   */
  lemma SignsExactly(calls: seq<Call>, call: Call)
    ensures var n := Run(calls).minted;
      Signs(Run(calls), call) <==>
      match call
      case Get(checkedAt, _, _) =>
        !exists at :: n > 0 && SignedAt(calls, n - 1) == Some(at) && at <= checkedAt < at + 3_000_000
      case RemintIfCurrent(used, _, _) => n == 0 || used == n - 1
  {
    RunFromIsValid(EMPTY, calls);
    CacheRemembersSigning(calls);
    var c := Run(calls);
    if call.Get? && !Signs(c, call) {
      assert SignedAt(calls, c.minted - 1) == Some(c.cached.value.mintedAt);
    }
  }

  /** The cache as an object: the mutex makes each method one call of the run. */
  class ProviderToken {
    var cached: Option<Cached>
    var mintedTotal: nat

    ghost function State(): Cache
      reads this
    {
      Cache(cached, mintedTotal)
    }

    constructor ()
      ensures State() == EMPTY
    {
      cached, mintedTotal := None, 0;
    }

    method GetBearer(checkedAt: int, mintedAt: int, signs: bool) returns (reply: Option<Bearer>)
      modifies this
      ensures var call := Get(checkedAt, mintedAt, signs);
        State() == Step(old(State()), call) && reply == Reply(old(State()), call)
    {
      if cached.Some? && Fresh(cached.value, checkedAt) {
        return Some(cached.value.bearer);
      }
      reply := MintInto(mintedAt, signs);
    }

    method RemintIfStillCurrent(used: Bearer, mintedAt: int, signs: bool) returns (reply: Option<Bearer>)
      modifies this
      ensures var call := RemintIfCurrent(used, mintedAt, signs);
        State() == Step(old(State()), call) && reply == Reply(old(State()), call)
    {
      if cached.Some? && cached.value.bearer != used {
        return Some(cached.value.bearer);
      }
      reply := MintInto(mintedAt, signs);
    }

    method MintInto(mintedAt: int, signs: bool) returns (reply: Option<Bearer>)
      modifies this
      ensures signs ==> reply == Some(old(mintedTotal))
      ensures signs ==> cached == Some(Cached(old(mintedTotal), mintedAt)) && mintedTotal == old(mintedTotal) + 1
      ensures !signs ==> reply == None && State() == old(State())
    {
      if !signs {
        return None;
      }
      reply := Some(mintedTotal);
      cached, mintedTotal := Some(Cached(mintedTotal, mintedAt)), mintedTotal + 1;
    }

    /** The other tasks' calls that fall between two of this task's own. */
    method Interleave(others: seq<Call>)
      modifies this
      ensures State() == RunFrom(old(State()), others)
    {
      for i := 0 to |others|
        invariant State() == RunFrom(old(State()), others[..i])
      {
        assert others[..i + 1][..i] == others[..i];
        match others[i]
        case Get(checkedAt, mintedAt, signs) =>
          var _ := GetBearer(checkedAt, mintedAt, signs);
        case RemintIfCurrent(used, mintedAt, signs) =>
          var _ := RemintIfStillCurrent(used, mintedAt, signs);
      }
      assert others[..|others|] == others;
    }
  }
}

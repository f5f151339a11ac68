/** Device tokens in a published error text: any long hexadecimal run is cut short. */
module Redaction {

  const HEX_RUN_MIN := 32
  const HEX_RUN_KEEP := 8
  const ELLIPSIS: char := '\U{2026}'

  predicate IsHex(c: char) { '0' <= c <= '9' || 'a' <= c <= 'f' || 'A' <= c <= 'F' }

  /** How many hexadecimal characters a text starts with. */
  function RunLength(s: string): (n: nat)
    ensures n <= |s| && (forall j :: 0 <= j < n ==> IsHex(s[j])) && (n < |s| ==> !IsHex(s[n]))
  {
    if s == "" || !IsHex(s[0]) then 0 else 1 + RunLength(s[1..])
  }

  lemma {:induction false} RunLengthIs(s: string, n: nat)
    requires n <= |s| && (forall j :: 0 <= j < n ==> IsHex(s[j])) && (n < |s| ==> !IsHex(s[n]))
    ensures RunLength(s) == n
  {
    if n > 0 {
      RunLengthIs(s[1..], n - 1);
    }
  }

  function Shortened(run: string): string {
    if |run| >= HEX_RUN_MIN then run[..HEX_RUN_KEEP] + [ELLIPSIS] else run
  }

  /** The length of a text's first piece: the run it starts with, or one character that is in none. */
  function FirstLength(s: string): (n: nat)
    requires s != ""
    ensures 0 < n <= |s|
  {
    if IsHex(s[0]) then RunLength(s) else 1
  }

  function Piece(s: string): string
    requires s != ""
  {
    if IsHex(s[0]) then Shortened(s[..FirstLength(s)]) else [s[0]]
  }

  function Redact(s: string): string
    decreases |s|
  {
    if s == "" then "" else Piece(s) + Redact(s[FirstLength(s)..])
  }

  method ScanRun(reason: string, start: nat) returns (i: nat)
    requires start <= |reason|
    ensures i == start + RunLength(reason[start..])
  {
    i := start;
    while i < |reason| && IsHex(reason[i])
      invariant start <= i <= |reason|
      invariant forall j :: start <= j < i ==> IsHex(reason[j])
    {
      i := i + 1;
    }
    RunLengthIs(reason[start..], i - start);
  }

  method RedactTokens(reason: string) returns (out: string)
    ensures out == Redact(reason)
  {
    out := "";
    var i := 0;
    assert reason[0..] == reason;
    while i < |reason|
      invariant 0 <= i <= |reason|
      invariant Redact(reason) == out + Redact(reason[i..])
    {
      var start := i;
      ghost var before := out;
      if IsHex(reason[i]) {
        i := ScanRun(reason, i);
        var run := reason[start..i];
        if |run| >= HEX_RUN_MIN {
          out := out + (run[..HEX_RUN_KEEP] + [ELLIPSIS]);
        } else {
          out := out + run;
        }
        assert reason[start..][..i - start] == run;
      } else {
        i := i + 1;
        out := out + [reason[start]];
      }
      assert out == before + Piece(reason[start..]);
      OnePieceOn(before, out, reason, start, i);
    }
  }

  /** What was put out for this stretch, followed by what is still to come. */
  lemma OnePieceOn(before: string, out: string, s: string, i: nat, next: nat)
    requires i < next <= |s| && next == i + FirstLength(s[i..]) && out == before + Piece(s[i..])
    ensures before + Redact(s[i..]) == out + Redact(s[next..])
  {
    assert s[i..][next - i..] == s[next..];
    Associates(before, Piece(s[i..]), Redact(s[next..]));
  }

  lemma Associates(a: string, b: string, c: string)
    ensures a + (b + c) == a + b + c
  {
  }

  // -- what the result promises -------------------------------------------------------------

  /** A whole token's length of hexadecimal characters from here on. */
  ghost predicate LongRunAt(s: string, i: nat) {
    i + 32 <= |s| && forall j :: i <= j < i + 32 ==> IsHex(s[j])
  }

  ghost predicate NoLongRun(s: string) { forall i: nat :: !LongRunAt(s, i) }

  lemma LongRunShifts(a: string, b: string, k: nat)
    ensures LongRunAt(a + b, |a| + k) <==> LongRunAt(b, k)
  {
    var s := a + b;
    assert LongRunAt(s, |a| + k) ==> forall j :: k <= j < k + 32 ==> b[j] == s[|a| + j];
    assert LongRunAt(b, k) ==> forall j :: |a| + k <= j < |a| + k + 32 ==> s[j] == b[j - |a|];
  }

  lemma Broken(a: string, c: char, b: string)
    requires |a| < 32 && !IsHex(c) && NoLongRun(b)
    ensures NoLongRun(a + [c] + b)
  {
    var s := a + [c] + b;
    forall i: nat
      ensures !LongRunAt(s, i)
    {
      if i <= |a| {
        assert s[|a|] == c;
      } else {
        LongRunShifts(a + [c], b, i - |a| - 1);
      }
    }
  }

  /** A run, cut short if it is long, in front of text that breaks it off. */
  lemma RunBreaksOff(run: string, rest: string)
    requires NoLongRun(rest) && (rest == "" || !IsHex(rest[0]))
    ensures NoLongRun(Shortened(run) + rest)
  {
    if |run| >= HEX_RUN_MIN {
      Broken(run[..HEX_RUN_KEEP], ELLIPSIS, rest);
    } else if rest != "" {
      var tail := rest[1..];
      assert rest == [rest[0]] + tail;
      forall k: nat ensures !LongRunAt(tail, k) {
        LongRunShifts([rest[0]], tail, k);
      }
      Broken(run, rest[0], tail);
      assert run + rest == run + [rest[0]] + tail;
    }
  }

  lemma {:induction false} NothingLongIsLeft(s: string)
    ensures NoLongRun(Redact(s))
    decreases |s|
  {
    if s != "" {
      var rest := s[FirstLength(s)..];
      NothingLongIsLeft(rest);
      if IsHex(s[0]) {
        FirstStays(rest);
        RunBreaksOff(s[..FirstLength(s)], Redact(rest));
      } else {
        Broken("", s[0], Redact(rest));
        assert "" + [s[0]] + Redact(rest) == Redact(s);
      }
    }
  }

  /** What starts with no hexadecimal character still does not. */
  lemma FirstStays(s: string)
    ensures s == "" ==> Redact(s) == ""
    ensures s != "" && !IsHex(s[0]) ==> Redact(s) != "" && Redact(s)[0] == s[0]
  {
  }

  lemma SuffixHasNoLongRun(a: string, b: string)
    requires NoLongRun(a + b)
    ensures NoLongRun(b)
  {
    forall k: nat ensures !LongRunAt(b, k) { LongRunShifts(a, b, k); }
  }

  lemma ShortPieceStays(s: string)
    requires s != "" && !LongRunAt(s, 0)
    ensures Piece(s) == s[..FirstLength(s)]
  {
  }

  lemma {:induction false} ShortTextIsUnchanged(s: string)
    requires NoLongRun(s)
    ensures Redact(s) == s
    decreases |s|
  {
    if s != "" {
      var first, rest := s[..FirstLength(s)], s[FirstLength(s)..];
      assert s == first + rest;
      ShortPieceStays(s);
      SuffixHasNoLongRun(first, rest);
      ShortTextIsUnchanged(rest);
    }
  }

  /** No run of token length is left, and a text without one is left as it is. */
  lemma RedactsExactlyLongRuns(s: string)
    ensures NoLongRun(Redact(s))
    ensures Redact(s) == s <==> NoLongRun(s)
  {
    NothingLongIsLeft(s);
    if NoLongRun(s) {
      ShortTextIsUnchanged(s);
    }
  }

  /** So redacting twice is redacting once. */
  lemma RedactingIsIdempotent(s: string)
    ensures Redact(Redact(s)) == Redact(s)
  {
    RedactsExactlyLongRuns(s);
    RedactsExactlyLongRuns(Redact(s));
  }

  /** Texts of which one ends in front of a run, or the other begins behind one, are cut on their own. */
  lemma {:induction false} RedactsApart(a: string, b: string)
    requires a == "" || b == "" || !(IsHex(a[|a| - 1]) && IsHex(b[0]))
    ensures Redact(a + b) == Redact(a) + Redact(b)
    decreases |a|
  {
    if a == "" {
      assert a + b == b;
    } else {
      var n := FirstLength(a);
      RunLengthIs(a + b, RunLength(a));
      assert (a + b)[n..] == a[n..] + b && (a + b)[..n] == a[..n];
      assert n < |a| ==> a[n..][|a| - n - 1] == a[|a| - 1];
      RedactsApart(a[n..], b);
      Associates(Piece(a), Redact(a[n..]), Redact(b));
    }
  }

  /**
   Each maximal run is cut on its own: of one of 32 or more hexadecimal characters the first eight stay, with a
   mark behind them, a shorter one stays whole, and what is around it is redacted as if it stood alone.
   */
  lemma RedactsRunByRun(a: string, run: string, b: string)
    requires run != "" && forall j :: 0 <= j < |run| ==> run[j] in "0123456789abcdefABCDEF"
    requires a == "" || a[|a| - 1] !in "0123456789abcdefABCDEF"
    requires b == "" || b[0] !in "0123456789abcdefABCDEF"
    ensures Redact(a + run + b) == Redact(a) + (if |run| >= 32 then run[..8] + "\U{2026}" else run) + Redact(b)
  {
    forall c { HexIs(c); }
    RedactsApart(a + run, b);
    RedactsApart(a, run);
    RunLengthIs(run, |run|);
    assert run[..|run|] == run && Redact(run[|run|..]) == "";
    assert Shortened(run) + "" == Shortened(run);
  }

  lemma HexIs(c: char)
    ensures IsHex(c) <==> c in "0123456789abcdefABCDEF"
  {
    var digits := "0123456789abcdefABCDEF";
    if '0' <= c <= '9' {
      assert digits[c as int - '0' as int] == c;
    } else if 'a' <= c <= 'f' {
      assert digits[10 + c as int - 'a' as int] == c;
    } else if 'A' <= c <= 'F' {
      assert digits[16 + c as int - 'A' as int] == c;
    }
  }

  /** The characters of a text that are neither hexadecimal nor the mark. */
  function Others(s: string): string {
    if s == "" then "" else (if IsHex(s[0]) || s[0] == ELLIPSIS then "" else [s[0]]) + Others(s[1..])
  }

  lemma {:induction false} OthersConcat(s: string, t: string)
    ensures Others(s + t) == Others(s) + Others(t)
  {
    if s == "" {
      assert s + t == t;
    } else {
      assert (s + t)[1..] == s[1..] + t;
      OthersConcat(s[1..], t);
    }
  }

  lemma {:induction false} RunsHaveNoOthers(run: string)
    requires forall i :: 0 <= i < |run| ==> IsHex(run[i])
    ensures Others(run) == ""
  {
    if run != "" {
      RunsHaveNoOthers(run[1..]);
    }
  }

  lemma ShortenedHasNoOthers(run: string)
    requires forall j :: 0 <= j < |run| ==> IsHex(run[j])
    ensures Others(Shortened(run)) == ""
  {
    if |run| >= HEX_RUN_MIN {
      RunsHaveNoOthers(run[..HEX_RUN_KEEP]);
      OthersConcat(run[..HEX_RUN_KEEP], [ELLIPSIS]);
    } else {
      RunsHaveNoOthers(run);
    }
  }

  /** Every other character survives, in order, and none is added. */
  lemma {:induction false} OthersSurvive(s: string)
    ensures Others(Redact(s)) == Others(s)
    decreases |s|
  {
    if s != "" {
      var first, rest := s[..FirstLength(s)], s[FirstLength(s)..];
      OthersSurvive(rest);
      assert s == first + rest;
      OthersConcat(first, rest);
      OthersConcat(Piece(s), Redact(rest));
      if IsHex(s[0]) {
        RunsHaveNoOthers(first);
        ShortenedHasNoOthers(first);
      } else {
        assert first == [s[0]];
      }
    }
  }
}

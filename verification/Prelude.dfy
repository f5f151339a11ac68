/** Types shared by the whole model. */
module Prelude {

  datatype Option<+T> = None | Some(value: T) {
    function GetOr(default: T): T {
      match this
      case Some(v) => v
      case None => default
    }
  }

  /** `Status` of the item state machine. */
  datatype Status =
    | Queued | Resolving | Preparing | Downloading | Postprocessing
    | Finished | Failed | Canceled
  {
    predicate IsTerminal() { Finished? || Failed? || Canceled? }
  }

  function Max(a: int, b: int): int { if a < b then b else a }

  function Min(a: int, b: int): int { if a < b then a else b }

  ghost predicate Distinct<T>(s: seq<T>) {
    forall i, j :: 0 <= i < j < |s| ==> s[i] != s[j]
  }

  /** `s` is what is left of `whole` when some elements are left out. */
  ghost predicate IsSubsequence<T>(s: seq<T>, whole: seq<T>)
    decreases |whole|
  {
    s == [] ||
    (whole != [] &&
     var init := whole[..|whole| - 1];
     || (s[|s| - 1] == whole[|whole| - 1] && IsSubsequence(s[..|s| - 1], init))
     || IsSubsequence(s, init))
  }

  lemma {:induction false} SubsequenceBehind<T>(x: T, s: seq<T>, whole: seq<T>)
    requires IsSubsequence(s, whole)
    ensures IsSubsequence(s, [x] + whole) && IsSubsequence([x] + s, [x] + whole)
    decreases |whole|
  {
    var all := [x] + whole;
    if whole == [] {
      assert all[..0] == [] && ([x] + s)[..0] == [];
    } else {
      var init := whole[..|whole| - 1];
      assert all[..|all| - 1] == [x] + init && all[|all| - 1] == whole[|whole| - 1];
      if s != [] && s[|s| - 1] == whole[|whole| - 1] && IsSubsequence(s[..|s| - 1], init) {
        SubsequenceBehind(x, s[..|s| - 1], init);
        assert ([x] + s)[..|s|] == [x] + s[..|s| - 1];
      } else {
        SubsequenceBehind(x, s, init);
      }
    }
  }
}

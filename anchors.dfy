/** The eight reality anchors of the alignment stage and their activation count. */
module Anchors {

  const TOTAL_ANCHORS: nat := 8

  /** Number of activated anchors among the flags in s. */
  function CountActivated(s: seq<bool>): (n: nat)
    ensures n <= |s|
  {
    if s == [] then 0 else (if s[0] then 1 else 0) + CountActivated(s[1..])
  }

  /** With no flag set the count is 0. */
  lemma {:induction false} NoneActivated(s: seq<bool>)
    requires forall i :: 0 <= i < |s| ==> !s[i]
    ensures CountActivated(s) == 0
  {
    if s != [] {
      NoneActivated(s[1..]);
    }
  }

  /** Activating an anchor that was not yet activated raises the count by exactly one. */
  lemma {:induction false} ActivateOne(s: seq<bool>, i: int)
    requires 0 <= i < |s| && !s[i]
    ensures CountActivated(s[i := true]) == CountActivated(s) + 1
  {
    if i == 0 {
      assert s[i := true][1..] == s[1..];
    } else {
      assert s[i := true][1..] == s[1..][i - 1 := true];
      ActivateOne(s[1..], i - 1);
    }
  }

  /** The count reaches the number of anchors exactly when every anchor is activated. */
  lemma {:induction false} FullCountMeansAllActivated(s: seq<bool>)
    ensures CountActivated(s) == |s| <==> forall i :: 0 <= i < |s| ==> s[i]
  {
    if s != [] {
      FullCountMeansAllActivated(s[1..]);
      if forall i :: 0 <= i < |s| ==> s[i] {
        assert forall i :: 0 <= i < |s| - 1 ==> s[1..][i];
      }
      if CountActivated(s) == |s| {
        forall i | 0 <= i < |s|
          ensures s[i]
        {
          if i > 0 {
            assert s[1..][i - 1] == s[i];
          }
        }
      }
    }
  }
}

// What others do between the steps of one call: a script, one part for each gap.

module Interleaving {
  function Gap<T>(script: seq<seq<T>>, k: nat): seq<T> { if k < |script| then script[k] else [] }

  predicate Quiet<T(==)>(script: seq<seq<T>>) { forall i | 0 <= i < |script| :: script[i] == [] }

  lemma QuietGap<T>(script: seq<seq<T>>)
    ensures Quiet(script) ==> forall k: nat :: Gap(script, k) == []
  {
  }

  lemma PastTheEnd<T>(script: seq<seq<T>>, k: nat)
    ensures k >= |script| ==> Gap(script, k) == []
  {
  }
}

module Common {
  datatype Option<+T> = None | Some(value: T)

  /** Positions in a sequence, in order. */
  predicate Rising(at: seq<nat>) {
    forall k, l :: 0 <= k < l < |at| ==> at[k] < at[l]
  }

  lemma AppendPlace(at: seq<nat>, n: nat)
    requires Rising(at) && forall k :: 0 <= k < |at| ==> at[k] < n
    ensures Rising(at + [n]) && n !in at && forall i :: i in at + [n] <==> i in at || i == n
  {
  }

  lemma {:induction false} RisingFits(at: seq<nat>, n: nat)
    requires Rising(at) && forall k :: 0 <= k < |at| ==> at[k] < n
    ensures |at| <= n
  {
    if at != [] { RisingFits(at[..|at| - 1], at[|at| - 1]); }
  }
}

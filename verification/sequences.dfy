/** What is left of a sequence when some of its elements are passed over. */
module Sequences {

  /** `kept` is what is left of `s`, in its order: `at` says where each element stands in it. */
  ghost predicate InOrder<T>(s: seq<T>, kept: seq<T>, at: seq<nat>)
  {
    && |at| == |kept|
    && (forall k :: 0 <= k < |at| ==> at[k] < |s| && s[at[k]] == kept[k])
    && (forall k, m :: 0 <= k < m < |at| ==> at[k] < at[m])
  }

  lemma InOrderTake<T>(s: seq<T>, kept: seq<T>, at: seq<nat>, n: nat)
    requires |s| == n + 1 && InOrder(s[..n], kept, at)
    ensures InOrder(s, kept, at) && InOrder(s, kept + [s[n]], at + [n])
    ensures n !in at && forall i :: i in at + [n] <==> i in at || i == n
  {
    assert forall k :: 0 <= k < |at| ==> at[k] < n && s[..n][at[k]] == s[at[k]];
  }
}

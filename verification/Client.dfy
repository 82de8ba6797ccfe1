/** When a client's append returns: the loops that look at its outstanding requests. */
module Client {

  /** How many of the first `n` requests are complete. */
  function Completed(tokens: seq<bool>, n: nat): (r: nat)
    requires n <= |tokens|
    ensures r <= n
  {
    if n == 0 then 0 else Completed(tokens, n - 1) + if tokens[n - 1] then 1 else 0
  }

  lemma {:induction false} CompletedAll(tokens: seq<bool>, n: nat)
    requires n <= |tokens|
    ensures Completed(tokens, n) == n <==> forall i :: 0 <= i < n ==> tokens[i]
  {
    if n > 0 {
      CompletedAll(tokens, n - 1);
    }
  }

  method AllCompleted(tokens: seq<bool>) returns (done: bool)
    ensures done <==> forall i :: 0 <= i < |tokens| ==> tokens[i]
  {
    for i := 0 to |tokens|
      invariant forall k :: 0 <= k < i ==> tokens[k]
    {
      if !tokens[i] {
        return false;
      }
    }
    return true;
  }

  /**
   * `quorumCompleted`. The threshold is set to the number of replicas, and then the quorum append waits for the
   * primary and every backup, like the other one.
   */
  method QuorumCompleted(primary: bool, backups: seq<bool>, threshold: nat) returns (done: bool)
    ensures done <==> primary && Completed(backups, |backups|) + 1 >= threshold
    ensures threshold == 1 + |backups| ==> (done <==> primary && forall i :: 0 <= i < |backups| ==> backups[i])
  {
    CompletedAll(backups, |backups|);
    if !primary {
      return false;
    }
    var n := 0;
    for i := 0 to |backups|
      invariant n == Completed(backups, i)
    {
      if backups[i] { n := n + 1; }
    }
    return n + 1 >= threshold;
  }
}

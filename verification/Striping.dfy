/** How the consensus side spreads a batch over the shards: stripe by stripe, at most one request per shard at a time. */
module Striping {
  import opened Arith
  import opened Codec
  import opened Batches

  datatype Request = Request(shard: nat, entries: seq<Entry>)

  /** Of the first `k` entries, those whose log index belongs to shard `j`, in order: what the shard must receive. */
  function Pick(es: seq<Entry>, shards: nat, j: nat, k: nat): seq<Entry>
    requires shards > 0 && k <= |es|
  {
    if k == 0 then []
    else Pick(es, shards, j, k - 1) + if es[k - 1].logIdx % shards == j then [es[k - 1]] else []
  }

  /** What the first `k` requests of a round carry to shard `j`. */
  function SentIn(round: seq<Request>, j: nat, k: nat): seq<Entry>
    requires k <= |round|
  {
    if k == 0 then [] else SentIn(round, j, k - 1) + if round[k - 1].shard == j then round[k - 1].entries else []
  }

  /** What the first `k` rounds carry to shard `j`. */
  function Sent(rounds: seq<seq<Request>>, j: nat, k: nat): seq<Entry>
    requires k <= |rounds|
  {
    if k == 0 then [] else Sent(rounds, j, k - 1) + SentIn(rounds[k - 1], j, |rounds[k - 1]|)
  }

  /** The first `n` entries carry consecutive log indices. */
  predicate Contiguous(es: seq<Entry>, n: nat)
    requires 0 < n <= |es|
  {
    forall k :: 0 <= k < n ==> es[k].logIdx == es[0].logIdx + k
  }

  /** How many entries of a batch are real: a blank last entry is the fetch's sentinel. */
  function RealCount(es: seq<Entry>): (n: nat)
    requires es != []
    ensures 0 < n <= |es|
  {
    if |es| > 1 && es[|es| - 1].logIdx == 0 then |es| - 1 else |es|
  }

  /** A request stays inside one big stripe of `big` indices and carries only its shard's entries. */
  predicate WellPlaced(r: Request, big: nat, shards: nat)
    requires big > 0 && shards > 0
  {
    && r.entries != []
    && forall k :: 0 <= k < |r.entries| ==>
                     && r.entries[k].logIdx % shards == r.shard
                     && r.entries[k].logIdx / big == r.entries[0].logIdx / big
  }

  /** No shard is asked twice in a round, so none ever has two outstanding requests. */
  predicate OnePerShard(round: seq<Request>) {
    forall s, t :: 0 <= s < t < |round| ==> round[s].shard != round[t].shard
  }

  // ---------------------------------------------------------------- one stripe

  lemma {:induction false} NoPickBetween(es: seq<Entry>, shards: nat, j: nat, lo: nat, hi: nat)
    requires shards > 0 && lo <= hi <= |es|
    requires forall k :: lo <= k < hi ==> es[k].logIdx % shards != j
    ensures Pick(es, shards, j, hi) == Pick(es, shards, j, lo)
  {
    if lo < hi {
      NoPickBetween(es, shards, j, lo, hi - 1);
    }
  }

  /** Stepping by the number of shards from an entry of shard `j` finds exactly shard `j`'s entries. */
  lemma {:induction false} StridePicks(es: seq<Entry>, n: nat, shards: nat, j: nat, p: nat, to: nat)
    requires shards > 0 && 0 < n <= |es| && Contiguous(es, n) && p <= to < n && es[p].logIdx % shards == j
    ensures Pick(es, shards, j, to + 1) == Pick(es, shards, j, p) + Strided(es, p, to, shards)
    decreases n - p
  {
    var next := if p + shards <= to then p + shards else to + 1;
    forall k | p + 1 <= k < next
      ensures es[k].logIdx % shards != j
    {
      ModPeriod(es[p].logIdx, k - p, shards);
    }
    NoPickBetween(es, shards, j, p + 1, next);
    if p + shards <= to {
      ModPeriod(es[p].logIdx, shards, shards);
      StridePicks(es, n, shards, j, p + shards, to);
    } else {
      assert Strided(es, p, to, shards) == [es[p]] + [];
    }
  }

  /** The requests for entries `lo` up to `hi`: the `t`-th one starts at entry `lo + t`. */
  predicate IsRound(es: seq<Entry>, shards: nat, lo: nat, hi: nat, round: seq<Request>)
    requires shards > 0 && hi < |es|
  {
    && lo + |round| <= hi + 1
    && forall t :: 0 <= t < |round| ==>
                     round[t] == Request(es[lo + t].logIdx % shards, Strided(es, lo + t, hi, shards))
  }

  lemma RoundAsksOnce(es: seq<Entry>, n: nat, shards: nat, lo: nat, hi: nat, round: seq<Request>)
    requires shards > 0 && 0 < n <= |es| && Contiguous(es, n) && hi < n && |round| <= shards
    requires IsRound(es, shards, lo, hi, round)
    ensures OnePerShard(round)
  {
    forall s, t | 0 <= s < t < |round|
      ensures round[s].shard != round[t].shard
    {
      ModPeriod(es[lo + s].logIdx, t - s, shards);
    }
  }

  lemma {:induction false} SentInRound(round: seq<Request>, j: nat, k: nat, t: nat)
    requires k <= |round| && OnePerShard(round) && t <= |round| && (t < |round| ==> round[t].shard == j)
    requires t == |round| ==> forall i :: 0 <= i < |round| ==> round[i].shard != j
    ensures SentIn(round, j, k) == if t < k then round[t].entries else []
  {
    if k > 0 {
      SentInRound(round, j, k - 1, t);
    }
  }

  /** Among `shards` consecutive indices one belongs to shard `j`. */
  lemma SomeResidue(x: nat, shards: nat, j: nat) returns (t: nat)
    requires j < shards
    ensures t < shards && (x + t) % shards == j
  {
    var r := x % shards;
    t := if r <= j then j - r else j + shards - r;
    ModStep(x, t, shards);
  }

  /** A full round sends every shard exactly its entries of the stripe. */
  lemma RoundSends(es: seq<Entry>, n: nat, shards: nat, lo: nat, hi: nat, round: seq<Request>, j: nat)
    requires j < shards && 0 < n <= |es| && Contiguous(es, n) && lo <= hi < n
    requires IsRound(es, shards, lo, hi, round) && (|round| == shards || (|round| < shards && lo + |round| == hi + 1))
    ensures Pick(es, shards, j, hi + 1) == Pick(es, shards, j, lo) + SentIn(round, j, |round|)
  {
    RoundAsksOnce(es, n, shards, lo, hi, round);
    var t := SomeResidue(es[lo].logIdx, shards, j);
    var last := if t < |round| then lo + t else hi + 1;
    forall k | lo <= k < last
      ensures es[k].logIdx % shards != j
    {
      ModPeriod(es[lo].logIdx + (k - lo), t - (k - lo), shards);
    }
    NoPickBetween(es, shards, j, lo, last);
    if t < |round| {
      assert es[lo + t].logIdx == es[lo].logIdx + t;
      StridePicks(es, n, shards, j, lo + t, hi);
      SentInRound(round, j, |round|, t);
    } else {
      SentInRound(round, j, |round|, |round|);
    }
  }

  lemma {:induction false} SameRemainder(x: nat, k: nat, m: nat)
    requires m > 0
    ensures (x + Times(k, m)) % m == x % m
  {
    if k > 0 {
      SameRemainder(x, k - 1, m);
      ModPeriod(x + Times(k - 1, m), m, m);
    }
  }

  lemma StridedWellPlaced(es: seq<Entry>, n: nat, shards: nat, big: nat, q: nat, p: nat, hi: nat, k: nat)
    requires shards > 0 && big > 0 && 0 < n <= |es| && Contiguous(es, n) && p <= hi < n
    requires forall i :: p <= i <= hi ==> es[i].logIdx / big == q
    requires k < |Strided(es, p, hi, shards)|
    ensures Strided(es, p, hi, shards)[k].logIdx % shards == es[p].logIdx % shards
    ensures Strided(es, p, hi, shards)[k].logIdx / big == q
  {
    StridedAt(es, p, hi, shards, k);
    SameRemainder(es[p].logIdx, k, shards);
  }

  lemma RoundWellPlaced(es: seq<Entry>, n: nat, shards: nat, big: nat, base: nat, lo: nat, hi: nat, round: seq<Request>)
    requires shards > 0 && big > 0 && 0 < n <= |es| && Contiguous(es, n) && lo <= hi < n
    requires IsRound(es, shards, lo, hi, round)
    requires Base(base, big) == base <= es[lo].logIdx && es[hi].logIdx < base + big
    ensures forall t :: 0 <= t < |round| ==> WellPlaced(round[t], big, shards)
  {
    var q := base / big;
    forall i | lo <= i <= hi
      ensures es[i].logIdx / big == q
    {
      SameBase(base, es[i].logIdx, big);
    }
    forall t, k | 0 <= t < |round| && 0 <= k < |round[t].entries|
      ensures round[t].entries[k].logIdx % shards == round[t].shard && round[t].entries[k].logIdx / big == q
    {
      StridedWellPlaced(es, n, shards, big, q, lo + t, hi, k);
    }
    forall t | 0 <= t < |round|
      ensures WellPlaced(round[t], big, shards)
    {
      assert round[t].entries[0].logIdx / big == q;
    }
  }

  /** The inner loop: one request for each shard that has entries in the stripe. */
  method SendStripe(es: seq<Entry>, shards: nat, lo: nat, hi: nat, ghost n: nat) returns (round: seq<Request>)
    requires shards > 0 && 0 < n <= |es| && Contiguous(es, n) && lo <= hi < n
    ensures IsRound(es, shards, lo, hi, round)
    ensures |round| == shards || (|round| < shards && lo + |round| == hi + 1)
  {
    round := [];
    var s := 0;
    while s < shards
      invariant s == |round| <= shards && IsRound(es, shards, lo, hi, round)
    {
      var stripeFrom := lo + s;
      if stripeFrom > hi { break; }
      var shardId := es[stripeFrom].logIdx % shards;
      round := round + [Request(shardId, Strided(es, stripeFrom, hi, shards))];
      s := s + 1;
    }
  }

  lemma {:induction false} SentPrefix(rounds: seq<seq<Request>>, more: seq<Request>, j: nat, k: nat)
    requires k <= |rounds|
    ensures Sent(rounds + [more], j, k) == Sent(rounds, j, k)
  {
    if k > 0 {
      SentPrefix(rounds, more, j, k - 1);
    }
  }

  /**
   * `rounds` is an exact partition of the first `done` entries: each shard gets its own, once and in order; each
   * request stays inside one big stripe; no round asks a shard twice.
   */
  predicate Spread(es: seq<Entry>, big: nat, shards: nat, rounds: seq<seq<Request>>, done: nat)
    requires big > 0 && shards > 0 && done <= |es|
  {
    && (forall j :: 0 <= j < shards ==> Sent(rounds, j, |rounds|) == Pick(es, shards, j, done))
    && (forall i :: 0 <= i < |rounds| ==> OnePerShard(rounds[i]))
    && (forall i, t :: 0 <= i < |rounds| && 0 <= t < |rounds[i]| ==> WellPlaced(rounds[i][t], big, shards))
  }

  lemma SpreadMore(es: seq<Entry>, n: nat, big: nat, shards: nat, base: nat, rounds: seq<seq<Request>>,
                   round: seq<Request>, lo: nat, hi: nat)
    requires shards > 0 && big > 0 && 0 < n <= |es| && Contiguous(es, n) && lo <= hi < n
    requires IsRound(es, shards, lo, hi, round) && (|round| == shards || (|round| < shards && lo + |round| == hi + 1))
    requires Base(base, big) == base <= es[lo].logIdx && es[hi].logIdx < base + big
    requires Spread(es, big, shards, rounds, lo)
    ensures Spread(es, big, shards, rounds + [round], hi + 1)
  {
    RoundAsksOnce(es, n, shards, lo, hi, round);
    RoundWellPlaced(es, n, shards, big, base, lo, hi, round);
    var more := rounds + [round];
    forall j | 0 <= j < shards
      ensures Sent(more, j, |more|) == Pick(es, shards, j, hi + 1)
    {
      RoundSends(es, n, shards, lo, hi, round, j);
      SentPrefix(rounds, round, j, |rounds|);
    }
  }

  /**
   * `AppendBatch`: `rounds` are the requests sent between two waits for all shards. Together they spread every entry
   * of the batch except the sentinel; the result is the last real index.
   */
  method AppendBatch(es: seq<Entry>, stripe: nat, shards: nat) returns (endIdx: nat, rounds: seq<seq<Request>>)
    requires stripe > 0 && shards > 0 && es != [] && Contiguous(es, RealCount(es))
    ensures endIdx == es[RealCount(es) - 1].logIdx
    ensures endIdx == if |es| > 1 && es[|es| - 1].logIdx == 0 then es[|es| - 2].logIdx else es[|es| - 1].logIdx
    ensures stripe * shards > 0 && Spread(es, stripe * shards, shards, rounds, RealCount(es))
  {
    ghost var n := RealCount(es);
    var startIdx := es[0].logIdx;
    endIdx := es[|es| - 1].logIdx;
    if |es| > 1 && endIdx == 0 { endIdx := es[|es| - 2].logIdx; }
    rounds := SendStripes(es, stripe * shards, shards, startIdx, endIdx, n);
  }

  /** How many entries of a batch lie below index `i`. */
  function Below(startIdx: nat, endIdx: nat, i: nat): nat
    requires startIdx <= endIdx
  {
    if i <= startIdx then 0 else if i <= endIdx then i - startIdx else endIdx + 1 - startIdx
  }

  /** One pass of the outer loop: the part of the batch that lies in the big stripe at `i`. */
  method SendBigStripe(es: seq<Entry>, big: nat, shards: nat, startIdx: nat, endIdx: nat, i: nat,
                       ghost rounds: seq<seq<Request>>, ghost n: nat)
    returns (round: seq<Request>)
    requires big > 0 && shards > 0 && 0 < n <= |es| && Contiguous(es, n)
    requires startIdx == es[0].logIdx && endIdx == startIdx + (n - 1)
    requires Base(i, big) == i <= endIdx && startIdx < i + big
    requires Spread(es, big, shards, rounds, Below(startIdx, endIdx, i))
    ensures Spread(es, big, shards, rounds + [round], Below(startIdx, endIdx, i + big))
  {
    var from, to := if i < startIdx then startIdx else i, if i + big - 1 > endIdx then endIdx else i + big - 1;
    round := SendStripe(es, shards, from - startIdx, to - startIdx, n);
    SpreadMore(es, n, big, shards, i, rounds, round, from - startIdx, to - startIdx);
  }

  /** The outer loop, over the big stripes that the batch touches. */
  method SendStripes(es: seq<Entry>, big: nat, shards: nat, startIdx: nat, endIdx: nat, ghost n: nat)
    returns (rounds: seq<seq<Request>>)
    requires big > 0 && shards > 0 && 0 < n <= |es| && Contiguous(es, n)
    requires startIdx == es[0].logIdx && endIdx == startIdx + (n - 1)
    ensures Spread(es, big, shards, rounds, n)
  {
    var i, lastBase := Base(startIdx, big), Base(endIdx, big);
    BaseOfBase(startIdx, big);
    BaseOfBase(endIdx, big);
    rounds := [];
    while i <= lastBase
      invariant Base(i, big) == i && i + big > startIdx
      invariant Spread(es, big, shards, rounds, Below(startIdx, endIdx, i))
      decreases lastBase + big - i
    {
      var round := SendBigStripe(es, big, shards, startIdx, endIdx, i, rounds, n);
      rounds := rounds + [round];
      NextBase(i, big);
      i := i + big;
    }
    BasesApart(lastBase, i, big);
  }
}

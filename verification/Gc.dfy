/** What the consensus side tells each sequencing replica once a batch is on the shards. */
module Gc {
  import opened Codec
  import opened Batches
  import opened Ring
  import opened RingReads
  import opened DurLog
  import RingProofs

  // ---------------------------------------------------------------- the per-client maxima

  /** `m` says, for each client among the first `n` entries and for no other, its largest client sequence there. */
  predicate IsMax(es: seq<Entry>, n: nat, m: map<nat, nat>)
    requires n <= |es|
  {
    && (forall i :: 0 <= i < n ==> es[i].clientId in m && es[i].clientSeq <= m[es[i].clientId])
    && (forall c :: c in m ==> exists i :: 0 <= i < n && es[i].clientId == c && es[i].clientSeq == m[c])
  }

  method MaxPerClient(es: seq<Entry>) returns (m: map<nat, nat>)
    ensures IsMax(es, |es|, m)
  {
    m := map[];
    for n := 0 to |es|
      invariant IsMax(es, n, m)
    {
      var e, before := es[n], m;
      if e.clientId !in m || e.clientSeq > m[e.clientId] {
        m := m[e.clientId := e.clientSeq];
      }
      OneMoreMax(es, n, before, m);
    }
  }

  lemma OneMoreMax(es: seq<Entry>, n: nat, m: map<nat, nat>, m': map<nat, nat>)
    requires n < |es| && IsMax(es, n, m)
    requires var e := es[n];
             m' == if e.clientId !in m || e.clientSeq > m[e.clientId] then m[e.clientId := e.clientSeq] else m
    ensures IsMax(es, n + 1, m')
  {
    forall c | c in m'
      ensures exists i :: 0 <= i < n + 1 && es[i].clientId == c && es[i].clientSeq == m'[c]
    {
      if c in m && m[c] == m'[c] {
        var i :| 0 <= i < n && es[i].clientId == c && es[i].clientSeq == m[c];
      } else {
        assert es[n].clientId == c;
      }
    }
  }

  /** Iterating a `std::map`: keys in ascending order, each once, with its value. */
  predicate Listing(m: map<nat, nat>, ids: seq<ReqId>) {
    && (forall i :: 0 <= i < |ids| ==> ids[i].0 in m && ids[i].1 == m[ids[i].0])
    && (forall i, j :: 0 <= i < j < |ids| ==> ids[i].0 < ids[j].0)
    && (forall c :: c in m ==> exists i :: 0 <= i < |ids| && ids[i].0 == c)
  }

  method LeastKey(keys: set<nat>) returns (k: nat)
    requires keys != {}
    ensures k in keys && forall x :: x in keys ==> k <= x
  {
    var rest := keys;
    k :| k in rest;
    while rest != {}
      invariant rest <= keys && k in keys && forall x :: x in keys ==> x in rest || k <= x
    {
      var x :| x in rest;
      if x < k { k := x; }
      rest := rest - {x};
    }
  }

  method ListAscending(m: map<nat, nat>) returns (ids: seq<ReqId>)
    ensures Listing(m, ids)
  {
    ids := [];
    var rest := m.Keys;
    while rest != {}
      invariant rest <= m.Keys
      invariant forall i :: 0 <= i < |ids| ==> ids[i].0 in m && ids[i].1 == m[ids[i].0]
      invariant forall i, j :: 0 <= i < j < |ids| ==> ids[i].0 < ids[j].0
      invariant forall i, c :: 0 <= i < |ids| && c in rest ==> ids[i].0 < c
      invariant forall c :: c in m && c !in rest ==> exists i :: 0 <= i < |ids| && ids[i].0 == c
    {
      var k := LeastKey(rest);
      var before := ids;
      ids := ids + [(k, m[k])];
      rest := rest - {k};
      assert ids[|before|].0 == k;
      forall c | c in m && c !in rest && c != k
        ensures exists i :: 0 <= i < |ids| && ids[i].0 == c
      {
        var i :| 0 <= i < |before| && before[i].0 == c;
        assert ids[i].0 == c;
      }
    }
  }

  lemma {:induction false} RebuiltAt(m: map<nat, nat>, ids: seq<ReqId>, n: nat, k: nat)
    requires Listing(m, ids) && n <= |ids| && k < |ids|
    ensures ids[k].0 in MaxOf(ids, n) <==> k < n
    ensures k < n ==> MaxOf(ids, n)[ids[k].0] == m[ids[k].0]
  {
    if n > 0 {
      RebuiltAt(m, ids, n - 1, k);
      assert k < n - 1 ==> ids[k].0 < ids[n - 1].0;
      assert k > n - 1 ==> ids[n - 1].0 < ids[k].0;
    }
  }

  lemma {:induction false} RebuiltOnly(m: map<nat, nat>, ids: seq<ReqId>, n: nat, c: nat)
    requires Listing(m, ids) && n <= |ids| && c in MaxOf(ids, n)
    ensures c in m
  {
    if n > 0 && c != ids[n - 1].0 {
      RebuiltOnly(m, ids, n - 1, c);
    }
  }

  /** What a replica rebuilds from such a list is the map itself. */
  lemma ListingRebuilds(m: map<nat, nat>, ids: seq<ReqId>)
    requires Listing(m, ids)
    ensures MaxOf(ids, |ids|) == m
  {
    var r := MaxOf(ids, |ids|);
    forall c | c in r
      ensures c in m
    {
      RebuiltOnly(m, ids, |ids|, c);
    }
    forall c | c in m
      ensures c in r && r[c] == m[c]
    {
      var i :| 0 <= i < |ids| && ids[i].0 == c;
      RebuiltAt(m, ids, |ids|, i);
    }
  }

  /**
   * `ProcessFetchedEntries`. For the primary: where the batch ends, in bytes and in entries. For a backup: each
   * client of the batch, ascending, with its largest client sequence, which is what the backup rebuilds as its map;
   * client id 0, which the sentinel carries, is left out. The result is the last index of the batch.
   */
  method ProcessFetchedEntries(es: seq<Entry>, primary: bool) returns (ids: seq<ReqId>, lastIdx: nat)
    requires |es| >= 2
    ensures lastIdx == es[|es| - 2].logIdx
    ensures primary ==> ids == [(es[|es| - 1].clientSeq, 0), (lastIdx + 1, 0)]
    ensures !primary ==>
              exists m :: IsMax(es, |es|, m) && Listing(m - {0}, ids) && MaxOf(ids, |ids|) == m - {0}
  {
    if primary {
      var endSequence := es[|es| - 1].clientSeq;
      var endIdx := es[|es| - 2].logIdx + 1;
      ids := [(endSequence, 0), (endIdx, 0)];
    } else {
      var m := MaxPerClient(es);
      ids := ListAscending(m - {0});
      ListingRebuilds(m - {0}, ids);
    }
    lastIdx := es[|es| - 2].logIdx;
  }

  /** A client of a fetched batch is covered exactly up to its largest sequence in it; sentinel and id 0 say nothing. */
  lemma CoveredByBatch(es: seq<Entry>, m: map<nat, nat>, e: Entry)
    requires IsMax(es, |es|, m) && e.clientId != 0
    ensures Covered(m - {0}, e) <==>
            || (exists i :: 0 <= i < |es| && es[i].clientId == e.clientId && e.clientSeq <= es[i].clientSeq)
            || (e.clientSeq == 0 && forall i :: 0 <= i < |es| ==> es[i].clientId != e.clientId)
  {
    if e.clientId in m {
      var i :| 0 <= i < |es| && es[i].clientId == e.clientId && es[i].clientSeq == m[e.clientId];
    }
  }

  // ---------------------------------------------------------------- the primary's watermarks

  /**
   * Telling the primary about a fetched batch is the ring's watermark step: if the batch was fetched in one state, as
   * entries `a` up to `m`, then in any later one the two words written are the boundary after entry `m - 1`.
   */
  lemma PrimaryGcIsAdvance(states: seq<State>, steps: seq<Step>, j: nat, k: nat, a: nat, m: nat, es: seq<Entry>)
    requires RingProofs.GuardedRun(states, steps) && j <= k < |states|
    requires a < m <= |states[j].recs| && es == Entries(states[j], a, m) + [Sentinel(StartAt(states[j], m))]
    requires states[j].rg > 0 && forall i :: 0 <= i < m ==> Shown(states[j].recs[i])
    requires states[k].orderedIdxWatermk <= m
    ensures var s := states[k];
            && Shape(s) && Enabled(s, Advance(m))
            && Apply(s, Advance(m))
            == s.(orderedWatermk := es[|es| - 1].clientSeq, orderedIdxWatermk := es[|es| - 2].logIdx + 1)
  {
    RingProofs.RunSound(states, steps, j);
    RingProofs.RunSound(states, steps, k);
    RingProofs.RunLater(states, steps, j, k);
    BoundaryStays(states[j], states[k], m);
  }

  /** A boundary above shown entries stays one that the watermark may move to. */
  lemma BoundaryStays(s: State, t: State, m: nat)
    requires Sound(s) && Sound(t) && RingProofs.Later(s, t) && 0 < m <= |s.recs| && t.orderedIdxWatermk <= m
    requires forall i :: 0 <= i < m ==> Shown(s.recs[i])
    ensures Enabled(t, Advance(m)) && StartAt(t, m) == StartAt(s, m) && s.recs[m - 1].entry.logIdx == m - 1
  {
    assert RecSane(s, m - 1) && RecSane(t, m - 1);
    forall i | 0 <= i < m
      ensures Shown(t.recs[i])
    {
      assert Shown(s.recs[i]);
    }
  }
}

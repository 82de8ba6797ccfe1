/** The consensus process: the sequential fetch-and-store loop, and its two threads with two buffers between them. */
module ConsLog {
  import opened Arith
  import opened Codec
  import opened Batches
  import opened Ring
  import opened RingReads
  import opened Striping
  import opened Shards
  import opened Backend
  import opened Gc
  import DurLog
  import RingProofs

  // ---------------------------------------------------------------- the order

  /** The primary's order: entry `i` is the one with index `i`. */
  function Log(s: State): seq<Entry> {
    Entries(s, 0, |s.recs|)
  }

  /** What shard `j` of `n` has to hold once the first `p` entries are stored. */
  function Share(s: State, n: nat, j: nat, p: nat): seq<Entry>
    requires n > 0 && p <= |s.recs|
  {
    Pick(Log(s), n, j, p)
  }

  lemma {:induction false} PickSame(x: seq<Entry>, y: seq<Entry>, n: nat, j: nat, p: nat)
    requires n > 0 && p <= |x| && p <= |y| && forall i :: 0 <= i < p ==> x[i] == y[i]
    ensures Pick(x, n, j, p) == Pick(y, n, j, p)
  {
    if p > 0 {
      PickSame(x, y, n, j, p - 1);
    }
  }

  lemma {:induction false} PickIsFrom(es: seq<Entry>, n: nat, j: nat, p: nat, k: nat) returns (i: nat)
    requires n > 0 && p <= |es| && k < |Pick(es, n, j, p)|
    ensures i < p && Pick(es, n, j, p)[k] == es[i]
  {
    if k < |Pick(es, n, j, p - 1)| {
      i := PickIsFrom(es, n, j, p - 1, k);
    } else {
      i := p - 1;
    }
  }

  /** An entry of a share is the entry of the order with its index. */
  lemma ShareIsFromLog(s: State, n: nat, j: nat, p: nat, k: nat)
    requires Sound(s) && n > 0 && p <= |s.recs| && k < |Share(s, n, j, p)|
    ensures var e := Share(s, n, j, p)[k]; e.logIdx < p && e == Log(s)[e.logIdx]
  {
    var i := PickIsFrom(Log(s), n, j, p, k);
    assert RecSane(s, i);
  }

  /** Picking from a list and then from what follows it. */
  lemma {:induction false} PickOn(log: seq<Entry>, es: seq<Entry>, n: nat, j: nat, a: nat, k: nat)
    requires n > 0 && a + k <= |log| && k <= |es| && forall i :: 0 <= i < k ==> es[i] == log[a + i]
    ensures Pick(log, n, j, a) + Pick(es, n, j, k) == Pick(log, n, j, a + k)
  {
    if k > 0 {
      PickOn(log, es, n, j, a, k - 1);
    }
  }

  /** Entries `a` up to `b` as a fetch delivers them. */
  function BatchOf(s: State, a: nat, b: nat): seq<Entry>
    requires a <= b <= |s.recs|
  {
    Entries(s, a, b) + [Sentinel(StartAt(s, b))]
  }

  /** Every entry takes at least one byte. */
  lemma {:induction false} CountBelowBytes(s: State, a: nat, b: nat)
    requires Inv(s) && a <= b <= |s.recs|
    ensures b - a <= StartAt(s, b) - StartAt(s, a)
  {
    if a < b {
      CountBelowBytes(s, a, b - 1);
      assert RecSane(s, b - 1);
    }
  }

  /** A fetched batch is one that the backend can spread: consecutive, published, and the sentinel told apart. */
  lemma BatchIsStorable(s: State, a: nat, b: nat)
    requires Inv(s) && s.orderedIdxWatermk <= a < b <= |s.recs| && s.rg < TWO_32
    ensures var es := BatchOf(s, a, b);
            && |es| >= 2 && RealCount(es) == b - a < TWO_32 && Contiguous(es, b - a)
            && es[0].logIdx == a && es[b - a - 1].logIdx == b - 1
            && forall i :: 0 <= i < b - a ==> Representable(es[i]) && es[i].flags != 0
  {
    var es := BatchOf(s, a, b);
    CountBelowBytes(s, a, b);
    BeginAboveWatermark(s, a);
    RingProofs.WatermarkBelow(s, b);
    forall i | 0 <= i < b - a
      ensures es[i].logIdx == a + i && Representable(es[i]) && es[i].flags != 0
    {
      assert RecSane(s, a + i);
    }
  }

  /** What an appender brought is in the order under the index that it took, at any later time. */
  lemma AppendedIsLogged(s: State, t: nat, later: State)
    requires Shape(s) && Layout(s) && Enabled(s, Reserve(t)) && RingProofs.Later(Apply(s, Reserve(t)), later)
    ensures s.indexer < |later.recs|
    ensures RingProofs.Carries(Log(later)[s.indexer], s.threads[t].e) && Log(later)[s.indexer].view == s.view
  {
    RingProofs.ReserveRecords(s, t);
  }

  // ---------------------------------------------------------------- the process

  datatype Buffer = Buffer(entries: seq<Entry>, empty: bool)

  /** `buf` holds entries `a` up to `b`. */
  predicate HoldsBatch(s: State, a: nat, b: nat, buf: Buffer) {
    a < b <= |s.recs| && !buf.empty && buf.entries == BatchOf(s, a, b)
  }

  predicate Vacant(buf: Buffer) {
    buf.empty && buf.entries == []
  }

  /** Fetch `r` took entries `cuts[r]` up to `cuts[r + 1]`; the flag of all of them is set. */
  predicate CutsOk(s: State, cuts: seq<nat>)
    requires s.rg > 0
  {
    && |cuts| > 0 && cuts[0] == 0 && cuts[|cuts| - 1] <= |s.recs|
    && (forall r :: 0 <= r < |cuts| - 1 ==> cuts[r] < cuts[r + 1])
    && forall i {:trigger Shown(s.recs[i])} :: 0 <= i < cuts[|cuts| - 1] ==> Shown(s.recs[i])
  }

  /** The two buffers hold the batches from `storeRound` on. */
  predicate Buffered(s: State, buffers: seq<Buffer>, storeRound: nat, cuts: seq<nat>) {
    && |buffers| == 2 && storeRound + 1 <= |cuts| <= storeRound + 3
    && (if storeRound + 1 < |cuts| then HoldsBatch(s, cuts[storeRound], cuts[storeRound + 1], buffers[storeRound % 2])
        else Vacant(buffers[storeRound % 2]))
    && (if storeRound + 2 < |cuts|
        then HoldsBatch(s, cuts[storeRound + 1], cuts[storeRound + 2], buffers[(storeRound + 1) % 2])
        else Vacant(buffers[(storeRound + 1) % 2]))
  }

  /** The first `p` entries are on the shards, each shard has its share, and nothing else. */
  ghost predicate OnShards(s: State, servers: seq<ShardServer>, unit: nat, p: nat)
    reads servers
  {
    && servers != [] && Cluster(servers, unit) && p <= |s.recs| && Complete(servers, p)
    && forall j :: 0 <= j < |servers| ==> servers[j].history == Share(s, |servers|, j, p)
  }

  lemma {:induction false} CutsIncrease(cuts: seq<nat>, r: nat, q: nat)
    requires r <= q < |cuts| && forall i :: 0 <= i < |cuts| - 1 ==> cuts[i] < cuts[i + 1]
    ensures cuts[r] <= cuts[q]
  {
    if r < q {
      CutsIncrease(cuts, r, q - 1);
    }
  }

  /** The next fetch finds its buffer free exactly if fewer than two batches wait. */
  lemma SlotFree(s: State, buffers: seq<Buffer>, storeRound: nat, cuts: seq<nat>)
    requires Buffered(s, buffers, storeRound, cuts)
    ensures buffers[(|cuts| - 1) % 2].empty <==> |cuts| < storeRound + 3
  {
  }

  lemma FetchFills(s: State, buffers: seq<Buffer>, storeRound: nat, cuts: seq<nat>, m: nat, buf: Buffer)
    requires Inv(s) && CutsOk(s, cuts) && Buffered(s, buffers, storeRound, cuts) && |cuts| < storeRound + 3
    requires cuts[|cuts| - 1] < m <= |s.recs| && buf == Buffer(BatchOf(s, cuts[|cuts| - 1], m), false)
    requires forall i :: cuts[|cuts| - 1] <= i < m ==> Shown(s.recs[i])
    ensures CutsOk(s, cuts + [m]) && Buffered(s, buffers[(|cuts| - 1) % 2 := buf], storeRound, cuts + [m])
  {
  }

  // ---------------------------------------------------------------- the ring moves on

  /** Boundaries and entries that have been fetched stay what they are while appenders go on. */
  lemma SameBatch(s: State, t: State, a: nat, b: nat)
    requires Inv(s) && Inv(t) && RingProofs.Later(s, t) && a < b <= |s.recs|
    ensures BatchOf(s, a, b) == BatchOf(t, a, b) && StartAt(s, b) == StartAt(t, b)
  {
    assert RecSane(s, b - 1) && RecSane(t, b - 1);
    assert Entries(s, a, b) == Entries(t, a, b);
  }

  lemma SameShare(s: State, t: State, n: nat, j: nat, p: nat)
    requires s.rg > 0 && RingProofs.Later(s, t) && n > 0 && p <= |s.recs|
    ensures Share(s, n, j, p) == Share(t, n, j, p)
  {
    PickSame(Log(s), Log(t), n, j, p);
  }

  lemma LaterCuts(s: State, t: State, cuts: seq<nat>)
    requires Inv(s) && Inv(t) && RingProofs.Later(s, t) && CutsOk(s, cuts)
    ensures CutsOk(t, cuts) && StartAt(s, cuts[|cuts| - 1]) == StartAt(t, cuts[|cuts| - 1])
  {
    var b := cuts[|cuts| - 1];
    if b > 0 {
      SameBatch(s, t, 0, b);
    }
    forall i | 0 <= i < b
      ensures Shown(t.recs[i])
    {
      assert Shown(s.recs[i]);
    }
  }

  lemma LaterBuffers(s: State, t: State, buffers: seq<Buffer>, storeRound: nat, cuts: seq<nat>)
    requires Inv(s) && Inv(t) && RingProofs.Later(s, t) && Buffered(s, buffers, storeRound, cuts)
    ensures Buffered(t, buffers, storeRound, cuts)
  {
    if storeRound + 1 < |cuts| { SameBatch(s, t, cuts[storeRound], cuts[storeRound + 1]); }
    if storeRound + 2 < |cuts| { SameBatch(s, t, cuts[storeRound + 1], cuts[storeRound + 2]); }
  }

  lemma LaterShards(s: State, t: State, servers: seq<ShardServer>, unit: nat, p: nat)
    requires Inv(s) && RingProofs.Later(s, t) && OnShards(s, servers, unit, p)
    ensures OnShards(t, servers, unit, p)
  {
    forall j | 0 <= j < |servers|
      ensures servers[j].history == Share(t, |servers|, j, p)
    {
      SameShare(s, t, |servers|, j, p);
    }
  }

  lemma AdvanceIsLater(s: State, k: nat)
    requires Inv(s) && Enabled(s, Advance(k))
    ensures Inv(Apply(s, Advance(k))) && RingProofs.Later(s, Apply(s, Advance(k)))
  {
    RingProofs.AdvanceKeeps(s, k);
    RingProofs.StepLater(s, Advance(k));
  }

  lemma ShareGrows(s: State, n: nat, j: nat, a: nat, b: nat, es: seq<Entry>)
    requires n > 0 && a <= b <= |s.recs| && es == BatchOf(s, a, b)
    ensures Share(s, n, j, a) + Pick(es, n, j, b - a) == Share(s, n, j, b)
  {
    PickOn(Log(s), es, n, j, a, b - a);
  }

  /** A fetched batch goes to the shards: they now hold the next stretch of the order, each its share. */
  method StoreOnShards(s: State, servers: seq<ShardServer>, unit: nat, es: seq<Entry>, ghost a: nat, ghost b: nat)
    returns (endIdx: nat)
    requires Inv(s) && s.rg < TWO_32 && s.orderedIdxWatermk == a < b <= |s.recs|
    requires es == BatchOf(s, a, b) && OnShards(s, servers, unit, a)
    modifies servers
    ensures OnShards(s, servers, unit, b) && endIdx == b - 1
  {
    BatchIsStorable(s, a, b);
    ghost var n := RealCount(es);
    assert n == b - a && es[0].logIdx == a && es[n - 1].logIdx == b - 1;
    endIdx := AppendToShards(servers, unit, es);
    forall j | 0 <= j < |servers|
      ensures servers[j].history == Share(s, |servers|, j, b)
    {
      ShareGrows(s, |servers|, j, a, b, es);
    }
  }

  /** Taking the oldest batch out leaves the other one first. */
  lemma StoreFrees(s: State, buffers: seq<Buffer>, storeRound: nat, cuts: seq<nat>)
    requires Buffered(s, buffers, storeRound, cuts) && storeRound + 1 < |cuts|
    ensures Buffered(s, buffers[storeRound % 2 := Buffer([], true)], storeRound + 1, cuts)
  {
  }

  /** The two words written for a batch are the next boundary of the ring. */
  lemma BatchAdvances(s: State, a: nat, b: nat, es: seq<Entry>)
    requires Inv(s) && s.orderedIdxWatermk == a < b <= |s.recs| && es == BatchOf(s, a, b)
    requires forall i :: 0 <= i < b ==> Shown(s.recs[i])
    ensures Enabled(s, Advance(b))
    ensures Apply(s, Advance(b))
         == s.(orderedWatermk := es[|es| - 1].clientSeq, orderedIdxWatermk := es[|es| - 2].logIdx + 1)
  {
    assert RecSane(s, b - 1);
  }

  /** A fetch from the watermark on finds nothing that it could misread. */
  predicate CanFetchOldest(s: State, maxFetch: nat) {
    0 < s.sequencer ==> FetchArgs(s, s.orderedIdxWatermk, Limit(s.orderedWatermk, s.sequencer, maxFetch))
  }

  /** Where it ends. */
  function OldestEnd(s: State, maxFetch: nat): (b: nat)
    requires Shape(s) && s.orderedIdxWatermk <= |s.recs|
    ensures s.orderedIdxWatermk <= b <= |s.recs|
  {
    if s.sequencer == 0 then s.orderedIdxWatermk
    else FetchEnd(s, s.orderedIdxWatermk, Limit(s.orderedWatermk, s.sequencer, maxFetch))
  }

  /** It takes the settled entries from the watermark on, as far as there are any and the bound allows. */
  lemma OldestTakes(s: State, maxFetch: nat)
    requires Inv(s) && CanFetchOldest(s, maxFetch)
    ensures TakenUpTo(s, s.orderedIdxWatermk, OldestEnd(s, maxFetch), s.sequencer, maxFetch)
  {
    if 0 < s.sequencer {
      FetchTakes(s, s.orderedIdxWatermk, s.sequencer, maxFetch);
    } else {
      NothingThere(s);
    }
  }

  lemma NothingThere(s: State)
    requires Sound(s) && s.sequencer == 0
    ensures s.recs == []
  {
    if s.recs != [] {
      RingProofs.StartsIncrease(s, 0, |s.recs|);
    }
  }

  method FetchOldest(s: State, maxFetch: nat) returns (es: seq<Entry>, fetched: nat)
    requires Inv(s) && CanFetchOldest(s, maxFetch)
    ensures fetched == 0 <==> OldestEnd(s, maxFetch) == s.orderedIdxWatermk
    ensures fetched > 0 ==> es == BatchOf(s, s.orderedIdxWatermk, OldestEnd(s, maxFetch))
    ensures forall i :: 0 <= i < OldestEnd(s, maxFetch) ==> Shown(s.recs[i])
  {
    ghost var a := s.orderedIdxWatermk;
    BeginAboveWatermark(s, a);
    es, fetched := FetchUnorderedEntries(s, s.orderedWatermk, s.sequencer, 0, maxFetch, a);
    if 0 < s.sequencer {
      EmptyFetch(s, a, Limit(s.orderedWatermk, s.sequencer, maxFetch));
    }
  }

  /** `DeleteOrderedEntriesAsync` on the primary: one remote write of both watermarks. */
  method WriteWatermarks(s: State, es: seq<Entry>, ghost b: nat) returns (t: State, lastIdx: nat)
    requires Inv(s) && s.orderedIdxWatermk < b <= |s.recs| && es == BatchOf(s, s.orderedIdxWatermk, b)
    requires forall i :: 0 <= i < b ==> Shown(s.recs[i])
    ensures Enabled(s, Advance(b)) && t == Apply(s, Advance(b)) && Inv(t) && RingProofs.Later(s, t) && lastIdx == b - 1
  {
    BatchAdvances(s, s.orderedIdxWatermk, b, es);
    AdvanceIsLater(s, b);
    var words;
    words, lastIdx := ProcessFetchedEntries(es, true);
    t := s.(orderedWatermk := words[0].0, orderedIdxWatermk := words[1].0);
  }

  lemma AfterStore(s: State, t: State, buffers: seq<Buffer>, storeRound: nat, cuts: seq<nat>)
    requires Inv(s) && Inv(t) && RingProofs.Later(s, t) && CutsOk(s, cuts)
    requires Buffered(s, buffers, storeRound, cuts) && storeRound + 1 < |cuts|
    ensures CutsOk(t, cuts) && StartAt(s, cuts[|cuts| - 1]) == StartAt(t, cuts[|cuts| - 1])
    ensures Buffered(t, buffers[storeRound % 2 := Buffer([], true)], storeRound + 1, cuts)
  {
    LaterCuts(s, t, cuts);
    LaterBuffers(s, t, buffers, storeRound, cuts);
    StoreFrees(t, buffers, storeRound, cuts);
  }

  /** The oldest batch that waits, if there is one. */
  lemma OldestBatch(s: State, buffers: seq<Buffer>, storeRound: nat, cuts: seq<nat>)
    requires Inv(s) && CutsOk(s, cuts) && Buffered(s, buffers, storeRound, cuts)
    ensures buffers[storeRound % 2].empty <==> |cuts| == storeRound + 1
    ensures storeRound + 1 < |cuts| ==>
              var a, b := cuts[storeRound], cuts[storeRound + 1];
              && a < b <= |s.recs| && buffers[storeRound % 2].entries == BatchOf(s, a, b)
              && forall i :: 0 <= i < b ==> Shown(s.recs[i])
  {
    if storeRound + 1 < |cuts| {
      CutsIncrease(cuts, storeRound + 1, |cuts| - 1);
    }
  }

  /** A read through servers that hold the first `p` entries. */
  method ReadThrough(ghost s: State, servers: seq<ShardServer>, unit: nat, ghost p: nat, idx: nat, ghost stable: nat)
    returns (r: Option<Entry>)
    requires Sound(s) && OnShards(s, servers, unit, p)
    requires forall j :: 0 <= j < |servers| ==> servers[j].globalIndex == stable
    ensures r.Some? <==> idx < p && idx <= stable
    ensures r.Some? ==> idx < |s.recs| && r.value == Log(s)[idx]
  {
    r := ReadBack(servers, unit, idx, p, stable);
    if r.Some? {
      ServedIsFromLog(s, |servers|, idx % |servers|, p, idx, r.value);
    }
  }

  lemma ServedIsFromLog(s: State, n: nat, j: nat, p: nat, idx: nat, e: Entry)
    requires Sound(s) && n > 0 && p <= |s.recs| && Serves(Share(s, n, j, p), n, idx, e)
    ensures idx < |s.recs| && e == Log(s)[idx]
  {
    ShareIsFromLog(s, n, j, p, idx / n);
  }

  /** What every backup is told about a batch. */
  method BackupIds(es: seq<Entry>) returns (ids: seq<DurLog.ReqId>)
    requires |es| >= 2
    ensures TellsMaxima(es, ids)
  {
    var lastIdx;
    ids, lastIdx := ProcessFetchedEntries(es, false);
  }

  /** The shards get the batch, and then the primary's watermarks move past it. */
  method OrderBatch(s: State, servers: seq<ShardServer>, unit: nat, es: seq<Entry>, ghost b: nat)
    returns (t: State, endIdx: nat, lastIdx: nat)
    requires Inv(s) && s.rg < TWO_32 && s.orderedIdxWatermk < b <= |s.recs| && es == BatchOf(s, s.orderedIdxWatermk, b)
    requires forall i :: 0 <= i < b ==> Shown(s.recs[i])
    requires OnShards(s, servers, unit, s.orderedIdxWatermk)
    modifies servers
    ensures Enabled(s, Advance(b)) && t == Apply(s, Advance(b)) && Inv(t) && RingProofs.Later(s, t)
    ensures OnShards(t, servers, unit, b) && endIdx == lastIdx == b - 1
  {
    endIdx := StoreOnShards(s, servers, unit, es, s.orderedIdxWatermk, b);
    t, lastIdx := WriteWatermarks(s, es, b);
    LaterShards(s, t, servers, unit, b);
  }

  /** Publishing the stable index changes nothing that is stored. */
  method PublishStable(ghost s: State, servers: seq<ShardServer>, unit: nat, ghost p: nat, idx: nat)
    requires OnShards(s, servers, unit, p)
    modifies servers
    ensures OnShards(s, servers, unit, p) && forall j :: 0 <= j < |servers| ==> servers[j].globalIndex == idx
  {
    UpdateGlobalIdx(servers, unit, idx);
  }

  method OrderAndPublish(s: State, servers: seq<ShardServer>, unit: nat, es: seq<Entry>, ghost b: nat)
    returns (t: State, endIdx: nat)
    requires Inv(s) && s.rg < TWO_32 && s.orderedIdxWatermk < b <= |s.recs| && es == BatchOf(s, s.orderedIdxWatermk, b)
    requires forall i :: 0 <= i < b ==> Shown(s.recs[i])
    requires OnShards(s, servers, unit, s.orderedIdxWatermk)
    modifies servers
    ensures Inv(t) && RingProofs.Later(s, t) && t.orderedIdxWatermk == b && BatchOf(t, s.orderedIdxWatermk, b) == es
    ensures OnShards(t, servers, unit, b) && endIdx == b - 1
    ensures forall j :: 0 <= j < |servers| ==> servers[j].globalIndex == endIdx
  {
    var lastIdx;
    t, endIdx, lastIdx := OrderBatch(s, servers, unit, es, b);
    SameBatch(s, t, s.orderedIdxWatermk, b);
    PublishStable(t, servers, unit, b, lastIdx);
  }

  // ---------------------------------------------------------------- the two threads' shared state

  /** All that ties the ring, the buffers and the two positions together. */
  predicate Pipe(s: State, buffers: seq<Buffer>, fetchBegin: nat, storeRound: nat, cuts: seq<nat>) {
    && Inv(s) && s.rg < TWO_32 && CutsOk(s, cuts) && Buffered(s, buffers, storeRound, cuts)
    && fetchBegin == StartAt(s, cuts[|cuts| - 1]) && s.orderedIdxWatermk == cuts[storeRound]
  }

  /** After a fetch of entries up to `m`. */
  lemma PipeFilled(s: State, buffers: seq<Buffer>, fetchBegin: nat, storeRound: nat, cuts: seq<nat>, m: nat, buf: Buffer)
    requires Pipe(s, buffers, fetchBegin, storeRound, cuts) && |cuts| < storeRound + 3
    requires cuts[|cuts| - 1] < m <= |s.recs| && buf == Buffer(BatchOf(s, cuts[|cuts| - 1], m), false)
    requires forall i :: cuts[|cuts| - 1] <= i < m ==> Shown(s.recs[i])
    ensures Pipe(s, buffers[(|cuts| - 1) % 2 := buf], StartAt(s, m), storeRound, cuts + [m])
  {
    FetchFills(s, buffers, storeRound, cuts, m, buf);
  }

  /** After the oldest batch is stored. */
  lemma PipeStored(s: State, t: State, buffers: seq<Buffer>, fetchBegin: nat, storeRound: nat, cuts: seq<nat>)
    requires Pipe(s, buffers, fetchBegin, storeRound, cuts) && storeRound + 1 < |cuts|
    requires Inv(t) && RingProofs.Later(s, t) && t.orderedIdxWatermk == cuts[storeRound + 1]
    ensures Pipe(t, buffers[storeRound % 2 := Buffer([], true)], fetchBegin, storeRound + 1, cuts)
  {
    AfterStore(s, t, buffers, storeRound, cuts);
  }

  /** While appenders go on. */
  lemma PipeLater(s: State, t: State, buffers: seq<Buffer>, fetchBegin: nat, storeRound: nat, cuts: seq<nat>)
    requires Pipe(s, buffers, fetchBegin, storeRound, cuts)
    requires Inv(t) && RingProofs.Later(s, t) && t.orderedIdxWatermk == s.orderedIdxWatermk
    ensures Pipe(t, buffers, fetchBegin, storeRound, cuts)
  {
    LaterCuts(s, t, cuts);
    LaterBuffers(s, t, buffers, storeRound, cuts);
  }

  /** The oldest batch that waits is ordered and published. */
  method OrderOldest(s: State, servers: seq<ShardServer>, unit: nat, buffers: seq<Buffer>, storeRound: nat,
                     ghost fetchBegin: nat, ghost cuts: seq<nat>)
    returns (t: State, endIdx: nat)
    requires Pipe(s, buffers, fetchBegin, storeRound, cuts) && storeRound + 1 < |cuts|
    requires OnShards(s, servers, unit, s.orderedIdxWatermk)
    modifies servers
    ensures Pipe(t, buffers[storeRound % 2 := Buffer([], true)], fetchBegin, storeRound + 1, cuts)
    ensures OnShards(t, servers, unit, t.orderedIdxWatermk) && endIdx + 1 == cuts[storeRound + 1]
    ensures forall j :: 0 <= j < |servers| ==> servers[j].globalIndex == endIdx
  {
    OldestBatch(s, buffers, storeRound, cuts);
    t, endIdx := OrderAndPublish(s, servers, unit, buffers[storeRound % 2].entries, cuts[storeRound + 1]);
    PipeStored(s, t, buffers, fetchBegin, storeRound, cuts);
  }

  /** One turn of the sequential loop. */
  method FetchAndOrder(s: State, servers: seq<ShardServer>, unit: nat, maxFetch: nat)
    returns (ok: bool, t: State, endIdx: nat, ids: seq<DurLog.ReqId>)
    requires Inv(s) && s.rg < TWO_32 && OnShards(s, servers, unit, s.orderedIdxWatermk) && CanFetchOldest(s, maxFetch)
    modifies servers
    ensures Inv(t) && RingProofs.Later(s, t) && OnShards(t, servers, unit, t.orderedIdxWatermk)
    ensures t.orderedIdxWatermk == OldestEnd(s, maxFetch) && (ok <==> t.orderedIdxWatermk > s.orderedIdxWatermk)
    ensures !ok ==> t == s
    ensures ok ==> endIdx + 1 == t.orderedIdxWatermk
    ensures ok ==> TellsMaxima(BatchOf(t, s.orderedIdxWatermk, t.orderedIdxWatermk), ids)
    ensures ok ==> forall j :: 0 <= j < |servers| ==> servers[j].globalIndex == endIdx
  {
    var es, fetched := FetchOldest(s, maxFetch);
    if fetched == 0 {
      RingProofs.LaterItself(s);
      return false, s, 0, [];
    }
    ids := BackupIds(es);
    t, endIdx := OrderAndPublish(s, servers, unit, es, OldestEnd(s, maxFetch));
    ok := true;
  }

  class ConsensusLog {
    const unit: nat
    const servers: seq<ShardServer>
    /** The primary's memory, read and written remotely. */
    var ring: State
    var buffers: seq<Buffer>
    var fetchRound: nat
    var fetchBegin: nat
    var storeRound: nat
    var maxOrderedIdx: nat
    ghost var cuts: seq<nat>

    /** Exactly what lies below the primary's watermark is on the shards. */
    ghost predicate Ordered()
      reads this, servers
    {
      Inv(ring) && ring.rg < TWO_32 && OnShards(ring, servers, unit, ring.orderedIdxWatermk)
    }

    ghost predicate Valid()
      reads this, servers
    {
      && |cuts| == fetchRound + 1 && Pipe(ring, buffers, fetchBegin, storeRound, cuts)
      && OnShards(ring, servers, unit, ring.orderedIdxWatermk)
    }

    /** Nothing is fetched or stored yet. */
    constructor (stripeUnit: nat, shardServers: seq<ShardServer>, primary: State)
      requires Init(primary) && primary.rg < TWO_32 && shardServers != [] && Cluster(shardServers, stripeUnit)
      requires forall j :: 0 <= j < |shardServers| ==> shardServers[j].history == []
      ensures Valid() && unit == stripeUnit && servers == shardServers && ring == primary && cuts == [0]
    {
      unit, servers, ring := stripeUnit, shardServers, primary;
      buffers := [Buffer([], true), Buffer([], true)];
      fetchRound, fetchBegin, storeRound, maxOrderedIdx, cuts := 0, 0, 0, 0, [0];
      RingProofs.InitKeeps(primary);
    }

    /** What one fetch may find: everything it reads over is settled, or in flight with its flag in view. */
    ghost predicate CanFetch(maxFetch: nat)
      requires Valid()
      reads this, servers
    {
      fetchBegin < ring.sequencer ==>
        FetchArgs(ring, cuts[fetchRound], Limit(fetchBegin, ring.sequencer, maxFetch))
    }

    /** How far the next fetch gets. */
    ghost function NextCut(maxFetch: nat): nat
      requires Valid()
      reads this, servers
    {
      FetchEnd(ring, cuts[fetchRound], Limit(fetchBegin, ring.sequencer, maxFetch))
    }

    /**
     * `fetch`: unless its buffer is still full, it fills it with what follows the last batch. `ok` is false if there
     * was no free buffer or nothing to fetch, and then nothing changes.
     */
    method Fetch(maxFetch: nat) returns (ok: bool)
      requires Valid() && CanFetch(maxFetch)
      modifies this`buffers, this`fetchRound, this`fetchBegin, this`cuts
      ensures Valid()
      ensures ok <==> old(fetchRound) < storeRound + 2 && old(fetchBegin) < ring.sequencer
                      && old(NextCut(maxFetch)) > old(cuts[fetchRound])
      ensures cuts == if ok then old(cuts) + [old(NextCut(maxFetch))] else old(cuts)
      ensures ok ==> TakenUpTo(ring, old(cuts[fetchRound]), cuts[|cuts| - 1], ring.sequencer, maxFetch)
      ensures !ok ==> buffers == old(buffers)
    {
      var slot := fetchRound % 2;
      SlotFree(ring, buffers, storeRound, cuts);
      if !buffers[slot].empty {
        return false;
      }
      ghost var m := NextCut(maxFetch);
      if fetchBegin < ring.sequencer { FetchTakes(ring, cuts[fetchRound], ring.sequencer, maxFetch); }
      var es, fetched := FetchNext(maxFetch);
      if fetched == 0 {
        return false;
      }
      Fill(slot, es, fetched, m);
      return true;
    }

    method Fill(slot: nat, es: seq<Entry>, fetched: nat, ghost m: nat)
      requires Valid() && slot == fetchRound % 2 && fetchRound < storeRound + 2
      requires cuts[fetchRound] < m <= |ring.recs| && es == BatchOf(ring, cuts[fetchRound], m)
      requires fetchBegin + fetched == StartAt(ring, m)
      requires forall i :: cuts[fetchRound] <= i < m ==> Shown(ring.recs[i])
      modifies this`buffers, this`fetchRound, this`fetchBegin, this`cuts
      ensures Valid() && cuts == old(cuts) + [m]
    {
      PipeFilled(ring, buffers, fetchBegin, storeRound, cuts, m, Buffer(es, false));
      buffers := buffers[slot := Buffer(es, false)];
      fetchBegin := fetchBegin + fetched;
      fetchRound := fetchRound + 1;
      cuts := cuts + [m];
    }

    /** The fetch itself; it continues at the end of the last batch, which is at or above the watermark. */
    method FetchNext(maxFetch: nat) returns (es: seq<Entry>, fetched: nat)
      requires Valid() && CanFetch(maxFetch)
      ensures fetched > 0 <==> fetchBegin < ring.sequencer && NextCut(maxFetch) > cuts[fetchRound]
      ensures fetched > 0 ==> es == BatchOf(ring, cuts[fetchRound], NextCut(maxFetch))
      ensures fetched > 0 ==> fetchBegin + fetched == StartAt(ring, NextCut(maxFetch))
    {
      CutsIncrease(cuts, storeRound, fetchRound);
      BeginAboveWatermark(ring, cuts[fetchRound]);
      es, fetched := FetchUnorderedEntries(ring, ring.orderedWatermk, ring.sequencer, fetchBegin, maxFetch,
                                           cuts[fetchRound]);
      if fetchBegin < ring.sequencer {
        EmptyFetch(ring, cuts[fetchRound], Limit(fetchBegin, ring.sequencer, maxFetch));
      }
    }

    /** The appenders of the primary go on between two steps of this process. */
    method Elapse(next: State)
      requires Valid() && Inv(next) && RingProofs.Later(ring, next) && next.orderedIdxWatermk == ring.orderedIdxWatermk
      modifies this`ring
      ensures Valid() && ring == next
    {
      PipeLater(ring, next, buffers, fetchBegin, storeRound, cuts);
      LaterShards(ring, next, servers, unit, ring.orderedIdxWatermk);
      ring := next;
    }

    /**
     * `store`: the oldest batch that waits goes to the shards, the replicas are told, the buffer becomes free, and the
     * stable index is published. `ok` is false if no batch waits.
     */
    method Store() returns (ok: bool, ids: seq<DurLog.ReqId>)
      requires Valid()
      modifies this`ring, this`buffers, this`storeRound, this`maxOrderedIdx, servers
      ensures Valid() && (ok <==> old(storeRound) < fetchRound)
      ensures !ok ==> ring == old(ring) && buffers == old(buffers) && storeRound == old(storeRound)
      ensures ok ==> storeRound == old(storeRound) + 1 && maxOrderedIdx + 1 == cuts[storeRound]
      ensures ok ==> TellsMaxima(old(buffers[storeRound % 2].entries), ids)
      ensures ok ==> forall j :: 0 <= j < |servers| ==> servers[j].globalIndex == maxOrderedIdx
    {
      var slot := storeRound % 2;
      OldestBatch(ring, buffers, storeRound, cuts);
      if buffers[slot].empty {
        return false, [];
      }
      ok := true;
      ids := BackupIds(buffers[slot].entries);
      StoreOldest(slot);
    }

    method StoreOldest(slot: nat)
      requires Valid() && storeRound < fetchRound && slot == storeRound % 2
      modifies this`ring, this`buffers, this`storeRound, this`maxOrderedIdx, servers
      ensures Valid() && storeRound == old(storeRound) + 1 && maxOrderedIdx + 1 == cuts[storeRound]
      ensures forall j :: 0 <= j < |servers| ==> servers[j].globalIndex == maxOrderedIdx
    {
      var t, endIdx := OrderOldest(ring, servers, unit, buffers, storeRound, fetchBegin, cuts);
      Commit(t, endIdx, buffers[slot := Buffer([], true)], storeRound + 1);
    }

    /** The process records what it has done. */
    method Commit(t: State, endIdx: nat, left: seq<Buffer>, round: nat)
      requires |cuts| == fetchRound + 1 && Pipe(t, left, fetchBegin, round, cuts)
      requires OnShards(t, servers, unit, t.orderedIdxWatermk)
      modifies this`ring, this`buffers, this`storeRound, this`maxOrderedIdx
      ensures Valid() && ring == t && maxOrderedIdx == endIdx && buffers == left && storeRound == round
    {
      ring, maxOrderedIdx, buffers, storeRound := t, endIdx, left, round;
    }

    /**
     * A read of the log through the shards, when they all know stable index `stable`: it returns exactly the stored
     * indices up to it, and gives the very entry that the primary has under that index, payload included.
     */
    method ReadEntry(idx: nat, ghost stable: nat) returns (r: Option<Entry>)
      requires Valid() && forall j :: 0 <= j < |servers| ==> servers[j].globalIndex == stable
      ensures r.Some? <==> idx < cuts[storeRound] && idx <= stable
      ensures r.Some? ==> idx < |ring.recs| && r.value == Log(ring)[idx]
    {
      r := ReadThrough(ring, servers, unit, cuts[storeRound], idx, stable);
    }

    /**
     * From end to end: appender `t` of the primary was about to reserve in state `s`, and got index `idx`. A read of
     * `idx` that returns gives the payload, size, client id and client sequence that the client passed to the append.
     */
    method ReadAppended(idx: nat, ghost stable: nat, ghost s: State, ghost t: nat) returns (r: Option<Entry>)
      requires Valid() && forall j :: 0 <= j < |servers| ==> servers[j].globalIndex == stable
      requires Sound(s) && Enabled(s, Reserve(t)) && s.indexer == idx && RingProofs.Later(Apply(s, Reserve(t)), ring)
      ensures r.Some? <==> idx < cuts[storeRound] && idx <= stable
      ensures r.Some? ==> RingProofs.Carries(r.value, s.threads[t].e) && r.value.view == s.view
    {
      AppendedIsLogged(s, t, ring);
      r := ReadEntry(idx, stable);
    }

    /**
     * `fetchAndStore`: fetch from the watermark, store, collect, publish the stable index. If there is something to
     * fetch, the watermark moves to the end of it, and it is then readable on the shards.
     */
    method FetchAndStore(maxFetch: nat) returns (ok: bool, ids: seq<DurLog.ReqId>)
      requires Ordered() && CanFetchOldest(ring, maxFetch)
      modifies this`ring, this`maxOrderedIdx, servers
      ensures Ordered() && RingProofs.Later(old(ring), ring)
      ensures ring.orderedIdxWatermk == OldestEnd(old(ring), maxFetch)
      ensures !ok ==> ring == old(ring)
      ensures ok ==> maxOrderedIdx + 1 == ring.orderedIdxWatermk > old(ring.orderedIdxWatermk)
      ensures ok ==> TellsMaxima(BatchOf(ring, old(ring.orderedIdxWatermk), ring.orderedIdxWatermk), ids)
      ensures ok ==> forall j :: 0 <= j < |servers| ==> servers[j].globalIndex == maxOrderedIdx
    {
      var t, endIdx;
      ok, t, endIdx, ids := FetchAndOrder(ring, servers, unit, maxFetch);
      if ok {
        Order(t, endIdx);
      }
    }

    method Order(t: State, endIdx: nat)
      requires Inv(t) && t.rg < TWO_32 && OnShards(t, servers, unit, t.orderedIdxWatermk)
      modifies this`ring, this`maxOrderedIdx
      ensures Ordered() && ring == t && maxOrderedIdx == endIdx
    {
      ring, maxOrderedIdx := t, endIdx;
    }
  }

  /** `ids` says of each client of the batch how far it is ordered, as a backup will rebuild it. */
  ghost predicate TellsMaxima(es: seq<Entry>, ids: seq<DurLog.ReqId>) {
    exists m :: IsMax(es, |es|, m) && Listing(m - {0}, ids) && DurLog.MaxOf(ids, |ids|) == m - {0}
  }
}

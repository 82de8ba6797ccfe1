/** A batch on its way from the consensus side into the shard servers: striped, serialized, stored. */
module Backend {
  import opened Arith
  import opened Codec
  import opened Batches
  import opened Striping
  import opened Shards

  // ---------------------------------------------------------------- what each shard has to receive

  /** The entries of a batch that belong to shard `j` continue its history without a gap. */
  lemma {:induction false} PickContinues(es: seq<Entry>, n: nat, shards: nat, j: nat, history: seq<Entry>, k: nat)
    requires j < shards && 0 < n <= |es| && Contiguous(es, n) && k <= n
    requires InOrder(j, shards, history) && Filled(j, shards, |history|, es[0].logIdx)
    ensures var all := history + Pick(es, shards, j, k);
            InOrder(j, shards, all) && Filled(j, shards, |all|, es[0].logIdx + k)
  {
    if k > 0 {
      PickContinues(es, n, shards, j, history, k - 1);
      assert es[k - 1].logIdx == es[0].logIdx + (k - 1);
      OneContinues(shards, j, history, Pick(es, shards, j, k - 1), es[k - 1]);
    }
  }

  lemma OneContinues(shards: nat, j: nat, history: seq<Entry>, picked: seq<Entry>, e: Entry)
    requires j < shards && InOrder(j, shards, history + picked) && Filled(j, shards, |history + picked|, e.logIdx)
    ensures var all := history + (picked + if e.logIdx % shards == j then [e] else []);
            InOrder(j, shards, all) && Filled(j, shards, |all|, e.logIdx + 1)
  {
    NextSlot(j, shards, |history + picked|, e.logIdx);
    if e.logIdx % shards == j {
      assert history + (picked + [e]) == history + picked + [e];
    } else {
      assert history + (picked + []) == history + picked;
    }
  }

  lemma {:induction false} SentInGrows(round: seq<Request>, j: nat, a: nat, b: nat)
    requires a <= b <= |round|
    ensures SentIn(round, j, a) <= SentIn(round, j, b)
  {
    if a < b {
      SentInGrows(round, j, a, b - 1);
    }
  }

  lemma {:induction false} SentGrows(rounds: seq<seq<Request>>, j: nat, a: nat, b: nat)
    requires a <= b <= |rounds|
    ensures Sent(rounds, j, a) <= Sent(rounds, j, b)
  {
    if a < b {
      SentGrows(rounds, j, a, b - 1);
    }
  }

  /** What shard `j` has been sent before request `t` of round `i`. */
  function SoFar(rounds: seq<seq<Request>>, j: nat, i: nat, t: nat): seq<Entry>
    requires i < |rounds| && t <= |rounds[i]|
  {
    Sent(rounds, j, i) + SentIn(rounds[i], j, t)
  }

  lemma SoFarGrows(rounds: seq<seq<Request>>, j: nat, i: nat, t: nat)
    requires i < |rounds| && t < |rounds[i]|
    ensures SoFar(rounds, j, i, t + 1)
         == SoFar(rounds, j, i, t) + if rounds[i][t].shard == j then rounds[i][t].entries else []
    ensures SoFar(rounds, j, i, t + 1) <= Sent(rounds, j, |rounds|)
  {
    var round := rounds[i];
    SentInGrows(round, j, t + 1, |round|);
    SentGrows(rounds, j, i + 1, |rounds|);
    assert SentIn(round, j, t + 1) == SentIn(round, j, t) + if round[t].shard == j then round[t].entries else [];
    assert Sent(rounds, j, i + 1) == Sent(rounds, j, i) + SentIn(round, j, |round|);
  }

  /** A request that continues a shard's history inside one big stripe is one the shard's stripe has room for. */
  lemma RequestIsNext(unit: nat, shards: nat, j: nat, history: seq<Entry>, r: Request)
    requires unit > 0 && j < shards && unit * shards > 0 && r.shard == j && WellPlaced(r, unit * shards, shards)
    requires InOrder(j, shards, history + r.entries)
    ensures NextRequest(unit, shards, j, history, r.entries)
  {
    var all, n, m := history + r.entries, |history|, |r.entries|;
    forall t | 0 <= t < m
      ensures r.entries[t].logIdx == IndexOf(j, shards, n + t)
    {
      assert all[n + t] == r.entries[t];
    }
    assert r.entries[m - 1].logIdx / (unit * shards) == r.entries[0].logIdx / (unit * shards);
    assert r.entries[0].logIdx == IndexOf(j, shards, n + 0) && r.entries[m - 1].logIdx == IndexOf(j, shards, n + m - 1);
    SameStripeFits(unit, shards, j, n, m);
  }

  // ---------------------------------------------------------------- delivery

  method Encode(es: seq<Entry>) returns (msg: seq<byte>)
    requires AllRepresentable(es) && AllLive(es) && |es| < TWO_32
    ensures Message(msg, es)
  {
    var buf := new byte[4 + TotalSpan(es)];
    var written := MultiSerializer(es, buf);
    msg := buf[..];
    assert msg[..4] == buf[..4];
    CountOf(msg, |es|);
  }

  /** Server `j` of `n`, with nothing outstanding: it has replicated all it holds. */
  ghost predicate InCluster(s: ShardServer, unit: nat, n: nat, j: nat)
    reads s
  {
    && s.Valid() && s.unit == unit && s.shards == n && s.id == j && j < n
    && (s.history != [] ==> s.replicatedIndex == IndexOf(j, n, |s.history| - 1))
  }

  /** One server per shard, all set up alike. */
  ghost predicate Cluster(servers: seq<ShardServer>, unit: nat)
    reads servers
  {
    && unit > 0
    && (forall j :: 0 <= j < |servers| ==> InCluster(servers[j], unit, |servers|, j))
    && forall i, j :: 0 <= i < j < |servers| ==> servers[i] != servers[j]
  }

  ghost predicate Histories(servers: seq<ShardServer>, hs: seq<seq<Entry>>)
    reads servers
  {
    |hs| == |servers| && forall j :: 0 <= j < |servers| ==> servers[j].history == hs[j]
  }

  /** The histories before request `t` of round `i`. */
  ghost function After(hs: seq<seq<Entry>>, rounds: seq<seq<Request>>, i: nat, t: nat): (r: seq<seq<Entry>>)
    requires i < |rounds| && t <= |rounds[i]|
    ensures |r| == |hs| && forall j :: 0 <= j < |r| ==> r[j] == hs[j] + SoFar(rounds, j, i, t)
  {
    seq(|hs|, j requires 0 <= j < |hs| => hs[j] + SoFar(rounds, j, i, t))
  }

  /** What a list needs for the trip: fields that fit, flags that are set, a count that fits 32 bits. */
  predicate Sendable(es: seq<Entry>) {
    AllRepresentable(es) && AllLive(es) && |es| < TWO_32
  }

  /** The requests, shard by shard, continue the histories `hs`. */
  ghost predicate Deliverable(rounds: seq<seq<Request>>, unit: nat, hs: seq<seq<Entry>>) {
    && unit > 0 && |hs| > 0 && unit * |hs| > 0
    && (forall i, t :: 0 <= i < |rounds| && 0 <= t < |rounds[i]| ==> WellPlaced(rounds[i][t], unit * |hs|, |hs|))
    && (forall j :: 0 <= j < |hs| ==>
          var all := Sent(rounds, j, |rounds|); Sendable(all) && InOrder(j, |hs|, hs[j] + all))
  }

  /** The next request can be delivered. */
  lemma DeliverableNext(rounds: seq<seq<Request>>, unit: nat, hs: seq<seq<Entry>>, i: nat, t: nat)
    requires Deliverable(rounds, unit, hs) && i < |rounds| && t < |rounds[i]|
    ensures var r := rounds[i][t];
            && r.shard < |hs| && Sendable(r.entries)
            && NextRequest(unit, |hs|, r.shard, hs[r.shard] + SoFar(rounds, r.shard, i, t), r.entries)
  {
    var r := rounds[i][t];
    assert WellPlaced(r, unit * |hs|, |hs|);
    assert r.entries[0].logIdx % |hs| == r.shard;
    var j := r.shard;
    var all, before, after := Sent(rounds, j, |rounds|), SoFar(rounds, j, i, t), SoFar(rounds, j, i, t + 1);
    SoFarGrows(rounds, j, i, t);
    forall k | 0 <= k < |r.entries|
      ensures Representable(r.entries[k]) && r.entries[k].flags != 0
    {
      assert r.entries[k] == after[|before| + k] == all[|before| + k];
    }
    var part := hs[j] + before + r.entries;
    forall k | 0 <= k < |part|
      ensures part[k].logIdx == IndexOf(j, |hs|, k)
    {
      assert part[k] == (hs[j] + all)[k];
    }
    RequestIsNext(unit, |hs|, j, hs[j] + before, r);
  }

  method DeliverOne(servers: seq<ShardServer>, unit: nat, r: Request, ghost hs: seq<seq<Entry>>)
    requires Cluster(servers, unit) && Histories(servers, hs) && r.shard < |servers| && Sendable(r.entries)
    requires NextRequest(unit, |servers|, r.shard, hs[r.shard], r.entries)
    modifies servers
    ensures Cluster(servers, unit) && Histories(servers, hs[r.shard := hs[r.shard] + r.entries])
  {
    var msg := Encode(r.entries);
    servers[r.shard].AppendBatchHandler([], msg, r.entries);
    forall j | 0 <= j < |servers|
      ensures InCluster(servers[j], unit, |servers|, j)
    {
      assert j != r.shard ==> servers[j] != servers[r.shard];
    }
  }

  lemma AfterNext(hs: seq<seq<Entry>>, rounds: seq<seq<Request>>, i: nat, t: nat)
    requires i < |rounds| && t < |rounds[i]| && rounds[i][t].shard < |hs|
    ensures var r, before := rounds[i][t], After(hs, rounds, i, t);
            After(hs, rounds, i, t + 1) == before[r.shard := before[r.shard] + r.entries]
  {
    var r, before, after := rounds[i][t], After(hs, rounds, i, t), After(hs, rounds, i, t + 1);
    forall j | 0 <= j < |hs|
      ensures after[j] == before[r.shard := before[r.shard] + r.entries][j]
    {
      SoFarGrows(rounds, j, i, t);
    }
  }

  method DeliverRound(servers: seq<ShardServer>, unit: nat, rounds: seq<seq<Request>>, i: nat, ghost hs: seq<seq<Entry>>)
    requires Cluster(servers, unit) && Deliverable(rounds, unit, hs) && i < |rounds| && |hs| == |servers|
    requires Histories(servers, After(hs, rounds, i, 0))
    modifies servers
    ensures Cluster(servers, unit) && Histories(servers, After(hs, rounds, i, |rounds[i]|))
  {
    for t := 0 to |rounds[i]|
      invariant Cluster(servers, unit) && Histories(servers, After(hs, rounds, i, t))
    {
      DeliverableNext(rounds, unit, hs, i, t);
      AfterNext(hs, rounds, i, t);
      DeliverOne(servers, unit, rounds[i][t], After(hs, rounds, i, t));
    }
  }

  /** The histories after the first `i` rounds. */
  ghost function AfterRounds(hs: seq<seq<Entry>>, rounds: seq<seq<Request>>, i: nat): (r: seq<seq<Entry>>)
    requires i <= |rounds|
    ensures |r| == |hs| && forall j :: 0 <= j < |r| ==> r[j] == hs[j] + Sent(rounds, j, i)
  {
    seq(|hs|, j requires 0 <= j < |hs| => hs[j] + Sent(rounds, j, i))
  }

  lemma NoRounds(hs: seq<seq<Entry>>, rounds: seq<seq<Request>>)
    ensures AfterRounds(hs, rounds, 0) == hs
  {
    var r := AfterRounds(hs, rounds, 0);
    forall j | 0 <= j < |hs|
      ensures r[j] == hs[j]
    {
      assert Sent(rounds, j, 0) == [] && hs[j] + [] == hs[j];
    }
  }

  lemma RoundEnds(hs: seq<seq<Entry>>, rounds: seq<seq<Request>>, i: nat)
    requires i < |rounds|
    ensures After(hs, rounds, i, 0) == AfterRounds(hs, rounds, i)
    ensures After(hs, rounds, i, |rounds[i]|) == AfterRounds(hs, rounds, i + 1)
  {
    forall j | 0 <= j < |hs|
      ensures SoFar(rounds, j, i, 0) == Sent(rounds, j, i)
      ensures SoFar(rounds, j, i, |rounds[i]|) == Sent(rounds, j, i + 1)
    {
    }
  }

  /** All rounds, each only after the one before is complete: every server has got exactly what was sent to it. */
  method Deliver(servers: seq<ShardServer>, unit: nat, rounds: seq<seq<Request>>, ghost hs: seq<seq<Entry>>)
    requires Cluster(servers, unit) && Deliverable(rounds, unit, hs) && Histories(servers, hs)
    modifies servers
    ensures Cluster(servers, unit) && Histories(servers, AfterRounds(hs, rounds, |rounds|))
  {
    NoRounds(hs, rounds);
    for i := 0 to |rounds|
      invariant Cluster(servers, unit) && Histories(servers, AfterRounds(hs, rounds, i))
    {
      RoundEnds(hs, rounds, i);
      DeliverRound(servers, unit, rounds, i, hs);
    }
  }

  lemma {:induction false} PickSendable(es: seq<Entry>, shards: nat, j: nat, k: nat)
    requires shards > 0 && k <= |es| && (forall i :: 0 <= i < k ==> Representable(es[i]) && es[i].flags != 0)
    ensures AllRepresentable(Pick(es, shards, j, k)) && AllLive(Pick(es, shards, j, k)) && |Pick(es, shards, j, k)| <= k
  {
    if k > 0 {
      PickSendable(es, shards, j, k - 1);
    }
  }

  lemma SpreadIsDeliverable(es: seq<Entry>, n: nat, unit: nat, rounds: seq<seq<Request>>, hs: seq<seq<Entry>>)
    requires unit > 0 && |hs| > 0 && unit * |hs| > 0 && 0 < n <= |es| && n < TWO_32 && Contiguous(es, n)
    requires forall i :: 0 <= i < n ==> Representable(es[i]) && es[i].flags != 0
    requires Spread(es, unit * |hs|, |hs|, rounds, n)
    requires forall j :: 0 <= j < |hs| ==> InOrder(j, |hs|, hs[j]) && Filled(j, |hs|, |hs[j]|, es[0].logIdx)
    ensures Deliverable(rounds, unit, hs)
    ensures forall j :: 0 <= j < |hs| ==>
              var all := hs[j] + Pick(es, |hs|, j, n);
              InOrder(j, |hs|, all) && Filled(j, |hs|, |all|, es[0].logIdx + n)
  {
    forall j | 0 <= j < |hs|
      ensures var all := Sent(rounds, j, |rounds|); Sendable(all) && InOrder(j, |hs|, hs[j] + all)
      ensures var all := hs[j] + Pick(es, |hs|, j, n);
              InOrder(j, |hs|, all) && Filled(j, |hs|, |all|, es[0].logIdx + n)
    {
      PickSendable(es, |hs|, j, n);
      PickContinues(es, n, |hs|, j, hs[j], n);
    }
  }

  /** What has to be true of a batch of `n` entries for servers with the histories `hs`. */
  ghost predicate Fitting(es: seq<Entry>, n: nat, hs: seq<seq<Entry>>) {
    && |hs| > 0 && 0 < n <= |es| && n < TWO_32 && Contiguous(es, n)
    && (forall i :: 0 <= i < n ==> Representable(es[i]) && es[i].flags != 0)
    && forall j :: 0 <= j < |hs| ==> InOrder(j, |hs|, hs[j]) && Filled(j, |hs|, |hs[j]|, es[0].logIdx)
  }

  /** Each server has its entries of the batch after what it had. */
  ghost predicate Extends(es: seq<Entry>, n: nat, hs: seq<seq<Entry>>, hs': seq<seq<Entry>>)
    requires |hs| > 0 && 0 < n <= |es|
  {
    && |hs'| == |hs|
    && forall j :: 0 <= j < |hs| ==> hs'[j] == hs[j] + Pick(es, |hs|, j, n) && Filled(j, |hs|, |hs'[j]|, es[0].logIdx + n)
  }

  lemma SpreadExtends(es: seq<Entry>, n: nat, unit: nat, rounds: seq<seq<Request>>, hs: seq<seq<Entry>>)
    requires unit > 0 && Fitting(es, n, hs) && unit * |hs| > 0 && Spread(es, unit * |hs|, |hs|, rounds, n)
    ensures Deliverable(rounds, unit, hs) && Extends(es, n, hs, AfterRounds(hs, rounds, |rounds|))
  {
    SpreadIsDeliverable(es, n, unit, rounds, hs);
  }

  /** The rounds of a batch are delivered. */
  method DeliverBatch(servers: seq<ShardServer>, unit: nat, rounds: seq<seq<Request>>, ghost es: seq<Entry>, ghost n: nat,
                      ghost hs: seq<seq<Entry>>) returns (ghost hs': seq<seq<Entry>>)
    requires Cluster(servers, unit) && Histories(servers, hs) && Fitting(es, n, hs)
    requires unit * |hs| > 0 && Spread(es, unit * |hs|, |hs|, rounds, n)
    modifies servers
    ensures Cluster(servers, unit) && Histories(servers, hs') && Extends(es, n, hs, hs')
  {
    SpreadExtends(es, n, unit, rounds, hs);
    Deliver(servers, unit, rounds, hs);
    hs' := AfterRounds(hs, rounds, |rounds|);
  }

  /** The servers hold exactly the indices below `x`, each shard its own. */
  ghost predicate Complete(servers: seq<ShardServer>, x: nat)
    reads servers
  {
    forall j :: 0 <= j < |servers| ==> Filled(j, |servers|, |servers[j].history|, x)
  }

  /**
   * Appending a fetched batch: every server gets its entries after those it had, and if the servers together held
   * exactly the indices before the batch, they now hold exactly those up to its end.
   */
  method AppendToShards(servers: seq<ShardServer>, unit: nat, es: seq<Entry>) returns (endIdx: nat)
    requires Cluster(servers, unit) && servers != [] && es != [] && RealCount(es) < TWO_32
    requires var n := RealCount(es);
             Contiguous(es, n) && (forall i :: 0 <= i < n ==> Representable(es[i]) && es[i].flags != 0)
    requires Complete(servers, es[0].logIdx)
    modifies servers
    ensures Cluster(servers, unit) && endIdx == es[RealCount(es) - 1].logIdx && Complete(servers, endIdx + 1)
    ensures forall j :: 0 <= j < |servers| ==>
              servers[j].history == old(servers[j].history) + Pick(es, |servers|, j, RealCount(es))
  {
    ghost var hs := HistoriesOf(servers);
    var rounds;
    endIdx, rounds := AppendBatch(es, unit, |servers|);
    ghost var hs' := DeliverBatch(servers, unit, rounds, es, RealCount(es), hs);
    assert endIdx + 1 == es[0].logIdx + RealCount(es);
  }

  ghost function HistoriesOf(servers: seq<ShardServer>): (hs: seq<seq<Entry>>)
    reads servers
    ensures Histories(servers, hs)
  {
    seq(|servers|, j requires 0 <= j < |servers| reads servers => servers[j].history)
  }

  /** `UpdateGlobalIdx`: every server learns the stable index. */
  method UpdateGlobalIdx(servers: seq<ShardServer>, unit: nat, idx: nat)
    requires Cluster(servers, unit)
    modifies servers
    ensures Cluster(servers, unit)
    ensures forall j :: 0 <= j < |servers| ==>
              servers[j].globalIndex == idx && servers[j].history == old(servers[j].history)
  {
    for i := 0 to |servers|
      invariant Cluster(servers, unit)
      invariant forall j :: 0 <= j < |servers| ==> servers[j].history == old(servers[j].history)
      invariant forall j :: 0 <= j < i ==> servers[j].globalIndex == idx
    {
      servers[i].UpdateGlobalIdxHandler(idx);
    }
  }

  /** The server that an index is routed to. */
  function Home(servers: seq<ShardServer>, idx: nat): ShardServer
    requires servers != []
  {
    servers[idx % |servers|]
  }

  /** `e` is the entry that a shard with this history has for index `idx`, and it carries that index. */
  predicate Serves(history: seq<Entry>, shards: nat, idx: nat, e: Entry) {
    shards > 0 && idx / shards < |history| && e == history[idx / shards] && e.logIdx == idx
  }

  /**
   * `ReadEntry`, routed by index. When the servers hold exactly the indices below `x` and all know stable index
   * `stable`, a read returns exactly for the held indices up to it, and gives the entry with that index.
   */
  method ReadBack(servers: seq<ShardServer>, unit: nat, idx: nat, ghost x: nat, ghost stable: nat)
    returns (r: Option<Entry>)
    requires Cluster(servers, unit) && servers != [] && Complete(servers, x)
    requires forall j :: 0 <= j < |servers| ==> servers[j].globalIndex == stable
    ensures r.Some? <==> idx < x && idx <= stable
    ensures r.Some? ==> Serves(Home(servers, idx).history, |servers|, idx, r.value)
  {
    var j := idx % |servers|;
    HeldBelow(j, |servers|, |servers[j].history|, x, idx);
    r := servers[j].ReadEntryHandler(idx);
  }

  /** A shard that is filled up to `x` has an entry for exactly those of its indices that are below `x`. */
  lemma HeldBelow(id: nat, shards: nat, len: nat, x: nat, idx: nat)
    requires id < shards && Filled(id, shards, len, x) && idx % shards == id
    ensures idx / shards < len <==> idx < x
    ensures idx / shards < len ==> idx <= IndexOf(id, shards, len - 1)
  {
    RoutedIndex(idx, shards);
    var q := idx / shards;
    if q < len - 1 {
      TimesIncreases(q, len - 1, shards);
    } else if q > len {
      TimesIncreases(len, q, shards);
    }
  }
}

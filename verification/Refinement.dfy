/** How the byte-level replica relates to the protocol's view of it: the primary's steps, and a backup's collection. */
module Refinement {
  import opened Codec
  import opened Ring
  import RingProofs
  import RingReads
  import DurLog
  import Gc
  import Striping
  import ConsLog
  import Collections
  import P = Protocol
  import PP = ProtocolProofs

  function OpOf(e: Entry): P.Op {
    P.Op(e.clientId, e.clientSeq)
  }

  function Ops(es: seq<Entry>): (r: seq<P.Op>)
    ensures |r| == |es| && forall i :: 0 <= i < |es| ==> r[i] == OpOf(es[i])
  {
    seq(|es|, i requires 0 <= i < |es| => OpOf(es[i]))
  }

  lemma OpsConcat(a: seq<Entry>, b: seq<Entry>)
    ensures Ops(a + b) == Ops(a) + Ops(b)
  {
  }

  // ---------------------------------------------------------------- a replica's ring

  /** The entries whose flag is set. */
  ghost function ShownSet(recs: seq<Rec>): set<nat> {
    set i | 0 <= i < |recs| && Shown(recs[i])
  }

  function ShownAt(p: P.State, r: nat): set<nat>
    requires r <= |p.backs|
  {
    if r == 0 then p.prim.shown else p.backs[r - 1].shown
  }

  /** Where the byte watermark of replica `r` points, as an index. */
  function OrderedAt(p: P.State, r: nat): nat
    requires r <= |p.backs|
  {
    if r == 0 then p.prim.ordered else p.backs[r - 1].settled
  }

  /** In the protocol, client `c` waits for replica `r`, which is at the given stage with its append. */
  predicate AtReplica(p: P.State, c: nat, r: nat, stage: P.Stage) {
    P.Waits(p, c, r) && p.clients[c].at[r] == stage
  }

  /** The client whose append an appender works on. */
  function ClientOf(s: State, t: nat): nat
    requires t < |s.threads|
  {
    match s.threads[t]
    case Idle => 0
    case Admitted(e) => e.clientId
    case Busy(i) => if i < |s.recs| then s.recs[i].entry.clientId else 0
  }

  /** What the protocol says of an appender's append. */
  predicate Tracked(s: State, p: P.State, r: nat, t: nat)
    requires t < |s.threads|
  {
    match s.threads[t]
    case Idle => true
    case Admitted(e) => AtReplica(p, e.clientId, r, P.Sent) && P.Current(e.clientId, p.clients[e.clientId]) == OpOf(e)
    case Busy(i) => i < |s.recs| && AtReplica(p, ClientOf(s, t), r, if Shown(s.recs[i]) then P.Shown(i) else P.Held(i))
  }

  predicate Distinct(s: State) {
    forall t, u :: 0 <= t < u < |s.threads| && !s.threads[t].Idle? && !s.threads[u].Idle? ==>
                     ClientOf(s, t) != ClientOf(s, u)
  }

  /** A ring's records and watermark are what the protocol says of replica `r`. */
  ghost predicate SameLog(s: State, p: P.State, r: nat) {
    && r <= |p.backs| && Collections.LogAt(p, r) == Ops(DurLog.RecordEntries(s.recs))
    && ShownAt(p, r) == ShownSet(s.recs) && OrderedAt(p, r) == s.orderedIdxWatermk
  }

  /** The ring and the protocol's state agree: on the replica, and on how far each append has got there. */
  ghost predicate Matches(s: State, p: P.State, r: nat) {
    && |p.cons.buffers| == 2 && SameLog(s, p, r) && Distinct(s)
    && forall t {:trigger Tracked(s, p, r, t)} :: 0 <= t < |s.threads| ==> Tracked(s, p, r, t)
  }

  /** A client sends its current append to the replica, where no appender has it yet. */
  predicate Requests(s: State, p: P.State, r: nat, e: Entry) {
    && AtReplica(p, e.clientId, r, P.Sent) && P.Current(e.clientId, p.clients[e.clientId]) == OpOf(e)
    && forall t :: 0 <= t < |s.threads| && !s.threads[t].Idle? ==> ClientOf(s, t) != e.clientId
  }

  /** The watermark goes where the protocol's step takes it: past the batch at hand, or to the end of a backup's walk. */
  predicate Collects(p: P.State, r: nat, k: nat)
    requires |p.cons.buffers| == 2
  {
    if r == 0 then P.Enabled(p, P.GcPrimary) && P.BatchEnd(P.Storing(p).batch) == k
    else r <= |p.backs| && P.Enabled(p, P.GcEnd(r - 1)) && p.backs[r - 1].walked == k
  }

  /** The protocol's own step that corresponds to a step of the ring; three of the ring's steps it does not see. */
  ghost predicate Mirrors(s: State, step: Step, r: nat, p: P.State, p': P.State)
    requires Shape(s) && Enabled(s, step)
  {
    match step
    case Reserve(t) => PP.StepTo(p, P.Reserve(ClientOf(s, t), r), p')
    case Publish(t) => PP.StepTo(p, P.Publish(ClientOf(s, t), r), p')
    case Advance(k) => PP.StepTo(p, if r == 0 then P.GcPrimary else P.GcEnd(r - 1), p')
    case _ => p' == p
  }

  lemma AdmitMirrored(s: State, t: nat, e: Entry, p: P.State, r: nat)
    requires Shape(s) && Enabled(s, Admit(t, e)) && Matches(s, p, r) && Requests(s, p, r, e)
    ensures Matches(Apply(s, Admit(t, e)), p, r)
  {
    var s' := Apply(s, Admit(t, e));
    forall u | 0 <= u < |s'.threads|
      ensures Tracked(s', p, r, u)
    {
      assert Tracked(s, p, r, u);
    }
  }

  /** `s'` is `s` after appender `t` has reserved `rec`, as far as the protocol is concerned. */
  predicate Reserves(s: State, s': State, t: nat, rec: Rec) {
    && t < |s.threads| && s.threads[t].Admitted? && rec.entry.clientId == s.threads[t].e.clientId && rec.stage == Reserved
    && s'.recs == s.recs + [rec] && |s'.threads| == |s.threads| && s'.threads == s.threads[t := Busy(|s.recs|)]
  }

  lemma ReserveDistinct(s: State, s': State, t: nat, rec: Rec, p: P.State, r: nat)
    requires Reserves(s, s', t, rec) && Distinct(s)
    requires forall u {:trigger Tracked(s, p, r, u)} :: 0 <= u < |s.threads| ==> Tracked(s, p, r, u)
    ensures Distinct(s') && forall u :: 0 <= u < |s.threads| ==> ClientOf(s', u) == ClientOf(s, u)
  {
    forall u | 0 <= u < |s.threads|
      ensures ClientOf(s', u) == ClientOf(s, u)
    {
      assert Tracked(s, p, r, u);
    }
  }

  lemma ReserveTracked(s: State, s': State, t: nat, rec: Rec, p: P.State, p': P.State, r: nat, u: nat)
    requires Reserves(s, s', t, rec) && Distinct(s) && u < |s.threads| && Tracked(s, p, r, u)
    requires |p'.clients| == |p.clients| && |p'.backs| == |p.backs|
    requires forall c :: 0 <= c < |p.clients| && c != ClientOf(s, t) ==> p'.clients[c] == p.clients[c]
    requires AtReplica(p', ClientOf(s, t), r, P.Held(|s.recs|))
    ensures Tracked(s', p', r, u)
  {
  }

  lemma ShownReserved(recs: seq<Rec>, rec: Rec)
    requires rec.stage == Reserved
    ensures ShownSet(recs + [rec]) == ShownSet(recs)
    ensures Ops(DurLog.RecordEntries(recs + [rec])) == Ops(DurLog.RecordEntries(recs)) + [OpOf(rec.entry)]
  {
  }

  /** The protocol's reservation, as far as a replica is concerned. */
  lemma ProtocolReserves(p: P.State, c: nat, r: nat, p': P.State)
    requires r <= |p.backs| && PP.StepTo(p, P.Reserve(c, r), p')
    ensures |p'.clients| == |p.clients| && |p'.backs| == |p.backs| && p'.cons == p.cons
    ensures forall d :: 0 <= d < |p.clients| && d != c ==> p'.clients[d] == p.clients[d]
    ensures AtReplica(p', c, r, P.Held(|Collections.LogAt(p, r)|))
    ensures Collections.LogAt(p', r) == Collections.LogAt(p, r) + [P.Current(c, p.clients[c])]
    ensures ShownAt(p', r) == ShownAt(p, r) && OrderedAt(p', r) == OrderedAt(p, r)
  {
  }

  lemma ReserveMirrored(s: State, t: nat, p: P.State, r: nat) returns (p': P.State)
    requires Shape(s) && Enabled(s, Reserve(t)) && Matches(s, p, r)
    ensures Mirrors(s, Reserve(t), r, p, p') && Matches(Apply(s, Reserve(t)), p', r)
  {
    var s', c := Apply(s, Reserve(t)), ClientOf(s, t);
    RingProofs.ReserveRecords(s, t);
    var rec := s'.recs[|s.recs|];
    assert Tracked(s, p, r, t);
    p' := P.Apply(p, P.Reserve(c, r));
    ProtocolReserves(p, c, r, p');
    ShownReserved(s.recs, rec);
    assert Reserves(s, s', t, rec);
    ReserveDistinct(s, s', t, rec, p, r);
    forall u | 0 <= u < |s'.threads|
      ensures Tracked(s', p', r, u)
    {
      assert Tracked(s, p, r, u);
      ReserveTracked(s, s', t, rec, p, p', r, u);
    }
  }

  /** Changing only the stage of record `i` shows entry `i` or nothing. */
  lemma ShownStaged(recs: seq<Rec>, recs': seq<Rec>, i: nat)
    requires i < |recs| == |recs'| && recs' == recs[i := recs[i].(stage := recs'[i].stage)]
    requires Shown(recs[i]) ==> Shown(recs'[i])
    ensures ShownSet(recs') == ShownSet(recs) + if Shown(recs'[i]) then {i} else {}
    ensures Ops(DurLog.RecordEntries(recs')) == Ops(DurLog.RecordEntries(recs))
  {
  }

  /** A step that changes the stage of its own record leaves what the protocol says of other appends alone. */
  lemma OthersTracked(s: State, s': State, t: nat, p: P.State, p': P.State, r: nat, u: nat)
    requires Distinct(s) && Owns(s, t) && u < |s.threads| && u != t && Tracked(s, p, r, u)
    requires |s'.threads| == |s.threads| && s'.threads[u] == s.threads[u] && |s'.recs| == |s.recs|
    requires forall j :: 0 <= j < |s.recs| && j != s.threads[t].i ==> s'.recs[j] == s.recs[j]
    requires |p'.clients| == |p.clients| && |p'.backs| == |p.backs|
    requires forall c :: 0 <= c < |p.clients| && c != ClientOf(s, t) ==> p'.clients[c] == p.clients[c]
    ensures Tracked(s', p', r, u)
  {
  }

  lemma SameClients(s: State, s': State)
    requires Distinct(s) && |s'.threads| == |s.threads| && s'.threads == s.threads && |s'.recs| == |s.recs|
    requires forall i :: 0 <= i < |s.recs| ==> s'.recs[i].entry == s.recs[i].entry
    ensures Distinct(s') && forall u :: 0 <= u < |s.threads| ==> ClientOf(s', u) == ClientOf(s, u)
  {
  }

  /** The protocol's publication of entry `i`, as far as a replica is concerned. */
  lemma ProtocolPublishes(p: P.State, c: nat, r: nat, i: nat, p': P.State)
    requires r <= |p.backs| && AtReplica(p, c, r, P.Held(i)) && PP.StepTo(p, P.Publish(c, r), p')
    ensures |p'.clients| == |p.clients| && |p'.backs| == |p.backs| && p'.cons == p.cons
    ensures forall d :: 0 <= d < |p.clients| && d != c ==> p'.clients[d] == p.clients[d]
    ensures AtReplica(p', c, r, P.Shown(i)) && Collections.LogAt(p', r) == Collections.LogAt(p, r)
    ensures ShownAt(p', r) == ShownAt(p, r) + {i} && OrderedAt(p', r) == OrderedAt(p, r)
  {
  }

  lemma PublishMirrored(s: State, t: nat, p: P.State, r: nat) returns (p': P.State)
    requires Shape(s) && Enabled(s, Publish(t)) && Matches(s, p, r)
    ensures Mirrors(s, Publish(t), r, p, p') && Matches(Apply(s, Publish(t)), p', r)
  {
    var s', c, i := Apply(s, Publish(t)), ClientOf(s, t), s.threads[t].i;
    assert Tracked(s, p, r, t);
    p' := P.Apply(p, P.Publish(c, r));
    ProtocolPublishes(p, c, r, i, p');
    ShownStaged(s.recs, s'.recs, i);
    SameClients(s, s');
    forall u | 0 <= u < |s'.threads|
      ensures Tracked(s', p', r, u)
    {
      if u != t {
        assert Tracked(s, p, r, u);
        OthersTracked(s, s', t, p, p', r, u);
      }
    }
  }

  /** Writing the entry and copying its overflow back: the protocol does not see either. */
  lemma HiddenMirrored(s: State, t: nat, s': State, p: P.State, r: nat)
    requires Owns(s, t) && Matches(s, p, r) && s'.orderedIdxWatermk == s.orderedIdxWatermk && |s'.recs| == |s.recs|
    requires s'.recs == s.recs[s.threads[t].i := s.recs[s.threads[t].i].(stage := s'.recs[s.threads[t].i].stage)]
    requires Shown(s.recs[s.threads[t].i]) == Shown(s'.recs[s.threads[t].i])
    requires |s'.threads| == |s.threads| && s'.threads == s.threads[t := s'.threads[t]]
    requires s'.threads[t].Idle? || s'.threads[t] == s.threads[t]
    ensures Matches(s', p, r)
  {
    var i := s.threads[t].i;
    ShownStaged(s.recs, s'.recs, i);
    assert ShownSet(s'.recs) == ShownSet(s.recs);
    forall u | 0 <= u < |s'.threads|
      ensures Tracked(s', p, r, u)
    {
      assert Tracked(s, p, r, u);
    }
  }

  /** The protocol's watermark step, as far as a replica is concerned. */
  lemma ProtocolCollects(p: P.State, r: nat, k: nat, p': P.State)
    requires r <= |p.backs| && |p.cons.buffers| == 2 && Collects(p, r, k)
    requires PP.StepTo(p, if r == 0 then P.GcPrimary else P.GcEnd(r - 1), p')
    ensures p'.clients == p.clients && |p'.backs| == |p.backs| && p'.cons.buffers == p.cons.buffers
    ensures Collections.LogAt(p', r) == Collections.LogAt(p, r) && ShownAt(p', r) == ShownAt(p, r) && OrderedAt(p', r) == k
  {
  }

  lemma AdvanceMirrored(s: State, k: nat, p: P.State, r: nat) returns (p': P.State)
    requires Shape(s) && Enabled(s, Advance(k)) && Matches(s, p, r) && Collects(p, r, k)
    ensures Mirrors(s, Advance(k), r, p, p') && Matches(Apply(s, Advance(k)), p', r)
  {
    var s' := Apply(s, Advance(k));
    p' := P.Apply(p, if r == 0 then P.GcPrimary else P.GcEnd(r - 1));
    ProtocolCollects(p, r, k, p');
    forall u | 0 <= u < |s'.threads|
      ensures Tracked(s', p', r, u)
    {
      assert Tracked(s, p, r, u);
    }
  }

  /**
   * Every step of a replica's ring is the protocol's own `Reserve`, `Publish` or end of a collection for that replica, or
   * is one that the protocol does not see, and ring and protocol go on agreeing. Appenders take up only what clients have
   * sent, and the watermark is written to the end of the batch that is being stored, or of the backup's walk.
   */
  lemma RingRefinesReplica(s: State, step: Step, p: P.State, r: nat) returns (p': P.State)
    requires Shape(s) && Enabled(s, step) && Matches(s, p, r)
    requires step.Admit? ==> Requests(s, p, r, step.e)
    requires step.Advance? ==> Collects(p, r, step.k)
    ensures Mirrors(s, step, r, p, p') && Matches(Apply(s, step), p', r)
  {
    p' := p;
    match step
    case Admit(t, e) => AdmitMirrored(s, t, e, p, r);
    case Reserve(t) => p' := ReserveMirrored(s, t, p, r);
    case Write(t) => HiddenMirrored(s, t, Apply(s, step), p, r);
    case Publish(t) => p' := PublishMirrored(s, t, p, r);
    case Finish(t) => HiddenMirrored(s, t, Apply(s, step), p, r);
    case Advance(k) => p' := AdvanceMirrored(s, k, p, r);
  }

  // ---------------------------------------------------------------- a backup's collection

  lemma {:induction false} PruneMatches(m: map<nat, nat>, es: seq<Entry>, n: nat)
    requires n <= |es|
    ensures P.Keep(m, Ops(es), n) == Ops(DurLog.Survivors(m, es, 0, n))
  {
    if n > 0 {
      PruneMatches(m, es, n - 1);
    }
  }

  /** `n` entries of a walk, one protocol step each. */
  function WalkedBy(b: P.Backup, n: nat): (r: P.Backup)
    requires b.gc.Walking? && b.walked + n <= |b.log|
    ensures r.gc == b.gc && r.log == b.log && r.walked == b.walked + n
  {
    if n == 0 then b else P.Walked(WalkedBy(b, n - 1))
  }

  /** What one entry of a walk leaves pending. */
  function Kept(m: map<nat, nat>, e: Entry): seq<Entry> {
    if DurLog.Covered(m, e) then [] else [e]
  }

  lemma WalkOne(b: P.Backup, e: Entry)
    requires b.gc.Walking? && b.walked < |b.log| && b.log[b.walked] == OpOf(e)
    ensures P.Walked(b).pending == b.pending + Ops(Kept(b.gc.m, e))
  {
  }

  /** The protocol's walk, entry by entry, keeps exactly what the replica's walk over the same entries keeps. */
  lemma {:induction false} WalkMatches(b: P.Backup, es: seq<Entry>, n: nat)
    requires b.gc.Walking? && b.log == Ops(es) && b.walked + n <= |es|
    ensures WalkedBy(b, n).pending == b.pending + Ops(DurLog.Survivors(b.gc.m, es, b.walked, b.walked + n))
  {
    if n > 0 {
      WalkMatches(b, es, n - 1);
      var m, lo, e := b.gc.m, b.walked, es[b.walked + n - 1];
      WalkOne(WalkedBy(b, n - 1), e);
      OpsConcat(DurLog.Survivors(m, es, lo, lo + n - 1), Kept(m, e));
    }
  }

  /** Stopping at the first boundary past the byte `top` is stopping after the entry that starts there. */
  lemma WalksStopAlike(s: State, lo: nat, x: nat)
    requires Sound(s) && x < |s.recs| && lo <= |s.recs|
    ensures DurLog.WalkEnd(s.recs, lo, s.recs[x].start) == if lo <= x then x + 1 else lo
  {
    var hi := DurLog.WalkEnd(s.recs, lo, s.recs[x].start);
    if lo < hi && x + 1 < hi {
      assert s.recs[hi - 1].start <= s.recs[x].start;
      RingProofs.StartsIncrease(s, x, hi - 1);
    }
    if hi < x {
      RingProofs.StartsIncrease(s, hi, x);
    }
  }

  /**
   * The replica knows byte sequences, the protocol indices, of the same entries; a request id that the replica looked up
   * in vain is in its map too, with sequence 0.
   */
  ghost predicate SameKnown(recs: seq<Rec>, known: map<DurLog.ReqId, nat>, index: map<P.Op, nat>) {
    && (forall op :: op in index ==>
          (op.client, op.sq) in known && index[op] < |recs| && recs[index[op]].start == known[(op.client, op.sq)])
    && (forall id :: id in known && P.Op(id.0, id.1) !in index ==> known[id] == 0)
  }

  lemma StartsOrder(s: State, i: nat, j: nat)
    requires Sound(s) && i < |s.recs| && j < |s.recs| && s.recs[i].start <= s.recs[j].start
    ensures i <= j
  {
    if j < i {
      RingProofs.StartsIncrease(s, j, i);
    }
  }

  lemma KnownOrder(s: State, known: map<DurLog.ReqId, nat>, index: map<P.Op, nat>, c: nat, q: nat, x: nat)
    requires Sound(s) && SameKnown(s.recs, known, index) && x <= |s.recs| && (x == |s.recs| ==> x == 0)
    requires DurLog.At(known, (c, q)) <= StartAt(s, x)
    ensures DurLog.At(index, P.Op(c, q)) <= x
  {
    if P.Op(c, q) in index {
      StartsOrder(s, index[P.Op(c, q)], x);
    }
  }

  /**
   * The largest byte sequence named is where the entry with the protocol's largest index starts. If the ring has no
   * entry yet, both are 0, where the first one will be.
   */
  lemma TopsAgree(s: State, ids: seq<DurLog.ReqId>, m: map<nat, nat>, known: map<DurLog.ReqId, nat>,
                  index: map<P.Op, nat>)
    returns (x: nat)
    requires Sound(s) && Gc.Listing(m, ids) && SameKnown(s.recs, known, index)
    ensures x <= |s.recs| && (x == |s.recs| ==> x == 0) && StartAt(s, x) == DurLog.MaxSeq(ids, known, |ids|)
    ensures P.IsTop(index, m, x)
  {
    var top := DurLog.MaxSeq(ids, known, |ids|);
    DurLog.MaxSeqIsLargest(ids, known, |ids|);
    if top == 0 {
      x := 0;
    } else {
      var i :| 0 <= i < |ids| && DurLog.At(known, ids[i]) == top;
      var op := P.Op(ids[i].0, ids[i].1);
      assert ids[i] in known && op in index;
      x := index[op];
      assert ids[i].0 in m && DurLog.At(index, P.Op(ids[i].0, m[ids[i].0])) == x;
    }
    forall c | c in m
      ensures DurLog.At(index, P.Op(c, m[c])) <= x
    {
      var i :| 0 <= i < |ids| && ids[i].0 == c;
      assert ids[i] == (c, m[c]);
      KnownOrder(s, known, index, c, m[c], x);
    }
  }

  lemma MaximaStep(es: seq<Entry>, n: nat, m: map<nat, nat>)
    requires 0 < n <= |es| && m == P.Maxima(Ops(es), n - 1) && Gc.IsMax(es, n - 1, m)
    ensures Gc.IsMax(es, n, P.Maxima(Ops(es), n))
  {
    assert Ops(es)[n - 1] == OpOf(es[n - 1]);
    var k := P.Maxima(Ops(es), n);
    Gc.OneMoreMax(es, n - 1, m, k);
  }

  /** The maxima that the consensus side computes are the protocol's. */
  lemma {:induction false} MaximaMatch(es: seq<Entry>, n: nat) returns (m: map<nat, nat>)
    requires n <= |es|
    ensures m == P.Maxima(Ops(es), n) && Gc.IsMax(es, n, m)
  {
    if n == 0 {
      m := map[];
    } else {
      var before := MaximaMatch(es, n - 1);
      MaximaStep(es, n, before);
      m := P.Maxima(Ops(es), n);
    }
  }

  /** The sentinel of a fetched batch, which carries client id 0, adds nothing once that id is left out. */
  lemma SentinelDropsOut(es: seq<Entry>, sentinel: Entry, m: map<nat, nat>)
    requires sentinel.clientId == 0 && (forall i :: 0 <= i < |es| ==> es[i].clientId != 0)
    requires Gc.IsMax(es + [sentinel], |es| + 1, m)
    ensures m - {0} == P.Maxima(Ops(es), |es|)
  {
    var all, k := es + [sentinel], m - {0};
    forall i | 0 <= i < |es|
      ensures es[i].clientId in k && es[i].clientSeq <= k[es[i].clientId]
    {
      assert all[i] == es[i];
    }
    forall c | c in k
      ensures exists i :: 0 <= i < |es| && es[i].clientId == c && es[i].clientSeq == k[c]
    {
      var i :| 0 <= i < |all| && all[i].clientId == c && all[i].clientSeq == m[c];
      assert all[i] == es[i];
    }
    var n := MaximaMatch(es, |es|);
    MaximaAreUnique(es, |es|, k, n);
  }

  /** What a backup is told about a fetched batch are the protocol's maxima of the batch, its sentinel left out. */
  lemma BatchTells(s: State, a: nat, b: nat, ids: seq<DurLog.ReqId>)
    requires a <= b <= |s.recs| && ConsLog.TellsMaxima(ConsLog.BatchOf(s, a, b), ids)
    requires forall i :: a <= i < b ==> s.recs[i].entry.clientId != 0
    ensures var ops := Ops(RingReads.Entries(s, a, b)); Gc.Listing(P.Maxima(ops, |ops|), ids)
  {
    var es, sentinel := RingReads.Entries(s, a, b), RingReads.Sentinel(StartAt(s, b));
    var m :| Gc.IsMax(es + [sentinel], |es + [sentinel]|, m) && Gc.Listing(m - {0}, ids);
    SentinelDropsOut(es, sentinel, m);
  }

  lemma MaximaAreUnique(es: seq<Entry>, n: nat, m: map<nat, nat>, k: map<nat, nat>)
    requires n <= |es| && Gc.IsMax(es, n, m) && Gc.IsMax(es, n, k)
    ensures m == k
  {
    forall c | c in m
      ensures c in k && m[c] <= k[c]
    {
      var i :| 0 <= i < n && es[i].clientId == c && es[i].clientSeq == m[c];
    }
    forall c | c in k
      ensures c in m && k[c] <= m[c]
    {
      var i :| 0 <= i < n && es[i].clientId == c && es[i].clientSeq == k[c];
    }
  }

  lemma BeginMatches(b: P.Backup, batch: P.Batch, x: nat, pending: seq<Entry>, m: map<nat, nat>)
    requires b.pending == Ops(pending) && P.Maxima(batch.ops, |batch.ops|) == m
    ensures var b1 := P.Pruned(b, batch, x);
            && b1.gc == P.Walking(m, x) && b1.log == b.log && b1.walked == b.walked
            && b1.pending == Ops(DurLog.Survivors(m, pending, 0, |pending|))
  {
    PruneMatches(m, pending, |pending|);
  }

  lemma WalkOnMatches(b: P.Backup, es: seq<Entry>, m: map<nat, nat>, x: nat, kept: seq<Entry>, hi: nat)
    requires b.gc == P.Walking(m, x) && b.log == Ops(es) && b.walked <= hi <= |es| && b.pending == Ops(kept)
    ensures WalkedBy(b, hi - b.walked).pending == Ops(kept + DurLog.Survivors(m, es, b.walked, hi))
  {
    WalkMatches(b, es, hi - b.walked);
    OpsConcat(kept, DurLog.Survivors(m, es, b.walked, hi));
  }

  /**
   * A whole collection is the protocol's: beginning, as many walk steps as there are entries up to the top, and the end.
   * The last walk step is at the top, or there is none, and then the walk is past the top.
   */
  lemma CollectionMatches(s: State, b: P.Backup, batch: P.Batch, pending: seq<Entry>, m: map<nat, nat>, lo: nat, x: nat)
    requires Sound(s) && x < |s.recs| && lo <= |s.recs|
    requires b.log == Ops(DurLog.RecordEntries(s.recs)) && b.walked == lo && b.pending == Ops(pending)
    requires P.Maxima(batch.ops, |batch.ops|) == m
    ensures var es, hi := DurLog.RecordEntries(s.recs), DurLog.WalkEnd(s.recs, lo, s.recs[x].start);
            var end := WalkedBy(P.Pruned(b, batch, x), hi - lo);
            && end.walked == hi > x && (lo < hi ==> hi == x + 1)
            && end.pending == Ops(DurLog.Survivors(m, pending, 0, |pending|) + DurLog.Survivors(m, es, lo, hi))
  {
    var es, hi := DurLog.RecordEntries(s.recs), DurLog.WalkEnd(s.recs, lo, s.recs[x].start);
    WalksStopAlike(s, lo, x);
    BeginMatches(b, batch, x, pending, m);
    WalkOnMatches(P.Pruned(b, batch, x), es, m, x, DurLog.Survivors(m, pending, 0, |pending|), hi);
  }

  // ---------------------------------------------------------------- shards

  /** What the servers hold is what the protocol says of the shard: its share of the same prefix of the same order. */
  lemma {:induction false} SharesMatch(s: State, n: nat, j: nat, p: nat)
    requires Sound(s) && n > 0 && p <= |s.recs|
    ensures Ops(ConsLog.Share(s, n, j, p)) == PP.Part(Ops(ConsLog.Log(s)), n, j, p)
  {
    if p > 0 {
      SharesMatch(s, n, j, p - 1);
      assert RecSane(s, p - 1);
      var e := ConsLog.Log(s)[p - 1];
      OpsConcat(ConsLog.Share(s, n, j, p - 1), if e.logIdx % n == j then [e] else []);
    }
  }
}

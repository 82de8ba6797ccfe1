/**
 * A whole backup replica, its ring, its request-id map, its pending list and its collections, as the protocol sees it:
 * every step of the one is a step of the other.
 */
module BackupRefinement {
  import opened Codec
  import opened Ring
  import opened DurLog
  import opened Refinement
  import RingProofs
  import Gc
  import Collections
  import P = Protocol
  import PP = ProtocolProofs

  // ---------------------------------------------------------------- the replica

  /** A collection at rest, or walking up to the byte sequence `top` with the maxima `m`. */
  datatype Walk = Resting | Walks(m: map<nat, nat>, top: nat)

  /** `walked` is the ordered index watermark, which moves with every entry of a walk; the ring's moves at its end. */
  datatype Replica = Replica(ring: State, known: map<ReqId, nat>, pending: seq<Entry>, walked: nat, walk: Walk)

  datatype Act =
    | RingStep(step: Step)        // an appender goes on
    | Registers(c: nat, i: nat)   // an appender has finished entry `i` and registers its request id
    | Begins(ids: seq<ReqId>)     // a collection looks the ids up and goes through the pending list
    | Visits                      // its walk visits one entry
    | Ends                        // its walk is past the top, and the byte watermark moves

  function IdOf(e: Entry): ReqId {
    (e.clientId, e.clientSeq)
  }

  /** What the replica does; `DurLog` and `Collect` have the same in place. */
  ghost predicate Acts(x: Replica, act: Act, y: Replica) {
    match act
    case RingStep(step) => !step.Advance? && RingProofs.StepTo(x.ring, step, y.ring) && y == x.(ring := y.ring)
    case Registers(c, i) =>
      i < |x.ring.recs| && y == x.(known := x.known[IdOf(x.ring.recs[i].entry) := x.ring.recs[i].start])
    case Begins(ids) =>
      && x.walk.Resting?
      && y == x.(known := LookedUp(ids, x.known, |ids|),
                 pending := Survivors(MaxOf(ids, |ids|), x.pending, 0, |x.pending|),
                 walk := Walks(MaxOf(ids, |ids|), MaxSeq(ids, x.known, |ids|)))
    case Visits =>
      && x.walk.Walks? && x.walked < |x.ring.recs| && x.ring.recs[x.walked].start <= x.walk.top
      && Shown(x.ring.recs[x.walked])
      && var e := x.ring.recs[x.walked].entry;
         y == x.(known := x.known - {IdOf(e)}, pending := x.pending + Kept(x.walk.m, e), walked := x.walked + 1)
    case Ends =>
      && x.walk.Walks? && x.walked <= |x.ring.recs| && StartAt(x.ring, x.walked) > x.walk.top
      && RingProofs.StepTo(x.ring, Advance(x.walked), y.ring) && y == x.(ring := y.ring, walk := Resting)
  }

  // ---------------------------------------------------------------- the agreement

  /** Entry `i`, or the place of the first one, starts at `top`. */
  predicate TopAt(s: State, top: nat, i: nat) {
    i <= |s.recs| && (i == |s.recs| ==> i == 0) && StartAt(s, i) == top
  }

  ghost predicate SameWalk(x: Replica, gc: P.Collector) {
    match x.walk
    case Resting => gc.Quiet?
    case Walks(m, top) => gc.Walking? && gc.m == m && TopAt(x.ring, top, gc.top)
  }

  /** What the collection has to do with: map, pending list, watermark and walk. */
  ghost predicate SameCollection(x: Replica, b: P.Backup) {
    && b.walked == x.walked && b.pending == Ops(x.pending) && SameKnown(x.ring.recs, x.known, b.known)
    && SameWalk(x, b.gc) && x.ring.orderedIdxWatermk <= x.walked <= |x.ring.recs|
    && forall i {:trigger Shown(x.ring.recs[i])} :: 0 <= i < x.walked ==> Shown(x.ring.recs[i])
  }

  ghost predicate BackupMatches(x: Replica, p: P.State, r: nat) {
    Sound(x.ring) && 0 < r <= |p.backs| && Matches(x.ring, p, r) && SameCollection(x, p.backs[r - 1])
  }

  /** What the surroundings have to do with a step: clients send and wait, and the consensus side asks and waits. */
  predicate Allowed(x: Replica, act: Act, p: P.State, r: nat)
    requires |p.cons.buffers| == 2
  {
    match act
    case RingStep(step) => step.Admit? ==> Requests(x.ring, p, r, step.e)
    case Registers(c, i) =>
      && AtReplica(p, c, r, P.Shown(i))
      && forall t :: 0 <= t < |x.ring.threads| && !x.ring.threads[t].Idle? ==> ClientOf(x.ring, t) != c
    case Begins(ids) =>
      && p.cons.phase.Collecting? && r > 0 && r - 1 !in p.cons.phase.asked && P.Storing(p).Full?
      && Gc.Listing(P.Maxima(P.Storing(p).batch.ops, |P.Storing(p).batch.ops|), ids)
    case Visits => true
    case Ends => p.cons.phase.Collecting?
  }

  /** The protocol's step for the same; `top` is where its walk will stop. */
  function ProtocolStep(x: Replica, act: Act, r: nat, top: nat): (step: P.Step)
    requires r > 0 && (act.RingStep? ==> (act.step.Reserve? || act.step.Publish?) && act.step.t < |x.ring.threads|)
  {
    match act
    case RingStep(step) => if step.Reserve? then P.Reserve(ClientOf(x.ring, step.t), r) else P.Publish(ClientOf(x.ring, step.t), r)
    case Registers(c, i) => P.Register(c, r)
    case Begins(ids) => P.GcBegin(r - 1, top)
    case Visits => P.GcWalk(r - 1)
    case Ends => P.GcEnd(r - 1)
  }

  /** An appender's steps before its flag and after it are not seen. */
  predicate Unseen(act: Act) {
    act.RingStep? && !act.step.Reserve? && !act.step.Publish?
  }

  // ---------------------------------------------------------------- the appenders

  lemma KnownStays(recs: seq<Rec>, recs': seq<Rec>, known: map<ReqId, nat>, index: map<P.Op, nat>)
    requires SameKnown(recs, known, index) && |recs| <= |recs'|
    requires forall i :: 0 <= i < |recs| ==> recs'[i].start == recs[i].start
    ensures SameKnown(recs', known, index)
  {
  }

  lemma TopStays(s: State, t: State, top: nat, i: nat)
    requires Sound(s) && Sound(t) && RingProofs.Later(s, t) && TopAt(s, top, i)
    ensures TopAt(t, top, i)
  {
    RingProofs.SameBoundary(s, t, i);
  }

  lemma CollectionStays(x: Replica, y: Replica, b: P.Backup, b': P.Backup)
    requires SameCollection(x, b) && Sound(x.ring) && Sound(y.ring) && RingProofs.Later(x.ring, y.ring)
    requires y == x.(ring := y.ring) && y.ring.orderedIdxWatermk == x.ring.orderedIdxWatermk
    requires b' == b.(log := b'.log, shown := b'.shown)
    ensures SameCollection(y, b')
  {
    KnownStays(x.ring.recs, y.ring.recs, x.known, b.known);
    if x.walk.Walks? { TopStays(x.ring, y.ring, x.walk.top, b.gc.top); }
    forall i | 0 <= i < y.walked
      ensures Shown(y.ring.recs[i])
    {
      assert Shown(x.ring.recs[i]);
    }
  }

  /** The protocol's step for a ring step changes at most log and flags of the backup. */
  lemma OnlyLogAndFlags(s: State, step: Step, r: nat, p: P.State, p': P.State)
    requires Shape(s) && Enabled(s, step) && !step.Advance? && 0 < r <= |p.backs| && Mirrors(s, step, r, p, p')
    ensures |p'.backs| == |p.backs| && p'.backs[r - 1] == p.backs[r - 1].(log := p'.backs[r - 1].log, shown := p'.backs[r - 1].shown)
  {
  }

  lemma RingStepMirrored(x: Replica, step: Step, y: Replica, p: P.State, r: nat) returns (p': P.State)
    requires BackupMatches(x, p, r) && Acts(x, RingStep(step), y) && Allowed(x, RingStep(step), p, r)
    ensures BackupMatches(y, p', r)
    ensures Mirrors(x.ring, step, r, p, p')
  {
    RingProofs.StepSound(x.ring, step);
    RingProofs.StepLater(x.ring, step);
    p' := RingRefinesReplica(x.ring, step, p, r);
    OnlyLogAndFlags(x.ring, step, r, p, p');
    CollectionStays(x, y, p.backs[r - 1], p'.backs[r - 1]);
  }

  // ---------------------------------------------------------------- registering

  lemma KnownRegistered(recs: seq<Rec>, known: map<ReqId, nat>, index: map<P.Op, nat>, i: nat)
    requires SameKnown(recs, known, index) && i < |recs|
    ensures SameKnown(recs, known[IdOf(recs[i].entry) := recs[i].start], index[OpOf(recs[i].entry) := i])
  {
  }

  lemma StillTracked(s: State, p: P.State, p': P.State, r: nat, c: nat, t: nat)
    requires t < |s.threads| && Tracked(s, p, r, t) && (!s.threads[t].Idle? ==> ClientOf(s, t) != c)
    requires |p'.clients| == |p.clients| && |p'.backs| == |p.backs|
    requires forall d :: 0 <= d < |p.clients| && d != c ==> p'.clients[d] == p.clients[d]
    ensures Tracked(s, p', r, t)
  {
  }

  lemma RegisterMirrored(x: Replica, c: nat, i: nat, y: Replica, p: P.State, r: nat) returns (p': P.State)
    requires BackupMatches(x, p, r) && Acts(x, Registers(c, i), y) && Allowed(x, Registers(c, i), p, r)
    requires Collections.PlacesOk(p)
    ensures BackupMatches(y, p', r) && PP.StepTo(p, P.Register(c, r), p')
  {
    p' := P.Apply(p, P.Register(c, r));
    assert Collections.PlaceOk(p, c, r) && Collections.TookIndex(p.clients[c].at[r], i);
    assert OpOf(x.ring.recs[i].entry) == P.Current(c, p.clients[c]);
    KnownRegistered(x.ring.recs, x.known, p.backs[r - 1].known, i);
    forall t | 0 <= t < |x.ring.threads|
      ensures Tracked(x.ring, p', r, t)
    {
      assert Tracked(x.ring, p, r, t);
      StillTracked(x.ring, p, p', r, c, t);
    }
  }

  // ---------------------------------------------------------------- collecting

  lemma {:induction false} KnownLookedUp(recs: seq<Rec>, ids: seq<ReqId>, known: map<ReqId, nat>, index: map<P.Op, nat>,
                                         n: nat)
    requires SameKnown(recs, known, index) && n <= |ids|
    ensures SameKnown(recs, LookedUp(ids, known, n), index)
  {
    if n > 0 {
      KnownLookedUp(recs, ids, known, index, n - 1);
    }
  }

  /** A step that leaves the clients and the replica's log alone. */
  lemma MatchesStays(s: State, p: P.State, p': P.State, r: nat)
    requires Matches(s, p, r) && SameLog(s, p', r) && p'.clients == p.clients && |p'.backs| == |p.backs|
    requires |p'.cons.buffers| == 2
    ensures Matches(s, p', r)
  {
    forall t | 0 <= t < |s.threads|
      ensures Tracked(s, p', r, t)
    {
      assert Tracked(s, p, r, t);
    }
  }

  lemma BeginMirrored(x: Replica, ids: seq<ReqId>, y: Replica, p: P.State, r: nat) returns (p': P.State, top: nat)
    requires BackupMatches(x, p, r) && Acts(x, Begins(ids), y) && Allowed(x, Begins(ids), p, r)
    ensures BackupMatches(y, p', r) && PP.StepTo(p, P.GcBegin(r - 1, top), p')
  {
    var b, batch := p.backs[r - 1], P.Storing(p).batch;
    top := BeginCollection(x, ids, y, b, batch);
    p' := P.Apply(p, P.GcBegin(r - 1, top));
    assert p'.backs[r - 1] == P.Pruned(b, batch, top) && SameLog(x.ring, p', r);
    MatchesStays(x.ring, p, p', r);
  }

  lemma BeginCollection(x: Replica, ids: seq<ReqId>, y: Replica, b: P.Backup, batch: P.Batch) returns (top: nat)
    requires Sound(x.ring) && SameCollection(x, b) && Acts(x, Begins(ids), y)
    requires Gc.Listing(P.Maxima(batch.ops, |batch.ops|), ids)
    ensures P.IsTop(b.known, P.Maxima(batch.ops, |batch.ops|), top) && SameCollection(y, P.Pruned(b, batch, top))
  {
    var m := P.Maxima(batch.ops, |batch.ops|);
    Gc.ListingRebuilds(m, ids);
    top := TopsAgree(x.ring, ids, m, x.known, b.known);
    PruneMatches(m, x.pending, |x.pending|);
    KnownLookedUp(x.ring.recs, ids, x.known, b.known, |ids|);
  }

  lemma KnownForgotten(recs: seq<Rec>, known: map<ReqId, nat>, index: map<P.Op, nat>, e: Entry)
    requires SameKnown(recs, known, index)
    ensures SameKnown(recs, known - {IdOf(e)}, index - {OpOf(e)})
  {
    forall op | op in index - {OpOf(e)}
      ensures (op.client, op.sq) in known - {IdOf(e)}
    {
      assert op == P.Op(op.client, op.sq);
    }
  }

  lemma VisitMirrored(x: Replica, y: Replica, p: P.State, r: nat) returns (p': P.State)
    requires BackupMatches(x, p, r) && Acts(x, Visits, y)
    ensures BackupMatches(y, p', r) && PP.StepTo(p, P.GcWalk(r - 1), p')
  {
    var b, w, e := p.backs[r - 1], x.walked, x.ring.recs[x.walked].entry;
    assert w in ShownSet(x.ring.recs) && b.log[w] == OpOf(e);
    if b.gc.top < |x.ring.recs| { StartsOrder(x.ring, w, b.gc.top); }
    p' := P.Apply(p, P.GcWalk(r - 1));
    WalkOne(b, e);
    OpsConcat(x.pending, Kept(x.walk.m, e));
    KnownForgotten(x.ring.recs, x.known, b.known, e);
    MatchesStays(x.ring, p, p', r);
  }

  lemma EndMirrored(x: Replica, y: Replica, p: P.State, r: nat) returns (p': P.State)
    requires BackupMatches(x, p, r) && Acts(x, Ends, y) && Allowed(x, Ends, p, r)
    ensures BackupMatches(y, p', r) && PP.StepTo(p, P.GcEnd(r - 1), p')
  {
    var b := p.backs[r - 1];
    PastTop(x.ring, x.walked, x.walk.top, b.gc.top);
    p' := AdvanceMirrored(x.ring, x.walked, p, r);
    RingProofs.AdvanceKeeps(x.ring, x.walked);
  }

  /** Past the byte `top` is past the entry that starts there. */
  lemma PastTop(s: State, w: nat, top: nat, i: nat)
    requires Sound(s) && w <= |s.recs| && TopAt(s, top, i) && StartAt(s, w) > top
    ensures w > i
  {
    if w < i {
      RingProofs.StartsIncrease(s, w, i);
    }
  }

  // ---------------------------------------------------------------- every step

  /** The protocol takes the step for `act`, or none if it does not see it. */
  ghost predicate Follows(x: Replica, act: Act, r: nat, top: nat, p: P.State, p': P.State) {
    && r > 0 && (act.RingStep? && !Unseen(act) ==> act.step.t < |x.ring.threads|)
    && if Unseen(act) then p' == p else PP.StepTo(p, ProtocolStep(x, act, r, top), p')
  }

  lemma RingStepFollowed(x: Replica, step: Step, r: nat, top: nat, p: P.State, p': P.State)
    requires r > 0 && Shape(x.ring) && Enabled(x.ring, step) && !step.Advance? && Mirrors(x.ring, step, r, p, p')
    ensures Follows(x, RingStep(step), r, top, p, p')
  {
  }

  lemma ActMirrored(x: Replica, act: Act, y: Replica, p: P.State, r: nat) returns (p': P.State, top: nat)
    requires BackupMatches(x, p, r) && Acts(x, act, y) && Allowed(x, act, p, r) && Collections.PlacesOk(p)
    ensures BackupMatches(y, p', r) && Follows(x, act, r, top, p, p')
  {
    top := 0;
    match act
    case RingStep(step) =>
      p' := RingStepMirrored(x, step, y, p, r);
      RingStepFollowed(x, step, r, top, p, p');
    case Registers(c, i) => p' := RegisterMirrored(x, c, i, y, p, r);
    case Begins(ids) => p', top := BeginMirrored(x, ids, y, p, r);
    case Visits => p' := VisitMirrored(x, y, p, r);
    case Ends => p' := EndMirrored(x, y, p, r);
  }

  lemma FollowedPlaces(x: Replica, act: Act, r: nat, top: nat, p: P.State, p': P.State)
    requires Follows(x, act, r, top, p, p') && Collections.PlacesOk(p)
    ensures Collections.PlacesOk(p')
  {
    if !Unseen(act) {
      Collections.StepPlaces(p, ProtocolStep(x, act, r, top), p');
    }
  }

  /**
   * Every step of a backup replica is the protocol's step of that backup, or one that the protocol does not see, and the
   * two go on agreeing: on the log and its flags, on the watermarks, on the pending list, on the map from request ids,
   * where one has byte sequences and the other indices, and on where a walk will stop.
   */
  lemma BackupRefinesProtocol(x: Replica, act: Act, y: Replica, p: P.State, r: nat) returns (p': P.State, top: nat)
    requires BackupMatches(x, p, r) && Acts(x, act, y) && Allowed(x, act, p, r) && Collections.PlacesOk(p)
    ensures BackupMatches(y, p', r) && Collections.PlacesOk(p') && Follows(x, act, r, top, p, p')
  {
    p', top := ActMirrored(x, act, y, p, r);
    FollowedPlaces(x, act, r, top, p, p');
  }

  /** They agree at the start. */
  lemma StartsMatch(x: Replica, p: P.State, r: nat)
    requires Init(x.ring) && x.known == map[] && x.pending == [] && x.walked == 0 && x.walk.Resting?
    requires PP.Init(p) && 0 < r <= |p.backs|
    ensures BackupMatches(x, p, r) && Collections.PlacesOk(p)
  {
    RingProofs.InitKeeps(x.ring);
    assert Ops(DurLog.RecordEntries(x.ring.recs)) == [];
    assert ShownSet(x.ring.recs) == {};
    forall t | 0 <= t < |x.ring.threads|
      ensures Tracked(x.ring, p, r, t)
    {
      assert x.ring.threads[t].Idle?;
    }
  }

  /** A step of another party: not of replica `r`, nor of its collection. */
  predicate Elsewhere(step: P.Step, r: nat) {
    match step
    case Reserve(_, q) => q != r
    case Publish(_, q) => q != r
    case Register(_, q) => q != r
    case GcBegin(b, _) => b + 1 != r
    case GcWalk(b) => b + 1 != r
    case GcEnd(b) => b + 1 != r
    case _ => true
  }

  lemma ElsewhereTracked(s: State, p: P.State, step: P.Step, p': P.State, r: nat, t: nat)
    requires |p.cons.buffers| == 2 && P.Enabled(p, step) && p' == P.Apply(p, step) && Elsewhere(step, r) && r > 0
    requires t < |s.threads| && Tracked(s, p, r, t)
    ensures Tracked(s, p', r, t)
  {
    if !s.threads[t].Idle? {
      SameAtReplica(p, step, p', ClientOf(s, t), r);
    }
  }

  /** A client that waits for the replica goes on waiting for it, with the same append and at the same stage. */
  lemma SameAtReplica(p: P.State, step: P.Step, p': P.State, c: nat, r: nat)
    requires |p.cons.buffers| == 2 && P.Enabled(p, step) && p' == P.Apply(p, step) && Elsewhere(step, r) && r > 0
    requires P.Waits(p, c, r) && !p.clients[c].at[r].Listed? && !p.clients[c].at[r].Acked?
    ensures P.Waits(p', c, r) && p'.clients[c].at[r] == p.clients[c].at[r] && p'.clients[c].next == p.clients[c].next
  {
  }

  /** And no step of another party disturbs it. */
  lemma ElsewhereMatches(x: Replica, p: P.State, step: P.Step, p': P.State, r: nat)
    requires BackupMatches(x, p, r) && PP.StepTo(p, step, p') && Elsewhere(step, r)
    ensures BackupMatches(x, p', r)
  {
    assert |p'.backs| == |p.backs| && p'.backs[r - 1] == p.backs[r - 1] && |p'.cons.buffers| == 2;
    forall t | 0 <= t < |x.ring.threads|
      ensures Tracked(x.ring, p', r, t)
    {
      assert Tracked(x.ring, p, r, t);
      ElsewhereTracked(x.ring, p, step, p', r, t);
    }
  }
}

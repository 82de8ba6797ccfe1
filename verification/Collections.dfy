/** In every run of the protocol: a backup's map points at the entries it names, and how far each collection gets. */
module Collections {
  import opened DurLog
  import opened Protocol
  import opened ProtocolProofs

  // ---------------------------------------------------------------- entries and the appends they hold

  /** The log of replica `r`; replica 0 is the primary. */
  function LogAt(s: State, r: nat): seq<Op>
    requires r <= |s.backs|
  {
    if r == 0 then s.prim.log else s.backs[r - 1].log
  }

  /** The index that a replica has taken for a client's current append, if it has got that far. */
  predicate TookIndex(stage: Stage, i: nat) {
    stage == Held(i) || stage == Shown(i)
  }

  /** What replica `r` has reserved for client `c` is an entry that holds the client's current append. */
  ghost predicate PlaceOk(s: State, c: nat, r: nat)
    requires c < |s.clients| && r <= |s.backs|
  {
    var cl, log := s.clients[c], LogAt(s, r);
    forall i: nat :: cl.busy && r < |cl.at| && TookIndex(cl.at[r], i) ==> i < |log| && log[i] == Current(c, cl)
  }

  /** A backup's map names entries that hold the appends it maps to them. */
  predicate KnownOk(b: Backup) {
    forall op :: op in b.known ==> b.known[op] < |b.log| && b.log[b.known[op]] == op
  }

  ghost predicate PlacesOk(s: State) {
    && (forall c, r {:trigger PlaceOk(s, c, r)} :: 0 <= c < |s.clients| && 0 <= r <= |s.backs| ==> PlaceOk(s, c, r))
    && (forall b {:trigger KnownOk(s.backs[b])} :: 0 <= b < |s.backs| ==> KnownOk(s.backs[b]))
  }

  /** Logs only grow, and other clients and replicas are where they were. */
  lemma OtherPlaces(s: State, t: State, c: nat, r: nat)
    requires c < |s.clients| && r <= |s.backs| && |t.clients| == |s.clients| && |t.backs| == |s.backs| && PlaceOk(s, c, r)
    requires Grows(LogAt(s, r), LogAt(t, r))
    requires t.clients[c].busy ==> s.clients[c].busy && t.clients[c].next == s.clients[c].next
    requires t.clients[c].busy && r < |t.clients[c].at| ==>
               r < |s.clients[c].at| && forall i: nat :: TookIndex(t.clients[c].at[r], i) ==> TookIndex(s.clients[c].at[r], i)
    ensures PlaceOk(t, c, r)
  {
  }

  /** What a reservation changes. */
  lemma ReserveEffect(s: State, c: nat, r: nat, t: State)
    requires |s.cons.buffers| == 2 && Enabled(s, Reserve(c, r)) && t == Apply(s, Reserve(c, r))
    ensures |t.clients| == |s.clients| && |t.backs| == |s.backs| && c < |s.clients| && r <= |s.backs| && s.clients[c].busy
    ensures t.clients[c] == s.clients[c].(at := t.clients[c].at) && |t.clients[c].at| == |s.clients[c].at|
    ensures r < |t.clients[c].at| && t.clients[c].at[r] == Held(|LogAt(s, r)|)
    ensures forall q :: 0 <= q < |s.clients[c].at| && q != r ==> t.clients[c].at[q] == s.clients[c].at[q]
    ensures forall d :: 0 <= d < |s.clients| && d != c ==> t.clients[d] == s.clients[d]
    ensures LogAt(t, r) == LogAt(s, r) + [Current(c, s.clients[c])]
    ensures forall q :: 0 <= q <= |s.backs| && q != r ==> LogAt(t, q) == LogAt(s, q)
    ensures forall b :: 0 <= b < |s.backs| ==> t.backs[b] == s.backs[b].(log := t.backs[b].log)
    ensures forall b :: 0 <= b < |s.backs| ==> Grows(s.backs[b].log, t.backs[b].log)
  {
  }

  lemma ReservePlaces(s: State, c: nat, r: nat, t: State)
    requires PlacesOk(s) && |s.cons.buffers| == 2 && Enabled(s, Reserve(c, r)) && t == Apply(s, Reserve(c, r))
    ensures PlacesOk(t)
  {
    ReserveEffect(s, c, r, t);
    forall d, q | 0 <= d < |t.clients| && 0 <= q <= |t.backs|
      ensures PlaceOk(t, d, q)
    {
      assert PlaceOk(s, d, q);
      if d != c || q != r {
        OtherPlaces(s, t, d, q);
      } else {
        NewPlace(s, t, c, r);
      }
    }
    ReserveKnown(s, t);
  }

  lemma NewPlace(s: State, t: State, c: nat, r: nat)
    requires c < |s.clients| == |t.clients| && r <= |s.backs| == |t.backs| && t.clients[c].next == s.clients[c].next
    requires r < |t.clients[c].at| && t.clients[c].at[r] == Held(|LogAt(s, r)|)
    requires LogAt(t, r) == LogAt(s, r) + [Current(c, s.clients[c])]
    ensures PlaceOk(t, c, r)
  {
  }

  lemma ReserveKnown(s: State, t: State)
    requires |t.backs| == |s.backs| && forall b {:trigger KnownOk(s.backs[b])} :: 0 <= b < |s.backs| ==> KnownOk(s.backs[b])
    requires forall b :: 0 <= b < |s.backs| ==> t.backs[b] == s.backs[b].(log := t.backs[b].log)
    requires forall b :: 0 <= b < |s.backs| ==> Grows(s.backs[b].log, t.backs[b].log)
    ensures forall b {:trigger KnownOk(t.backs[b])} :: 0 <= b < |t.backs| ==> KnownOk(t.backs[b])
  {
    forall b | 0 <= b < |t.backs|
      ensures KnownOk(t.backs[b])
    {
      assert KnownOk(s.backs[b]);
    }
  }

  /** Publishing, registering and replying: no entry is taken. */
  lemma StagePlaces(s: State, step: Step, t: State)
    requires PlacesOk(s) && |s.cons.buffers| == 2 && Enabled(s, step) && t == Apply(s, step)
    requires step.Publish? || step.Register? || step.Reply?
    ensures PlacesOk(t)
  {
    forall d, q | 0 <= d < |t.clients| && 0 <= q <= |t.backs|
      ensures PlaceOk(t, d, q)
    {
      assert PlaceOk(s, d, q);
      OtherPlaces(s, t, d, q);
    }
    forall b | 0 <= b < |t.backs|
      ensures KnownOk(t.backs[b])
    {
      assert KnownOk(s.backs[b]);
      if step.Register? && b == step.r - 1 {
        assert PlaceOk(s, step.c, step.r) && TookIndex(s.clients[step.c].at[step.r], s.clients[step.c].at[step.r].i);
        RegisteredKnown(s.backs[b], Current(step.c, s.clients[step.c]), s.clients[step.c].at[step.r].i, t.backs[b]);
      }
    }
  }

  lemma RegisteredKnown(b: Backup, op: Op, i: nat, b': Backup)
    requires KnownOk(b) && i < |b.log| && b.log[i] == op && b' == b.(known := b.known[op := i])
    ensures KnownOk(b')
  {
  }

  lemma ClientPlaces(s: State, step: Step, t: State)
    requires PlacesOk(s) && |s.cons.buffers| == 2 && Enabled(s, step) && t == Apply(s, step)
    requires step.Invoke? || step.Return?
    ensures PlacesOk(t)
  {
    forall d, q | 0 <= d < |t.clients| && 0 <= q <= |t.backs|
      ensures PlaceOk(t, d, q)
    {
      assert PlaceOk(s, d, q);
    }
  }

  /** Steps of the consensus side, the shards and the collections take no entries and register nothing. */
  lemma OutsidePlaces(s: State, t: State)
    requires PlacesOk(s) && t.clients == s.clients && t.prim.log == s.prim.log && |t.backs| == |s.backs|
    requires forall b :: 0 <= b < |s.backs| ==> t.backs[b].log == s.backs[b].log
    requires forall b, op :: 0 <= b < |s.backs| && op in t.backs[b].known ==>
                               op in s.backs[b].known && t.backs[b].known[op] == s.backs[b].known[op]
    ensures PlacesOk(t)
  {
    forall d, q | 0 <= d < |t.clients| && 0 <= q <= |t.backs|
      ensures PlaceOk(t, d, q)
    {
      assert PlaceOk(s, d, q);
    }
    forall b | 0 <= b < |t.backs|
      ensures KnownOk(t.backs[b])
    {
      assert KnownOk(s.backs[b]);
    }
  }

  lemma StepPlaces(s: State, step: Step, t: State)
    requires PlacesOk(s) && |s.cons.buffers| == 2 && Enabled(s, step) && t == Apply(s, step)
    ensures PlacesOk(t)
  {
    if step.Reserve? {
      ReservePlaces(s, step.c, step.r, t);
    } else if step.Publish? || step.Register? || step.Reply? {
      StagePlaces(s, step, t);
    } else if step.Invoke? || step.Return? {
      ClientPlaces(s, step, t);
    } else {
      OutsidePlaces(s, t);
    }
  }

  /** In every run, what a replica reserved or a backup registered for an append is an entry with that append. */
  lemma {:induction false} RunPlaces(states: seq<State>, steps: seq<Step>, k: nat)
    requires IsRun(states, steps) && k < |states|
    ensures PlacesOk(states[k])
  {
    if k > 0 {
      RunPlaces(states, steps, k - 1);
      assert StepTo(states[k - 1], steps[k - 1], states[k]);
      StepPlaces(states[k - 1], steps[k - 1], states[k]);
    }
  }

  // ---------------------------------------------------------------- everything is registered

  /** How many appends of a client backup replica `r` has registered. */
  function ListedBy(cl: Client, r: nat): nat {
    if cl.busy && cl.next > 0 && r < |cl.at| && !cl.at[r].Listed? && !cl.at[r].Acked? then cl.next - 1 else cl.next
  }

  predicate Passed(b: Backup, op: Op) {
    exists p :: 0 <= p < b.walked && p < |b.log| && b.log[p] == op
  }

  /** A backup knows what it has registered, until a walk has passed it. */
  predicate FiledOk(s: State, c: nat, b: nat)
    requires c < |s.clients| && b < |s.backs|
  {
    forall q :: 0 <= q < ListedBy(s.clients[c], b + 1) ==> Op(c, q) in s.backs[b].known || Passed(s.backs[b], Op(c, q))
  }

  predicate AllFiled(s: State) {
    forall c, b {:trigger FiledOk(s, c, b)} :: 0 <= c < |s.clients| && 0 <= b < |s.backs| ==> FiledOk(s, c, b)
  }

  lemma StillPassed(x: Backup, y: Backup, op: Op)
    requires Passed(x, op) && Grows(x.log, y.log) && x.walked <= y.walked
    ensures Passed(y, op)
  {
    var p :| 0 <= p < x.walked && p < |x.log| && x.log[p] == op;
    assert y.log[p] == op;
  }

  lemma StillFiled(s: State, t: State, c: nat, b: nat)
    requires c < |s.clients| && b < |s.backs| && FiledOk(s, c, b) && |t.clients| == |s.clients| && |t.backs| == |s.backs|
    requires ListedBy(t.clients[c], b + 1) <= ListedBy(s.clients[c], b + 1)
    requires var x, y := s.backs[b], t.backs[b];
             && Grows(x.log, y.log) && x.walked <= y.walked
             && forall op :: op in x.known ==> op in y.known || Passed(y, op)
    ensures FiledOk(t, c, b)
  {
    forall q | 0 <= q < ListedBy(t.clients[c], b + 1)
      ensures Op(c, q) in t.backs[b].known || Passed(t.backs[b], Op(c, q))
    {
      if Passed(s.backs[b], Op(c, q)) {
        StillPassed(s.backs[b], t.backs[b], Op(c, q));
      }
    }
  }

  lemma RegisterFiles(s: State, c: nat, r: nat, t: State)
    requires AllFiled(s) && |s.cons.buffers| == 2 && Enabled(s, Register(c, r)) && t == Apply(s, Register(c, r))
    ensures AllFiled(t)
  {
    forall d, b | 0 <= d < |t.clients| && 0 <= b < |t.backs|
      ensures FiledOk(t, d, b)
    {
      assert FiledOk(s, d, b);
      if d != c || b != r - 1 {
        StillFiled(s, t, d, b);
      } else {
        RegisteredFiled(s, t, d, b);
      }
    }
  }

  lemma RegisteredFiled(s: State, t: State, c: nat, b: nat)
    requires c < |s.clients| && b < |s.backs| && FiledOk(s, c, b) && |t.clients| == |s.clients| && |t.backs| == |s.backs|
    requires t.clients[c].next == s.clients[c].next && t.backs[b] == s.backs[b].(known := t.backs[b].known)
    requires s.backs[b].known.Keys <= t.backs[b].known.Keys && Current(c, s.clients[c]) in t.backs[b].known
    ensures FiledOk(t, c, b)
  {
    forall q | 0 <= q < ListedBy(t.clients[c], b + 1)
      ensures Op(c, q) in t.backs[b].known || Passed(t.backs[b], Op(c, q))
    {
      if Op(c, q) !in t.backs[b].known {
        assert q < s.clients[c].next - 1;
        assert Op(c, q) !in s.backs[b].known;
        StillPassed(s.backs[b], t.backs[b], Op(c, q));
      }
    }
  }

  lemma WalkFiles(s: State, b: nat, t: State)
    requires AllFiled(s) && |s.cons.buffers| == 2 && Enabled(s, GcWalk(b)) && t == Apply(s, GcWalk(b))
    ensures AllFiled(t)
  {
    var x, y := s.backs[b], t.backs[b];
    assert y.log[x.walked] == x.log[x.walked] && x.walked < y.walked;
    forall c, d | 0 <= c < |t.clients| && 0 <= d < |t.backs|
      ensures FiledOk(t, c, d)
    {
      assert FiledOk(s, c, d);
      StillFiled(s, t, c, d);
    }
  }

  lemma OtherFiles(s: State, step: Step, t: State)
    requires AllFiled(s) && |s.cons.buffers| == 2 && Enabled(s, step) && t == Apply(s, step)
    requires !step.Register? && !step.GcWalk?
    ensures AllFiled(t)
  {
    OutsideWalks(s, step, t);
    ListedKept(s, step, t);
    forall c, b | 0 <= c < |t.clients| && 0 <= b < |t.backs|
      ensures FiledOk(t, c, b)
    {
      assert FiledOk(s, c, b);
      StillFiled(s, t, c, b);
    }
  }

  /** What steps other than a walk's leave of a backup. */
  lemma OutsideWalks(s: State, step: Step, t: State)
    requires |s.cons.buffers| == 2 && Enabled(s, step) && t == Apply(s, step) && !step.GcWalk?
    ensures |t.backs| == |s.backs|
    ensures forall b :: 0 <= b < |s.backs| ==> Grows(s.backs[b].log, t.backs[b].log) && t.backs[b].walked == s.backs[b].walked
    ensures forall b :: 0 <= b < |s.backs| ==> s.backs[b].known.Keys <= t.backs[b].known.Keys
  {
  }

  /** No step but a registration makes more of a client's appends registered. */
  lemma ListedKept(s: State, step: Step, t: State)
    requires |s.cons.buffers| == 2 && Enabled(s, step) && t == Apply(s, step) && !step.Register?
    ensures |t.clients| == |s.clients|
    ensures forall c, r :: 0 <= c < |s.clients| && 0 < r <= |s.backs| ==> ListedBy(t.clients[c], r) <= ListedBy(s.clients[c], r)
  {
  }

  /** In every run, what a backup has registered is in its map or behind its watermark. */
  lemma {:induction false} RunFiles(states: seq<State>, steps: seq<Step>, k: nat)
    requires IsRun(states, steps) && k < |states|
    ensures AllFiled(states[k])
  {
    if k > 0 {
      RunFiles(states, steps, k - 1);
      var s, step, t := states[k - 1], steps[k - 1], states[k];
      assert StepTo(s, step, t);
      if step.Register? {
        RegisterFiles(s, step.c, step.r, t);
      } else if step.GcWalk? {
        WalkFiles(s, step.b, t);
      } else {
        OtherFiles(s, step, t);
      }
    }
  }

  // ---------------------------------------------------------------- how far a collection gets

  function Larger(a: nat, b: nat): nat {
    if a > b then a else b
  }

  /** Backup `x` during a collection that began in `before` and goes up to entry `top`. */
  predicate Underway(before: Backup, x: Backup, m: map<nat, nat>, top: nat) {
    && x.gc == Walking(m, top) && Grows(before.log, x.log) && x.settled == before.settled
    && before.walked <= x.walked <= Larger(before.walked, top + 1)
  }

  lemma StepUnderway(s: State, step: Step, t: State, b: nat, before: Backup, m: map<nat, nat>, top: nat)
    requires |s.cons.buffers| == 2 && Enabled(s, step) && t == Apply(s, step) && b < |s.backs| && step != GcEnd(b)
    requires Underway(before, s.backs[b], m, top)
    ensures b < |t.backs| && Underway(before, t.backs[b], m, top)
  {
    if step.GcWalk? {
      WalkUnderway(s, step.b, t, b, before, m, top);
    } else {
      OutsideWalks(s, step, t);
      SameCollector(s, step, t, b);
    }
  }

  lemma WalkUnderway(s: State, d: nat, t: State, b: nat, before: Backup, m: map<nat, nat>, top: nat)
    requires |s.cons.buffers| == 2 && Enabled(s, GcWalk(d)) && t == Apply(s, GcWalk(d)) && b < |s.backs|
    requires Underway(before, s.backs[b], m, top)
    ensures b < |t.backs| && Underway(before, t.backs[b], m, top)
  {
  }

  lemma SameCollector(s: State, step: Step, t: State, b: nat)
    requires |s.cons.buffers| == 2 && Enabled(s, step) && t == Apply(s, step) && b < |s.backs| && s.backs[b].gc.Walking?
    requires step != GcEnd(b) && !step.GcWalk?
    ensures b < |t.backs| && t.backs[b].gc == s.backs[b].gc && t.backs[b].settled == s.backs[b].settled
  {
  }

  lemma {:induction false} RunUnderway(states: seq<State>, steps: seq<Step>, i: nat, k: nat, b: nat, top: nat)
    requires IsRun(states, steps) && i < k < |states| && steps[i] == GcBegin(b, top)
    requires forall x :: i < x < k ==> steps[x] != GcEnd(b)
    ensures b < |states[i].backs| && b < |states[k].backs| && |states[i].cons.buffers| == 2 && Storing(states[i]).Full?
    ensures var ops := Storing(states[i]).batch.ops;
            Underway(states[i].backs[b], states[k].backs[b], Maxima(ops, |ops|), top)
  {
    assert StepTo(states[i], steps[i], states[i + 1]);
    if k > i + 1 {
      RunUnderway(states, steps, i, k - 1, b, top);
      assert StepTo(states[k - 1], steps[k - 1], states[k]);
      var ops := Storing(states[i]).batch.ops;
      StepUnderway(states[k - 1], steps[k - 1], states[k], b, states[i].backs[b], Maxima(ops, |ops|), top);
    }
  }

  /** `op` is one of the batch's maxima, and the backup has registered it as entry `p`. */
  predicate Registered(ops: seq<Op>, b: Backup, op: Op, p: nat) {
    var m := Maxima(ops, |ops|);
    op.client in m && m[op.client] == op.sq && op in b.known && b.known[op] == p
  }

  /**
   * A collection from its beginning in state `i` to its end after step `k`. Its watermarks end past every maximum of the
   * batch that was registered when it began, and that entry holds that append; and they end no further than past the
   * last of these, or past entry 0 if there is none, unless they were further already.
   */
  lemma CollectionGetsThere(states: seq<State>, steps: seq<Step>, i: nat, k: nat, b: nat, top: nat)
    requires IsRun(states, steps) && i < k < |steps| && steps[i] == GcBegin(b, top) && steps[k] == GcEnd(b)
    requires forall x :: i < x < k ==> steps[x] != GcEnd(b)
    ensures b < |states[i].backs| && b < |states[k + 1].backs| && |states[i].cons.buffers| == 2 && Storing(states[i]).Full?
    ensures var ops, before, after := Storing(states[i]).batch.ops, states[i].backs[b], states[k + 1].backs[b];
            && after.settled == after.walked == Larger(before.walked, top + 1) && after.gc.Quiet?
            && (forall op, p: nat :: Registered(ops, before, op, p) ==> p < after.walked && p < |after.log| && after.log[p] == op)
            && (top == 0 || exists op :: Registered(ops, before, op, top))
  {
    RunUnderway(states, steps, i, k, b, top);
    RunPlaces(states, steps, i);
    assert StepTo(states[i], steps[i], states[i + 1]) && StepTo(states[k], steps[k], states[k + 1]);
    var ops, before := Storing(states[i]).batch.ops, states[i].backs[b];
    assert KnownOk(before);
    TopIsRegistered(ops, before, top);
  }

  /** The top of a collection is at or past every registered maximum, and is one of them unless it is 0. */
  lemma TopIsRegistered(ops: seq<Op>, b: Backup, top: nat)
    requires IsTop(b.known, Maxima(ops, |ops|), top)
    ensures forall op, p: nat :: Registered(ops, b, op, p) ==> p <= top
    ensures top == 0 || exists op :: Registered(ops, b, op, top)
  {
    var m := Maxima(ops, |ops|);
    forall op, p: nat | Registered(ops, b, op, p)
      ensures p <= top
    {
      assert At(b.known, Op(op.client, m[op.client])) == p;
    }
    if top != 0 {
      var c :| c in m && At(b.known, Op(c, m[c])) == top;
      assert Registered(ops, b, Op(c, m[c]), top);
    }
  }

  /**
   * So at the end of a collection every maximum of the batch that the backup had registered when it began is behind the
   * watermark, whether it was found in the map or passed before.
   */
  lemma CollectionPassesMaxima(states: seq<State>, steps: seq<Step>, i: nat, k: nat, b: nat, top: nat, c: nat)
    requires IsRun(states, steps) && i < k < |steps| && steps[i] == GcBegin(b, top) && steps[k] == GcEnd(b)
    requires forall x :: i < x < k ==> steps[x] != GcEnd(b)
    requires |states[i].cons.buffers| == 2 && Storing(states[i]).Full? && c < |states[i].clients|
    requires var m := Maxima(Storing(states[i]).batch.ops, |Storing(states[i]).batch.ops|);
             c in m && m[c] < ListedBy(states[i].clients[c], b + 1)
    ensures b < |states[k + 1].backs|
    ensures var m := Maxima(Storing(states[i]).batch.ops, |Storing(states[i]).batch.ops|);
            Passed(states[k + 1].backs[b], Op(c, m[c]))
  {
    CollectionGetsThere(states, steps, i, k, b, top);
    RunFiles(states, steps, i);
    RunUnderway(states, steps, i, k, b, top);
    assert StepTo(states[k], steps[k], states[k + 1]);
    var ops, before, after := Storing(states[i]).batch.ops, states[i].backs[b], states[k + 1].backs[b];
    var op := Op(c, Maxima(ops, |ops|)[c]);
    assert FiledOk(states[i], c, b);
    if op in before.known {
      assert Registered(ops, before, op, before.known[op]);
      assert after.log[before.known[op]] == op;
    } else {
      StillPassed(before, after, op);
    }
  }
}

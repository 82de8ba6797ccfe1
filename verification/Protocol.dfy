/**
 * The whole system as steps of its parties: clients, the primary and backup sequencing replicas, the fetch and store
 * threads of the consensus side, and the shards with their backups. Any party may take the next step.
 */
module Protocol {
  import opened Arith
  import opened DurLog

  /** A client append; its payload travels with the request id, which identifies it. */
  datatype Op = Op(client: nat, sq: nat)

  // ---------------------------------------------------------------- state

  /** How far one replica has got with a client's current append. */
  datatype Stage =
    | Sent
    | Held(i: nat)   // index and bytes reserved
    | Shown(i: nat)  // flag set
    | Listed         // on a backup: in the request-id map
    | Acked

  /** Appends 0 up to `next` have been invoked; while `busy`, the last of them has not returned. */
  datatype Client = Client(next: nat, busy: bool, at: seq<Stage>)

  datatype Primary = Primary(log: seq<Op>, shown: set<nat>, ordered: nat)

  datatype Collector = Quiet | Walking(m: map<nat, nat>, top: nat)

  /**
   * A backup replica. `walked` is the ordered index watermark, which moves with every entry of a walk; `settled` is the
   * entry at which the ordered byte watermark points, which moves when the walk ends.
   */
  datatype Backup = Backup(
    log: seq<Op>, shown: set<nat>, known: map<Op, nat>, walked: nat, settled: nat, pending: seq<Op>, gc: Collector)

  /** A fetched batch: consecutive entries of the primary, the first with index `from`. */
  datatype Batch = Batch(from: nat, ops: seq<Op>)

  datatype Buffer = Empty | Full(batch: Batch)

  datatype Phase =
    | NoStore
    | Sending(lo: nat, hi: nat)                                 // requests for indices lo up to hi are out
    | Collecting(primary: bool, asked: set<nat>, done: set<nat>)  // which replicas were told, and have finished
    | Updating(last: nat, told: set<nat>)                       // the stable index is on its way to the shards

  /**
   * The consensus side. The last two are history: fetch `r` took entries `cuts[r]` up to `cuts[r + 1]`, and `stored`
   * are the batches that were handed to the shards.
   */
  datatype Cons = Cons(
    buffers: seq<Buffer>, fetchRound: nat, fetchBegin: nat, storeRound: nat, phase: Phase,
    cuts: seq<nat>, stored: seq<Batch>)

  /** A request to a shard, and who has stored it so far. */
  datatype Request = Request(ops: seq<Op>, last: nat, primary: bool, backups: set<nat>)

  datatype Pending = Nothing | Waiting(r: Request)

  datatype Shard = Shard(primary: seq<Op>, backups: seq<seq<Op>>, replicated: nat, global: nat, req: Pending)

  datatype State = State(
    unit: nat, clients: seq<Client>, prim: Primary, backs: seq<Backup>, cons: Cons, shards: seq<Shard>)

  // ---------------------------------------------------------------- steps

  datatype Step =
    | Invoke(c: nat) | Reserve(c: nat, r: nat) | Publish(c: nat, r: nat) | Register(c: nat, r: nat)
    | Reply(c: nat, r: nat) | Return(c: nat)
    | Fetch(k: nat)
    | StoreBegin | SendChunk | AddPrimary(j: nat) | AddBackup(j: nat, b: nat) | Ack(j: nat) | SendDone
    | GcPrimary | GcBegin(b: nat, top: nat) | GcWalk(b: nat) | GcEnd(b: nat)
    | Clear | Tell(j: nat) | StoreEnd

  /** The append a busy client waits for. */
  function Current(c: nat, client: Client): Op {
    Op(c, if client.next > 0 then client.next - 1 else 0)
  }

  function AllSent(replicas: nat): (r: seq<Stage>)
    ensures |r| == replicas && forall i :: 0 <= i < replicas ==> r[i] == Sent
  {
    seq(replicas, _ => Sent)
  }

  /** Client `c` waits for replica `r`; replica 0 is the primary, replica `r` otherwise backup `r - 1`. */
  predicate Waits(s: State, c: nat, r: nat) {
    c < |s.clients| && s.clients[c].busy && r < |s.clients[c].at| && |s.clients[c].at| == 1 + |s.backs|
  }

  /** The entry with index `i` in a list that starts at index `from`. */
  function Item(ops: seq<Op>, from: nat, i: nat): Op
    requires from <= i < from + |ops|
  {
    ops[i - from]
  }

  /** Of indices `lo` up to `hi`, the entries for shard `j` of `n`; `ops` starts at index `from`. */
  function Select(ops: seq<Op>, from: nat, n: nat, j: nat, lo: nat, hi: nat): seq<Op>
    requires n > 0 && from <= lo <= hi <= from + |ops|
  {
    if lo == hi then []
    else Select(ops, from, n, j, lo, hi - 1) + if (hi - 1) % n == j then [Item(ops, from, hi - 1)] else []
  }

  /** The largest index of shard `j` below `hi` and from `lo` on. */
  function LastOf(n: nat, j: nat, lo: nat, hi: nat): (r: nat)
    requires n > 0 && lo <= hi
    ensures lo < hi ==> lo <= r < hi
    decreases hi
  {
    if lo == hi || (hi - 1) % n == j || lo == hi - 1 then (if hi > 0 then hi - 1 else 0) else LastOf(n, j, lo, hi - 1)
  }

  /** `MaxPerClient` on a batch. */
  function Maxima(ops: seq<Op>, k: nat): map<nat, nat>
    requires k <= |ops|
  {
    if k == 0 then map[]
    else
      var m, op := Maxima(ops, k - 1), ops[k - 1];
      if op.client !in m || op.sq > m[op.client] then m[op.client := op.sq] else m
  }

  /** The largest index that a backup knows for one of the maxima; unknown ids count as 0. */
  predicate IsTop(known: map<Op, nat>, m: map<nat, nat>, top: nat) {
    && (forall c :: c in m ==> At(known, Op(c, m[c])) <= top)
    && (top == 0 || exists c :: c in m && At(known, Op(c, m[c])) == top)
  }

  /** The backup's test for "ordered". */
  predicate Drops(m: map<nat, nat>, op: Op) {
    op.sq <= At(m, op.client)
  }

  function Keep(m: map<nat, nat>, ops: seq<Op>, n: nat): seq<Op>
    requires n <= |ops|
  {
    if n == 0 then [] else Keep(m, ops, n - 1) + if Drops(m, ops[n - 1]) then [] else [ops[n - 1]]
  }

  function Storing(s: State): Buffer
    requires |s.cons.buffers| == 2
  {
    s.cons.buffers[s.cons.storeRound % 2]
  }

  /** The store thread holds the lock of its buffer from when it starts until its round ends. */
  predicate Locked(k: Cons, i: nat) {
    !k.phase.NoStore? && k.storeRound % 2 == i
  }

  predicate NoRequests(shards: seq<Shard>) {
    forall j :: 0 <= j < |shards| ==> shards[j].req.Nothing?
  }

  predicate Enabled(s: State, step: Step)
    requires |s.cons.buffers| == 2
  {
    var k := s.cons;
    match step
    case Invoke(c) => c < |s.clients| && !s.clients[c].busy
    case Reserve(c, r) => Waits(s, c, r) && s.clients[c].at[r].Sent?
    case Publish(c, r) => Waits(s, c, r) && s.clients[c].at[r].Held?
    case Register(c, r) => Waits(s, c, r) && s.clients[c].at[r].Shown? && r > 0
    case Reply(c, r) => Waits(s, c, r) && (if r == 0 then s.clients[c].at[r].Shown? else s.clients[c].at[r].Listed?)
    case Return(c) =>
      c < |s.clients| && s.clients[c].busy && forall r :: 0 <= r < |s.clients[c].at| ==> s.clients[c].at[r].Acked?
    case Fetch(n) =>
      && k.buffers[k.fetchRound % 2].Empty? && !Locked(k, k.fetchRound % 2) && n > 0
      && FetchFrom(s) + n <= |s.prim.log| && forall i :: FetchFrom(s) <= i < FetchFrom(s) + n ==> i in s.prim.shown
    case StoreBegin => k.phase.NoStore? && Storing(s).Full?
    case SendChunk =>
      && k.phase.Sending? && NoRequests(s.shards) && Storing(s).Full? && s.unit > 0 && |s.shards| > 0
      && Storing(s).batch.from <= k.phase.hi < BatchEnd(Storing(s).batch)
    case AddPrimary(j) => j < |s.shards| && s.shards[j].req.Waiting? && !s.shards[j].req.r.primary
    case AddBackup(j, b) =>
      j < |s.shards| && s.shards[j].req.Waiting? && b < |s.shards[j].backups| && b !in s.shards[j].req.r.backups
    case Ack(j) =>
      && j < |s.shards| && s.shards[j].req.Waiting? && s.shards[j].req.r.primary
      && forall b :: 0 <= b < |s.shards[j].backups| ==> b in s.shards[j].req.r.backups
    case SendDone =>
      && k.phase.Sending? && NoRequests(s.shards) && Storing(s).Full? && k.phase.hi == BatchEnd(Storing(s).batch)
    case GcPrimary => k.phase.Collecting? && !k.phase.primary && Storing(s).Full?
    case GcBegin(b, top) =>
      && k.phase.Collecting? && b < |s.backs| && b !in k.phase.asked && Storing(s).Full? && s.backs[b].gc.Quiet?
      && IsTop(s.backs[b].known, Maxima(Storing(s).batch.ops, |Storing(s).batch.ops|), top)
    case GcWalk(b) =>
      && b < |s.backs| && s.backs[b].gc.Walking? && s.backs[b].walked <= s.backs[b].gc.top
      && s.backs[b].walked < |s.backs[b].log| && s.backs[b].walked in s.backs[b].shown
    case GcEnd(b) =>
      && k.phase.Collecting? && b < |s.backs| && s.backs[b].gc.Walking? && s.backs[b].walked > s.backs[b].gc.top
    case Clear =>
      && k.phase.Collecting? && k.phase.primary && Storing(s).Full? && BatchEnd(Storing(s).batch) > 0
      && forall b :: 0 <= b < |s.backs| ==> b in k.phase.done
    case Tell(j) => k.phase.Updating? && j < |s.shards|
    case StoreEnd => k.phase.Updating? && forall j :: 0 <= j < |s.shards| ==> j in k.phase.told
  }

  /** Where a fetch starts reading: after the last one, or at the ordered watermark if that is further. */
  function FetchFrom(s: State): (r: nat)
    ensures s.prim.ordered <= r && s.cons.fetchBegin <= r && (r == s.prim.ordered || r == s.cons.fetchBegin)
  {
    if s.prim.ordered > s.cons.fetchBegin then s.prim.ordered else s.cons.fetchBegin
  }

  function BatchEnd(b: Batch): nat {
    b.from + |b.ops|
  }

  /** Where the requests that start at `lo` stop: at the end of the batch or of the big stripe. */
  function ChunkEnd(lo: nat, end: nat, big: nat): (hi: nat)
    requires lo < end && big > 0
    ensures lo < hi <= end
  {
    if Base(lo, big) + big < end then Base(lo, big) + big else end
  }

  function RequestFor(batch: Batch, n: nat, j: nat, lo: nat, hi: nat): Pending
    requires n > 0 && batch.from <= lo <= hi <= BatchEnd(batch)
  {
    var ops := Select(batch.ops, batch.from, n, j, lo, hi);
    if ops == [] then Nothing else Waiting(Request(ops, LastOf(n, j, lo, hi), false, {}))
  }

  function SendAll(shards: seq<Shard>, batch: Batch, lo: nat, hi: nat): (r: seq<Shard>)
    requires |shards| > 0 && batch.from <= lo <= hi <= BatchEnd(batch)
    ensures |r| == |shards|
    ensures forall j :: 0 <= j < |r| ==> r[j] == shards[j].(req := RequestFor(batch, |shards|, j, lo, hi))
  {
    seq(|shards|, j requires 0 <= j < |shards| => shards[j].(req := RequestFor(batch, |shards|, j, lo, hi)))
  }

  function WithStage(s: State, c: nat, r: nat, stage: Stage): State
    requires Waits(s, c, r)
  {
    s.(clients := s.clients[c := s.clients[c].(at := s.clients[c].at[r := stage])])
  }

  function WithShard(s: State, j: nat, shard: Shard): State
    requires j < |s.shards|
  {
    s.(shards := s.shards[j := shard])
  }

  function WithBackup(s: State, b: nat, backup: Backup): State
    requires b < |s.backs|
  {
    s.(backs := s.backs[b := backup])
  }

  function WithPhase(s: State, phase: Phase): State {
    s.(cons := s.cons.(phase := phase))
  }

  /** A backup that has looked up what a batch orders and gone through its pending list. */
  function Pruned(b: Backup, batch: Batch, top: nat): Backup {
    var m := Maxima(batch.ops, |batch.ops|);
    b.(pending := Keep(m, b.pending, |b.pending|), gc := Walking(m, top))
  }

  /** One entry of a backup's walk. */
  function Walked(b: Backup): Backup
    requires b.gc.Walking? && b.walked < |b.log|
  {
    var op := b.log[b.walked];
    b.(walked := b.walked + 1, known := b.known - {op},
       pending := if Drops(b.gc.m, op) then b.pending else b.pending + [op])
  }

  /** The consensus side after fetching `n` entries from index `from` on. */
  function Fetched(log: seq<Op>, k: Cons, from: nat, n: nat): Cons
    requires |k.buffers| == 2 && from + n <= |log|
  {
    k.(buffers := k.buffers[k.fetchRound % 2 := Full(Batch(from, log[from..from + n]))],
       fetchRound := k.fetchRound + 1, fetchBegin := k.fetchBegin + n, cuts := k.cuts + [from + n])
  }

  function Apply(s: State, step: Step): State
    requires |s.cons.buffers| == 2 && Enabled(s, step)
  {
    var k := s.cons;
    match step
    case Invoke(c) =>
      s.(clients := s.clients[c := Client(s.clients[c].next + 1, true, AllSent(1 + |s.backs|))])
    case Reserve(c, r) =>
      var op := Current(c, s.clients[c]);
      if r == 0 then WithStage(s, c, r, Held(|s.prim.log|)).(prim := s.prim.(log := s.prim.log + [op]))
      else
        var b := s.backs[r - 1];
        WithBackup(WithStage(s, c, r, Held(|b.log|)), r - 1, b.(log := b.log + [op]))
    case Publish(c, r) =>
      var i := s.clients[c].at[r].i;
      if r == 0 then WithStage(s, c, r, Shown(i)).(prim := s.prim.(shown := s.prim.shown + {i}))
      else
        var b := s.backs[r - 1];
        WithBackup(WithStage(s, c, r, Shown(i)), r - 1, b.(shown := b.shown + {i}))
    case Register(c, r) =>
      var b := s.backs[r - 1];
      WithBackup(WithStage(s, c, r, Listed), r - 1,
                 b.(known := b.known[Current(c, s.clients[c]) := s.clients[c].at[r].i]))
    case Reply(c, r) => WithStage(s, c, r, Acked)
    case Return(c) => s.(clients := s.clients[c := s.clients[c].(busy := false)])
    case Fetch(n) => s.(cons := Fetched(s.prim.log, k, FetchFrom(s), n))
    case StoreBegin =>
      var batch := Storing(s).batch;
      s.(cons := k.(phase := Sending(batch.from, batch.from), stored := k.stored + [batch]))
    case SendChunk =>
      var lo, batch := k.phase.hi, Storing(s).batch;
      MulLess(0, s.unit, |s.shards|);
      var hi := ChunkEnd(lo, BatchEnd(batch), s.unit * |s.shards|);
      WithPhase(s, Sending(lo, hi)).(shards := SendAll(s.shards, batch, lo, hi))
    case AddPrimary(j) =>
      var h := s.shards[j];
      WithShard(s, j, h.(primary := h.primary + h.req.r.ops, req := Waiting(h.req.r.(primary := true))))
    case AddBackup(j, b) =>
      var h := s.shards[j];
      WithShard(s, j, h.(backups := h.backups[b := h.backups[b] + h.req.r.ops],
                         req := Waiting(h.req.r.(backups := h.req.r.backups + {b}))))
    case Ack(j) => WithShard(s, j, s.shards[j].(replicated := s.shards[j].req.r.last, req := Nothing))
    case SendDone => WithPhase(s, Collecting(false, {}, {}))
    case GcPrimary =>
      WithPhase(s, k.phase.(primary := true)).(prim := s.prim.(ordered := BatchEnd(Storing(s).batch)))
    case GcBegin(b, top) =>
      WithBackup(WithPhase(s, k.phase.(asked := k.phase.asked + {b})), b, Pruned(s.backs[b], Storing(s).batch, top))
    case GcWalk(b) => WithBackup(s, b, Walked(s.backs[b]))
    case GcEnd(b) =>
      WithBackup(WithPhase(s, k.phase.(done := k.phase.done + {b})), b,
                 s.backs[b].(gc := Quiet, settled := s.backs[b].walked))
    case Clear =>
      s.(cons := k.(buffers := k.buffers[k.storeRound % 2 := Empty],
                    phase := Updating(BatchEnd(Storing(s).batch) - 1, {})))
    case Tell(j) =>
      WithShard(WithPhase(s, k.phase.(told := k.phase.told + {j})), j, s.shards[j].(global := k.phase.last))
    case StoreEnd => s.(cons := k.(phase := NoStore, storeRound := k.storeRound + 1))
  }
}

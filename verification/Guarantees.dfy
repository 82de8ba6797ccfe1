/** What the protocol guarantees in every reachable state of every run, and where it does not. */
module Guarantees {
  import opened Arith
  import opened Shards
  import opened Protocol
  import opened ProtocolProofs

  // ---------------------------------------------------------------- where an entry is on its shard

  /** After `p` indices a shard's list has exactly the shard's indices below `p`. */
  lemma {:induction false} PartShape(log: seq<Op>, n: nat, j: nat, p: nat)
    requires j < n && p <= |log|
    ensures Filled(j, n, |Part(log, n, j, p)|, p)
  {
    if p > 0 {
      PartShape(log, n, j, p - 1);
      NextSlot(j, n, |Part(log, n, j, p - 1)|, p - 1);
    }
  }

  lemma {:induction false} PartAt(log: seq<Op>, n: nat, p: nat, x: nat)
    requires n > 0 && x < p <= |log|
    ensures x / n < |Part(log, n, x % n, p)| && Part(log, n, x % n, p)[x / n] == log[x]
  {
    if x < p - 1 {
      PartAt(log, n, p - 1, x);
    } else {
      PartShape(log, n, x % n, x);
      NextSlot(x % n, n, |Part(log, n, x % n, x)|, x);
    }
  }

  /** A position that is filled belongs to an index below `p`. */
  lemma FilledBelow(log: seq<Op>, n: nat, p: nat, x: nat)
    requires n > 0 && p <= |log| && x / n < |Part(log, n, x % n, p)|
    ensures x < p
  {
    var len := |Part(log, n, x % n, p)|;
    PartShape(log, n, x % n, p);
    RoutedIndex(x, n);
    if x / n < len - 1 {
      TimesIncreases(x / n, len - 1, n);
    }
  }

  /** `list` has `op` as entry `i` of a system with `n` shards. */
  predicate Has(list: seq<Op>, n: nat, i: nat, op: Op)
    requires n > 0
  {
    i / n < |list| && list[i / n] == op
  }

  /** Index `i` of the primary's order is on its shard's primary and on all the shard's backups. */
  predicate OnShard(s: State, i: nat) {
    && |s.shards| > 0 && i < |s.prim.log|
    && var n := |s.shards|;
       var h := s.shards[i % n];
       Has(h.primary, n, i, s.prim.log[i])
       && forall b :: 0 <= b < |h.backups| ==> Has(h.backups[b], n, i, s.prim.log[i])
  }

  lemma CopiesHave(log: seq<Op>, n: nat, lo: nat, hi: nat, h: Shard, i: nat)
    requires n > 0 && lo <= hi <= |log| && ShardOk(log, n, i % n, lo, hi, h)
    requires i < if h.req.Nothing? then hi else lo
    ensures Has(h.primary, n, i, log[i]) && forall b :: 0 <= b < |h.backups| ==> Has(h.backups[b], n, i, log[i])
  {
    if i < lo { PartAt(log, n, lo, i); }
    PartAt(log, n, hi, i);
  }

  lemma StableIsOnShard(s: State, i: nat)
    requires Inv(s) && i < Stable(s.cons)
    ensures OnShard(s, i)
  {
    var n := |s.shards|;
    assert ShardOk(s.prim.log, n, i % n, Stable(s.cons), Reach(s.cons), s.shards[i % n]);
    CopiesHave(s.prim.log, n, Stable(s.cons), Reach(s.cons), s.shards[i % n], i);
  }

  // ---------------------------------------------------------------- reads

  /** The gate of a read, at the shard the index is routed to. */
  predicate PassesGate(s: State, idx: nat) {
    && |s.shards| > 0
    && var h := s.shards[idx % |s.shards|];
       idx / |s.shards| < |h.primary| && idx <= h.replicated && idx <= h.global
  }

  /** What a read that passes the gate returns. */
  function Read(s: State, idx: nat): Op
    requires PassesGate(s, idx)
  {
    s.shards[idx % |s.shards|].primary[idx / |s.shards|]
  }

  lemma ShardHoldsPrefix(log: seq<Op>, n: nat, lo: nat, hi: nat, h: Shard, idx: nat)
    requires n > 0 && lo <= hi <= |log| && ShardOk(log, n, idx % n, lo, hi, h) && idx / n < |h.primary|
    ensures idx < hi && h.primary[idx / n] == log[idx]
  {
    if h.primary == Part(log, n, idx % n, hi) {
      FilledBelow(log, n, hi, idx);
      PartAt(log, n, hi, idx);
    } else {
      FilledBelow(log, n, lo, idx);
      PartAt(log, n, lo, idx);
    }
  }

  /**
   * A read that returns gives the entry with that index in the primary's append order; and for every index but 0,
   * that entry and all before it are then on their shards' primaries and all their backups.
   */
  lemma ReadsAreStable(states: seq<State>, steps: seq<Step>, k: nat, idx: nat)
    requires IsRun(states, steps) && k < |states| && PassesGate(states[k], idx)
    ensures var s := states[k];
            && idx < |s.prim.log| && Read(s, idx) == s.prim.log[idx]
            && (idx > 0 ==> forall i :: 0 <= i <= idx ==> OnShard(s, i))
  {
    var s := states[k];
    RunKeeps(states, steps, k);
    var n := |s.shards|;
    assert ShardOk(s.prim.log, n, idx % n, Stable(s.cons), Reach(s.cons), s.shards[idx % n]);
    ShardHoldsPrefix(s.prim.log, n, Stable(s.cons), Reach(s.cons), s.shards[idx % n], idx);
    if idx > 0 {
      forall i | 0 <= i <= idx
        ensures OnShard(s, i)
      {
        StableIsOnShard(s, i);
      }
    }
  }

  /** The replication watermark alone: what a shard serves below it is on the shard's primary and all its backups. */
  lemma ReplicatedIsCopied(states: seq<State>, steps: seq<Step>, k: nat, idx: nat)
    requires IsRun(states, steps) && k < |states| && |states[k].shards| > 0
    requires 0 < idx <= states[k].shards[idx % |states[k].shards|].replicated
    ensures OnShard(states[k], idx)
  {
    var s := states[k];
    RunKeeps(states, steps, k);
    var n := |s.shards|;
    assert ShardOk(s.prim.log, n, idx % n, Stable(s.cons), Reach(s.cons), s.shards[idx % n]);
    CopiesHave(s.prim.log, n, Stable(s.cons), Reach(s.cons), s.shards[idx % n], idx);
  }

  // ---------------------------------------------------------------- exactly what can be read

  /** Everything below this has been published to shard `j`: the batches stored, and the one whose index it was told. */
  function Published(k: Cons, j: nat): nat
    requires Cuts(k)
  {
    if k.phase.Updating? && j in k.phase.told then k.cuts[k.storeRound + 1] else k.cuts[k.storeRound]
  }

  /** The stable index that a shard knows is the last one published to it. */
  predicate GlobalsOk(s: State)
    requires Cuts(s.cons)
  {
    forall j :: 0 <= j < |s.shards| ==>
                  var p := Published(s.cons, j); s.shards[j].global == if p > 0 then p - 1 else 0
  }

  /** All steps but two leave what is published, and what the shards know of it, as they are. */
  lemma SamePublished(k: Cons, k': Cons, j: nat)
    requires Cuts(k) && Cuts(k') && k'.storeRound == k.storeRound && k.cuts <= k'.cuts
    requires k'.phase == k.phase || (!k.phase.Updating? && (k'.phase.Updating? ==> k'.phase.told == {}))
    ensures Published(k', j) == Published(k, j)
  {
  }

  lemma QuietGlobals(s: State, step: Step, t: State)
    requires Cuts(s.cons) && GlobalsOk(s) && Enabled(s, step) && t == Apply(s, step) && Cuts(t.cons)
    requires !step.Tell? && !step.StoreEnd?
    ensures GlobalsOk(t)
  {
    ConsOnward(s, step);
    forall j | 0 <= j < |t.shards|
      ensures Published(t.cons, j) == Published(s.cons, j) && t.shards[j].global == s.shards[j].global
    {
      SamePublished(s.cons, t.cons, j);
    }
  }

  lemma LoudGlobals(s: State, step: Step, t: State)
    requires ConsOk(s.prim, s.cons) && GlobalsOk(s) && Enabled(s, step) && t == Apply(s, step) && Cuts(t.cons)
    requires step.Tell? || step.StoreEnd?
    ensures GlobalsOk(t)
  {
    forall j | 0 <= j < |t.shards|
      ensures var p := Published(t.cons, j); t.shards[j].global == if p > 0 then p - 1 else 0
    {
      assert Published(t.cons, j) == if step.Tell? && j != step.j then Published(s.cons, j)
                                     else s.cons.cuts[s.cons.storeRound + 1];
    }
  }

  lemma StepGlobals(s: State, step: Step, t: State)
    requires Inv(s) && GlobalsOk(s) && Enabled(s, step) && t == Apply(s, step) && Inv(t)
    ensures GlobalsOk(t)
  {
    if step.Tell? || step.StoreEnd? {
      LoudGlobals(s, step, t);
    } else {
      QuietGlobals(s, step, t);
    }
  }

  lemma StartGlobals(s: State)
    requires Init(s)
    ensures Inv(s) && GlobalsOk(s)
  {
    InitKeeps(s);
  }

  lemma {:induction false} RunGlobals(states: seq<State>, steps: seq<Step>, k: nat)
    requires IsRun(states, steps) && k < |states|
    ensures Inv(states[k]) && GlobalsOk(states[k])
  {
    if k == 0 {
      StartGlobals(states[0]);
    } else {
      RunGlobals(states, steps, k - 1);
      assert StepTo(states[k - 1], steps[k - 1], states[k]);
      StepKeeps(states[k - 1], steps[k - 1]);
      StepGlobals(states[k - 1], steps[k - 1], states[k]);
    }
  }

  /** What is stable has been stored and acknowledged on its shard. */
  lemma StableIsServed(s: State, idx: nat)
    requires Inv(s) && idx < Stable(s.cons)
    ensures var h := s.shards[idx % |s.shards|]; idx / |s.shards| < |h.primary| && idx <= h.replicated
  {
    var n := |s.shards|;
    var h := s.shards[idx % n];
    assert ShardOk(s.prim.log, n, idx % n, Stable(s.cons), Reach(s.cons), h);
    StableIsOnShard(s, idx);
    assert idx <= h.replicated;
  }

  /**
   * Exactly what can be read, in every state of every run: of the indices above 0, those that have been published to
   * their shard; and index 0 as soon as its shard's primary has it.
   */
  lemma ReadableExactly(states: seq<State>, steps: seq<Step>, k: nat, idx: nat)
    requires IsRun(states, steps) && k < |states|
    ensures var s := states[k];
            && Cuts(s.cons) && |s.shards| > 0
            && (idx > 0 ==> (PassesGate(s, idx) <==> idx < Published(s.cons, idx % |s.shards|)))
            && (PassesGate(s, 0) <==> s.shards[0].primary != [])
  {
    var s := states[k];
    RunGlobals(states, steps, k);
    var p := Published(s.cons, idx % |s.shards|);
    if idx < p {
      PublishedIsStable(s, idx % |s.shards|);
      StableIsServed(s, idx);
    }
  }

  lemma PublishedIsStable(s: State, j: nat)
    requires Inv(s)
    ensures Published(s.cons, j) <= Stable(s.cons)
  {
    StableBound(s.prim, s.cons);
  }

  /** When the store thread rests, everything below the ordered watermark can be read. */
  lemma OrderedIsReadable(states: seq<State>, steps: seq<Step>, k: nat, idx: nat)
    requires IsRun(states, steps) && k < |states| && states[k].cons.phase.NoStore? && idx < states[k].prim.ordered
    ensures PassesGate(states[k], idx) && idx < |states[k].prim.log|
    ensures Read(states[k], idx) == states[k].prim.log[idx]
  {
    var s := states[k];
    RunGlobals(states, steps, k);
    StableIsServed(s, idx);
    ReadsAreStable(states, steps, k, idx);
  }

  // ---------------------------------------------------------------- nothing is lost

  /** No loss on the primary: an entry below the ordered watermark is on its shard, primary and backups. */
  lemma OrderedIsOnShard(states: seq<State>, steps: seq<Step>, k: nat, i: nat)
    requires IsRun(states, steps) && k < |states| && i < states[k].prim.ordered
    ensures states[k].prim.ordered <= |states[k].prim.log| && OnShard(states[k], i)
  {
    RunKeeps(states, steps, k);
    StableBound(states[k].prim, states[k].cons);
    StableIsOnShard(states[k], i);
  }

  /** `op` is somewhere in the primary's order and on its shard. */
  predicate OnSomeShard(s: State, op: Op) {
    exists i :: 0 <= i < |s.prim.log| && s.prim.log[i] == op && OnShard(s, i)
  }

  /**
   * Backup garbage collection is safe although a backup has its own order: what is neither in its ring nor in its
   * pending list is stored, except possibly the first append of a client.
   */
  lemma BackupLosesNothing(states: seq<State>, steps: seq<Step>, k: nat, b: nat, i: nat)
    requires IsRun(states, steps) && k < |states| && b < |states[k].backs|
    requires i < states[k].backs[b].walked && i < |states[k].backs[b].log|
    ensures var x := states[k].backs[b];
            var op := x.log[i];
            op in x.pending || op.sq == 0 || OnSomeShard(states[k], op)
  {
    var s := states[k];
    RunKeeps(states, steps, k);
    var x := s.backs[b];
    assert BackupOk(s.prim.log, Stable(s.cons), x);
    assert Safe(s.prim.log, Stable(s.cons), x, x.log[i]);
    if Before(s.prim.log, Stable(s.cons), x.log[i]) {
      var p :| 0 <= p < Stable(s.cons) && p < |s.prim.log| && s.prim.log[p] == x.log[i];
      StableIsOnShard(s, p);
    }
  }

  /** Append `q` of client `c` has returned. */
  predicate Returned(s: State, c: nat, q: nat) {
    c < |s.clients| && q < s.clients[c].next && (s.clients[c].busy ==> q < s.clients[c].next - 1)
  }

  /**
   * Durability of an append that has returned: the primary has it, unordered or stored; and every backup has it in its
   * ring or its pending list, or it is stored, except that a backup may have dropped a client's first append.
   */
  lemma ReturnedIsDurable(states: seq<State>, steps: seq<Step>, k: nat, c: nat, q: nat)
    requires IsRun(states, steps) && k < |states| && Returned(states[k], c, q)
    ensures var s := states[k];
            && (exists i :: 0 <= i < |s.prim.log| && s.prim.log[i] == Op(c, q) && (i >= s.prim.ordered || OnShard(s, i)))
            && (forall b :: 0 <= b < |s.backs| ==> OnBackup(s, s.backs[b], Op(c, q)))
  {
    var s := states[k];
    RunKeeps(states, steps, k);
    assert ClientOk(s.prim.log, 1 + |s.backs|, c, s.clients[c]);
    assert Before(s.prim.log, |s.prim.log|, Op(c, q));
    var i :| 0 <= i < |s.prim.log| && s.prim.log[i] == Op(c, q);
    if i < s.prim.ordered { OrderedIsOnShard(states, steps, k, i); }
    forall b | 0 <= b < |s.backs|
      ensures OnBackup(s, s.backs[b], Op(c, q))
    {
      var x := s.backs[b];
      assert Arrived(x.log, b, c, s.clients[c]);
      var p :| 0 <= p < |x.log| && x.log[p] == Op(c, q);
      if p < x.walked { BackupLosesNothing(states, steps, k, b, p); }
    }
  }

  predicate OnBackup(s: State, x: Backup, op: Op) {
    || (exists p :: x.walked <= p < |x.log| && x.log[p] == op)
    || op in x.pending || op.sq == 0 || OnSomeShard(s, op)
  }

  // ---------------------------------------------------------------- order

  /** What never goes back: the primary's log and its ordered watermark, the rounds and the fetched batches. */
  predicate Onward(s: State, s': State) {
    && Grows(s.prim.log, s'.prim.log) && s.prim.ordered <= s'.prim.ordered && s.prim.shown <= s'.prim.shown
    && s.cons.storeRound <= s'.cons.storeRound && s.cons.fetchRound <= s'.cons.fetchRound
    && s.cons.cuts <= s'.cons.cuts && s.cons.stored <= s'.cons.stored
    && |s.clients| == |s'.clients| && forall c :: 0 <= c < |s.clients| ==> s.clients[c].next <= s'.clients[c].next
  }

  lemma ClientsOnward(s: State, step: Step)
    requires |s.cons.buffers| == 2 && Enabled(s, step)
    ensures var t := Apply(s, step);
            |s.clients| == |t.clients| && forall c :: 0 <= c < |s.clients| ==> s.clients[c].next <= t.clients[c].next
  {
  }

  lemma ConsOnward(s: State, step: Step)
    requires |s.cons.buffers| == 2 && Enabled(s, step)
    ensures var t := Apply(s, step);
            && s.cons.storeRound <= t.cons.storeRound && s.cons.fetchRound <= t.cons.fetchRound
            && s.cons.cuts <= t.cons.cuts && s.cons.stored <= t.cons.stored
  {
  }

  lemma PrimaryOnward(s: State, step: Step)
    requires Inv(s) && Enabled(s, step)
    ensures var t := Apply(s, step);
            Grows(s.prim.log, t.prim.log) && s.prim.ordered <= t.prim.ordered && s.prim.shown <= t.prim.shown
  {
    if step.GcPrimary? {
      assert s.cons.cuts[s.cons.storeRound] < s.cons.cuts[s.cons.storeRound + 1];
    }
  }

  lemma StepOnward(s: State, step: Step)
    requires Inv(s) && Enabled(s, step)
    ensures Onward(s, Apply(s, step))
  {
    ClientsOnward(s, step);
    ConsOnward(s, step);
    PrimaryOnward(s, step);
  }

  lemma OnwardOnward(s: State, t: State, u: State)
    requires Onward(s, t) && Onward(t, u)
    ensures Onward(s, u)
  {
  }

  lemma RunStepOnward(states: seq<State>, steps: seq<Step>, k: nat)
    requires IsRun(states, steps) && k < |steps|
    ensures Onward(states[k], states[k + 1])
  {
    RunKeeps(states, steps, k);
    StepOnward(states[k], steps[k]);
  }

  lemma {:induction false} RunOnward(states: seq<State>, steps: seq<Step>, i: nat, k: nat)
    requires IsRun(states, steps) && i <= k < |states|
    ensures Onward(states[i], states[k])
  {
    if i < k {
      RunOnward(states, steps, i, k - 1);
      RunStepOnward(states, steps, k - 1);
      OnwardOnward(states[i], states[k - 1], states[k]);
    }
  }

  /** Append `q` of client `c` has been invoked. */
  predicate Invoked(s: State, c: nat, q: nat) {
    c < |s.clients| && q < s.clients[c].next
  }

  lemma LoggedIsInvoked(s: State, y: nat)
    requires Inv(s) && y < |s.prim.log|
    ensures Invoked(s, s.prim.log[y].client, s.prim.log[y].sq)
  {
    var c := s.prim.log[y].client;
    assert ClientOk(s.prim.log, 1 + |s.backs|, c, s.clients[c]);
  }

  /**
   * Real-time order: if append A had returned at some moment when append B was not yet invoked, then ever after A has
   * one index, B has at most one, and A's is smaller.
   */
  lemma RealTimeOrder(states: seq<State>, steps: seq<Step>, i: nat, k: nat, c: nat, q: nat, d: nat, p: nat)
    requires IsRun(states, steps) && i <= k < |states|
    requires Returned(states[i], c, q) && !Invoked(states[i], d, p)
    ensures var log := states[k].prim.log;
            && (forall y, z :: 0 <= y < z < |log| ==> log[y] != log[z])
            && exists x {:trigger log[x]} :: 0 <= x < |log| && log[x] == Op(c, q)
                 && forall y :: 0 <= y < |log| && log[y] == Op(d, p) ==> x < y
  {
    RunKeeps(states, steps, i);
    RunKeeps(states, steps, k);
    RunOnward(states, steps, i, k);
    var s, log := states[i], states[k].prim.log;
    assert ClientOk(s.prim.log, 1 + |s.backs|, c, s.clients[c]);
    assert Before(s.prim.log, |s.prim.log|, Op(c, q));
    var x :| 0 <= x < |s.prim.log| && s.prim.log[x] == Op(c, q);
    assert log[x] == Op(c, q);
    forall y | 0 <= y < |s.prim.log|
      ensures s.prim.log[y] != Op(d, p)
    {
      LoggedIsInvoked(s, y);
    }
  }

  // ---------------------------------------------------------------- the pipeline

  /**
   * The two threads: fetching is zero to two batches ahead of storing; it continues where the last batch ended, at or
   * above the watermark; what the shards were given are the fetched batches in order, which together are a gap-free,
   * duplicate-free prefix of the primary's log.
   */
  lemma PipelineInOrder(states: seq<State>, steps: seq<Step>, k: nat, r: nat)
    requires IsRun(states, steps) && k < |states| && r < |states[k].cons.stored|
    ensures var s := states[k];
            var cuts := s.cons.cuts;
            && s.cons.storeRound <= s.cons.fetchRound <= s.cons.storeRound + 2
            && s.prim.ordered <= s.cons.fetchBegin == FetchFrom(s) <= |s.prim.log|
            && cuts != [] && cuts[0] == 0 && cuts[|cuts| - 1] == s.cons.fetchBegin && r + 1 < |cuts|
            && cuts[r] < cuts[r + 1] <= |s.prim.log|
            && s.cons.stored[r] == Batch(cuts[r], s.prim.log[cuts[r]..cuts[r + 1]])
  {
    var s := states[k];
    RunKeeps(states, steps, k);
    StableBound(s.prim, s.cons);
    assert IsBatch(s.prim.log, s.cons.cuts[r], s.cons.cuts[r + 1], Full(s.cons.stored[r]));
    assert s.cons.stored[r].ops == s.prim.log[s.cons.cuts[r]..s.cons.cuts[r + 1]];
  }

  /** The sequential loop: it is idle, or busy with entries `from` up to `to`. */
  datatype Work = Rest | Busy(from: nat, to: nat)

  datatype Loop = Loop(log: seq<Op>, shown: set<nat>, ordered: nat, stable: nat, work: Work)

  /**
   * One step of the sequential fetch-and-store loop: appenders go on; at rest it fetches published entries from the
   * watermark; it stores them, in one or more rounds; then it moves the watermark past them; then it rests.
   */
  predicate LoopStep(a: Loop, b: Loop) {
    || (Grows(a.log, b.log) && a.shown <= b.shown && b == a.(log := b.log, shown := b.shown))
    || (&& a.work.Rest? && b == a.(work := b.work) && b.work.Busy? && b.work.from == a.ordered < b.work.to <= |a.log|
        && forall i :: b.work.from <= i < b.work.to ==> i in a.shown)
    || (a.work.Busy? && a.stable <= b.stable <= a.work.to && b == a.(stable := b.stable))
    || (a.work.Busy? && a.stable == a.work.to && b == a.(ordered := a.work.to))
    || (a.work.Busy? && a.ordered == a.work.to && b == a.(work := Rest))
  }

  function Abs(prim: Primary, k: Cons): Loop
    requires Cuts(k)
  {
    Loop(prim.log, prim.shown, prim.ordered, Stable(k),
         if k.phase.NoStore? then Rest else Busy(k.cuts[k.storeRound], k.cuts[k.storeRound + 1]))
  }

  /** Appends and shards: the consensus side does not move. */
  lemma OutsideIsLoopStep(prim: Primary, prim': Primary, k: Cons)
    requires Cuts(k) && Grows(prim.log, prim'.log) && prim.shown <= prim'.shown && prim'.ordered == prim.ordered
    ensures LoopStep(Abs(prim, k), Abs(prim', k))
  {
  }

  /** A fetch is invisible: the sequential loop will fetch the same entries when it gets to them. */
  lemma FetchIsInvisible(prim: Primary, k: Cons, k': Cons, n: nat)
    requires ConsOk(prim, k) && ConsOk(prim, k') && k.fetchBegin + n <= |prim.log|
    requires k' == Fetched(prim.log, k, k.fetchBegin, n)
    ensures Abs(prim, k') == Abs(prim, k)
  {
  }

  /** Taking up a batch is the sequential loop's fetch: its entries start at the watermark and are published. */
  lemma StoreBeginIsLoopStep(prim: Primary, k: Cons, k': Cons)
    requires ConsOk(prim, k) && ConsOk(prim, k') && k.phase.NoStore? && k'.phase.Sending?
    requires k'.cuts == k.cuts && k'.storeRound == k.storeRound && Stable(k') == Stable(k)
    ensures LoopStep(Abs(prim, k), Abs(prim, k'))
  {
    StableBound(prim, k);
    var r := k.storeRound;
    assert k.cuts[r] < k.cuts[r + 1];
    assert r + 2 == k.fetchRound ==> k.cuts[r + 1] < k.cuts[r + 1 + 1];
  }

  /** Sending, collecting and publishing the stable index: storing, then moving the watermark. */
  lemma StoreIsLoopStep(prim: Primary, prim': Primary, k: Cons, k': Cons)
    requires ConsOk(prim, k) && ConsOk(prim', k') && !k.phase.NoStore? && !k'.phase.NoStore?
    requires k'.cuts == k.cuts && k'.storeRound == k.storeRound && prim' == prim.(ordered := prim'.ordered)
    requires Stable(k) <= Stable(k')
    requires prim'.ordered == prim.ordered
             || (k.phase.Collecting? && k'.phase.Collecting? && prim'.ordered == k.cuts[k.storeRound + 1])
    ensures LoopStep(Abs(prim, k), Abs(prim', k'))
  {
  }

  lemma StoreEndIsLoopStep(prim: Primary, k: Cons, k': Cons)
    requires ConsOk(prim, k) && ConsOk(prim, k') && k.phase.Updating?
    requires k' == k.(phase := NoStore, storeRound := k.storeRound + 1)
    ensures LoopStep(Abs(prim, k), Abs(prim, k'))
  {
  }

  lemma PipelineSendStep(s: State, step: Step, t: State)
    requires Inv(s) && Enabled(s, step) && t == Apply(s, step) && Inv(t) && (step.SendChunk? || step.SendDone?)
    ensures LoopStep(Abs(s.prim, s.cons), Abs(t.prim, t.cons))
  {
    StoreIsLoopStep(s.prim, t.prim, s.cons, t.cons);
  }

  lemma PipelineGcStep(s: State, step: Step, t: State)
    requires Inv(s) && Enabled(s, step) && t == Apply(s, step) && Inv(t)
    requires step.GcPrimary? || step.GcBegin? || step.GcEnd?
    ensures LoopStep(Abs(s.prim, s.cons), Abs(t.prim, t.cons))
  {
    StoreIsLoopStep(s.prim, t.prim, s.cons, t.cons);
  }

  lemma PipelineEndStep(s: State, step: Step, t: State)
    requires Inv(s) && Enabled(s, step) && t == Apply(s, step) && Inv(t) && (step.Clear? || step.Tell?)
    ensures LoopStep(Abs(s.prim, s.cons), Abs(t.prim, t.cons))
  {
    StoreIsLoopStep(s.prim, t.prim, s.cons, t.cons);
  }

  lemma PipelineOutsideStep(s: State, step: Step, t: State)
    requires Inv(s) && Enabled(s, step) && t == Apply(s, step) && t.cons == s.cons && t.prim.ordered == s.prim.ordered
    ensures LoopStep(Abs(s.prim, s.cons), Abs(t.prim, t.cons))
  {
    StepOnward(s, step);
    OutsideIsLoopStep(s.prim, t.prim, s.cons);
  }

  lemma PipelineFetchStep(s: State, n: nat, t: State)
    requires Inv(s) && Enabled(s, Fetch(n)) && t == Apply(s, Fetch(n)) && Inv(t)
    ensures LoopStep(Abs(s.prim, s.cons), Abs(t.prim, t.cons))
  {
    StableBound(s.prim, s.cons);
    FetchIsInvisible(s.prim, s.cons, t.cons, n);
  }

  /** Every step of the double-buffered pipeline is a step of the sequential loop, or one it does not see. */
  lemma PipelineRefinesLoop(s: State, step: Step, t: State)
    requires Inv(s) && Enabled(s, step) && t == Apply(s, step)
    ensures Inv(t) && LoopStep(Abs(s.prim, s.cons), Abs(t.prim, t.cons))
  {
    StepKeeps(s, step);
    if step.Fetch? {
      PipelineFetchStep(s, step.k, t);
    } else if step.StoreBegin? {
      StoreBeginIsLoopStep(s.prim, s.cons, t.cons);
    } else if step.SendChunk? || step.SendDone? {
      PipelineSendStep(s, step, t);
    } else if step.GcPrimary? || step.GcBegin? || step.GcEnd? {
      PipelineGcStep(s, step, t);
    } else if step.Clear? || step.Tell? {
      PipelineEndStep(s, step, t);
    } else if step.StoreEnd? {
      StoreEndIsLoopStep(s.prim, s.cons, t.cons);
    } else {
      PipelineOutsideStep(s, step, t);
    }
  }

  // ---------------------------------------------------------------- with the shards in view

  function Lists(shards: seq<Shard>): (r: seq<seq<Op>>)
    ensures |r| == |shards| && forall j :: 0 <= j < |r| ==> r[j] == shards[j].primary
  {
    seq(|shards|, j requires 0 <= j < |shards| => shards[j].primary)
  }

  function Globals(shards: seq<Shard>): (r: seq<nat>)
    ensures |r| == |shards| && forall j :: 0 <= j < |r| ==> r[j] == shards[j].global
  {
    seq(|shards|, j requires 0 <= j < |shards| => shards[j].global)
  }

  /** The loop together with what the shards hold and the stable index that each of them knows. */
  datatype System = System(loop: Loop, lists: seq<seq<Op>>, global: seq<nat>)

  /** `x` is shard `j`'s share of some prefix of the order, up to the end of the batch at hand. */
  predicate IsShare(a: System, j: nat, x: seq<Op>)
    requires a.loop.work.Busy? && j < |a.lists|
  {
    exists p :: 0 <= p <= a.loop.work.to && p <= |a.loop.log| && x == Part(a.loop.log, |a.lists|, j, p)
  }

  /**
   * One step of the sequential loop with its shards: a step of the loop, which rests only when every shard knows the last
   * index of the batch; or a shard gets more of its share; or, once the watermark is past the batch, a shard learns it.
   */
  ghost predicate SystemStep(a: System, b: System) {
    || (&& LoopStep(a.loop, b.loop) && b.lists == a.lists && b.global == a.global
        && (a.loop.work.Busy? && b.loop.work.Rest? ==>
              forall j :: 0 <= j < |a.global| ==> a.global[j] + 1 == a.loop.work.to))
    || (&& a.loop.work.Busy?
        && exists j, x :: 0 <= j < |a.lists| && a.lists[j] <= x && IsShare(a, j, x) && b == a.(lists := a.lists[j := x]))
    || (&& a.loop.work.Busy? && a.loop.ordered == a.loop.work.to > 0
        && exists j :: 0 <= j < |a.global| && Learns(a, b, j))
  }

  /** Shard `j` learns the last index of the batch. */
  predicate Learns(a: System, b: System, j: nat)
    requires a.loop.work.Busy? && a.loop.work.to > 0 && j < |a.global|
  {
    b == a.(global := a.global[j := a.loop.work.to - 1])
  }

  function View(s: State): System
    requires Cuts(s.cons)
  {
    System(Abs(s.prim, s.cons), Lists(s.shards), Globals(s.shards))
  }

  /** A shard that has been told knows the index. */
  predicate Told(s: State) {
    s.cons.phase.Updating? ==>
      forall j :: j in s.cons.phase.told ==> j < |s.shards| && s.shards[j].global == s.cons.phase.last
  }

  lemma StepTold(s: State, step: Step)
    requires |s.cons.buffers| == 2 && Enabled(s, step) && Told(s)
    ensures Told(Apply(s, step))
  {
  }

  lemma {:induction false} RunTold(states: seq<State>, steps: seq<Step>, k: nat)
    requires IsRun(states, steps) && k < |states|
    ensures Told(states[k])
  {
    if k > 0 {
      RunTold(states, steps, k - 1);
      assert StepTo(states[k - 1], steps[k - 1], states[k]);
      StepTold(states[k - 1], steps[k - 1]);
    }
  }

  lemma ShardsQuiet(s: State, step: Step)
    requires |s.cons.buffers| == 2 && Enabled(s, step) && !step.AddPrimary? && !step.Tell?
    ensures Lists(Apply(s, step).shards) == Lists(s.shards) && Globals(Apply(s, step).shards) == Globals(s.shards)
  {
  }

  lemma AddIsSystemStep(s: State, j: nat, t: State)
    requires Inv(s) && Enabled(s, AddPrimary(j)) && t == Apply(s, AddPrimary(j)) && s.cons.phase.Sending?
    ensures SystemStep(View(s), View(t))
  {
    var h, n, lo, hi := s.shards[j], |s.shards|, Stable(s.cons), Reach(s.cons);
    assert ShardOk(s.prim.log, n, j, lo, hi, h);
    var x := t.shards[j].primary;
    assert x == Part(s.prim.log, n, j, hi) && h.primary <= x;
    StableBound(s.prim, s.cons);
    assert IsShare(View(s), j, x);
    assert Lists(t.shards) == Lists(s.shards)[j := x] && Globals(t.shards) == Globals(s.shards);
    assert View(t) == View(s).(lists := View(s).lists[j := x]);
  }

  /** Requests are out only while the store thread is sending. */
  lemma RequestsWhileSending(s: State, j: nat)
    requires Inv(s) && j < |s.shards| && s.shards[j].req.Waiting? && s.shards[j].req.r.ops != []
    ensures s.cons.phase.Sending?
  {
    assert ShardOk(s.prim.log, |s.shards|, j, Stable(s.cons), Reach(s.cons), s.shards[j]);
  }

  lemma TellIsSystemStep(s: State, j: nat, t: State)
    requires Inv(s) && Enabled(s, Tell(j)) && t == Apply(s, Tell(j))
    ensures SystemStep(View(s), View(t))
  {
    assert Lists(t.shards) == Lists(s.shards);
    assert Globals(t.shards) == Globals(s.shards)[j := s.cons.phase.last];
    assert Learns(View(s), View(t), j);
  }

  lemma StutterIsSystemStep(a: System)
    ensures SystemStep(a, a)
  {
    assert Grows(a.loop.log, a.loop.log);
  }

  lemma NothingAdded(s: State, j: nat, t: State)
    requires Inv(s) && Enabled(s, AddPrimary(j)) && t == Apply(s, AddPrimary(j)) && s.shards[j].req.r.ops == []
    ensures SystemStep(View(s), View(t))
  {
    assert t.shards[j].primary == s.shards[j].primary;
    assert Lists(t.shards) == Lists(s.shards);
    assert Globals(t.shards) == Globals(s.shards);
    StutterIsSystemStep(View(s));
  }

  lemma QuietIsSystemStep(s: State, step: Step, t: State)
    requires Inv(s) && Told(s) && Enabled(s, step) && t == Apply(s, step) && !step.AddPrimary? && !step.Tell?
    ensures Inv(t) && SystemStep(View(s), View(t))
  {
    PipelineRefinesLoop(s, step, t);
    ShardsQuiet(s, step);
    if View(s).loop.work.Busy? && View(t).loop.work.Rest? {
      RestIsPublished(s, step, t);
    }
  }

  lemma RestIsPublished(s: State, step: Step, t: State)
    requires Inv(s) && Told(s) && Enabled(s, step) && t == Apply(s, step) && Inv(t)
    requires View(s).loop.work.Busy? && View(t).loop.work.Rest?
    ensures forall j :: 0 <= j < |s.shards| ==> Globals(s.shards)[j] + 1 == View(s).loop.work.to
  {
    assert step.StoreEnd?;
  }

  /**
   * Every step of the double-buffered pipeline, shards included, is a step of the sequential loop with its shards, or
   * one that it does not see.
   */
  lemma PipelineRefinesSystem(s: State, step: Step, t: State)
    requires Inv(s) && Told(s) && Enabled(s, step) && t == Apply(s, step)
    ensures Inv(t) && SystemStep(View(s), View(t))
  {
    StepKeeps(s, step);
    if step.Tell? {
      TellIsSystemStep(s, step.j, t);
    } else if step.AddPrimary? {
      if s.shards[step.j].req.r.ops == [] {
        NothingAdded(s, step.j, t);
      } else {
        RequestsWhileSending(s, step.j);
        AddIsSystemStep(s, step.j, t);
      }
    } else {
      QuietIsSystemStep(s, step, t);
    }
  }

  lemma RunRefinesSystem(states: seq<State>, steps: seq<Step>, k: nat)
    requires IsRun(states, steps) && k < |steps|
    ensures Inv(states[k]) && Inv(states[k + 1]) && SystemStep(View(states[k]), View(states[k + 1]))
  {
    RunKeeps(states, steps, k);
    RunTold(states, steps, k);
    PipelineRefinesSystem(states[k], steps[k], states[k + 1]);
  }
}

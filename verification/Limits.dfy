/** Runs that show why two guarantees leave out index 0 and client sequence 0. */
module Limits {
  import opened Arith
  import opened Protocol
  import opened ProtocolProofs
  import opened Guarantees

  ghost predicate Reachable(s: State) {
    exists states, steps :: IsRun(states, steps) && states[|steps|] == s
  }

  lemma Start(s: State)
    requires Init(s)
    ensures Reachable(s)
  {
    var steps: seq<Step> := [];
    assert IsRun([s], steps) && [s][|steps|] == s;
  }

  lemma Next(s: State, step: Step, t: State)
    requires Reachable(s) && StepTo(s, step, t)
    ensures Reachable(t)
  {
    var states, steps :| IsRun(states, steps) && states[|steps|] == s;
    Longer(states, steps, step, t);
  }

  lemma Longer(states: seq<State>, steps: seq<Step>, step: Step, t: State)
    requires IsRun(states, steps) && StepTo(states[|steps|], step, t)
    ensures IsRun(states + [t], steps + [step]) && (states + [t])[|steps + [step]|] == t
  {
    var states', steps' := states + [t], steps + [step];
    forall k | 0 <= k < |steps'|
      ensures StepTo(states'[k], steps'[k], states'[k + 1])
    {
      if k < |steps| {
        assert StepTo(states[k], steps[k], states[k + 1]);
      }
    }
  }

  /** One client, one shard with one backup; nothing is fetched yet. */
  function One(client: Client, prim: Primary): State {
    State(1, [client], prim, [], Cons([Empty, Empty], 0, 0, 0, NoStore, [0], []), [Shard([], [[]], 0, 0, Nothing)])
  }

  lemma OneInvoked()
    ensures Reachable(One(Client(1, true, [Sent]), Primary([], {}, 0)))
  {
    var s0 := One(Client(0, false, []), Primary([], {}, 0));
    Start(s0);
    assert AllSent(1) == [Sent];
    var s1 := One(Client(1, true, [Sent]), Primary([], {}, 0));
    assert Apply(s0, Invoke(0)).clients == s1.clients;
    Next(s0, Invoke(0), s1);
  }

  lemma OneHeld()
    ensures Reachable(One(Client(1, true, [Held(0)]), Primary([Op(0, 0)], {}, 0)))
  {
    OneInvoked();
    var s1 := One(Client(1, true, [Sent]), Primary([], {}, 0));
    assert [Sent][0 := Held(0)] == [Held(0)];
    var s2 := One(Client(1, true, [Held(0)]), Primary([Op(0, 0)], {}, 0));
    assert Apply(s1, Reserve(0, 0)).clients == s2.clients && Apply(s1, Reserve(0, 0)).prim.log == s2.prim.log;
    Next(s1, Reserve(0, 0), s2);
  }

  lemma OnePublished()
    ensures Reachable(One(Client(1, true, [Shown(0)]), Primary([Op(0, 0)], {0}, 0)))
  {
    OneHeld();
    var s0 := One(Client(1, true, [Held(0)]), Primary([Op(0, 0)], {}, 0));
    assert [Held(0)][0 := Shown(0)] == [Shown(0)];
    var s1 := One(Client(1, true, [Shown(0)]), Primary([Op(0, 0)], {0}, 0));
    assert Apply(s0, Publish(0, 0)).clients == s1.clients && Apply(s0, Publish(0, 0)).prim.shown == {0};
    Next(s0, Publish(0, 0), s1);
  }

  /** The requests that carry a single append to a single shard. */
  lemma OneRequest(op: Op, shards: seq<Shard>)
    requires |shards| == 1
    ensures SendAll(shards, Batch(0, [op]), 0, 1) == [shards[0].(req := Waiting(Request([op], 0, false, {})))]
    ensures ChunkEnd(0, 1, 1) == 1
  {
    assert Select([op], 0, 1, 0, 0, 1) == Select([op], 0, 1, 0, 0, 0) + [op];
    assert RequestFor(Batch(0, [op]), 1, 0, 0, 1) == Waiting(Request([op], 0, false, {}));
  }

  const FIRST := Batch(0, [Op(0, 0)])

  /** One published append, and nothing fetched yet. */
  predicate OneShown(s: State) {
    && s.unit == 1 && |s.shards| == 1 && s.shards[0].req.Nothing?
    && s.prim.log == [Op(0, 0)] && s.prim.shown == {0} && s.prim.ordered == 0
    && s.cons == Cons([Empty, Empty], 0, 0, 0, NoStore, [0], [])
  }

  lemma OneFetched(s: State, t: State)
    requires Reachable(s) && OneShown(s)
    requires t == s.(cons := Cons([Full(FIRST), Empty], 1, 1, 0, NoStore, [0, 1], []))
    ensures Reachable(t)
  {
    assert s.prim.log[0..1] == [Op(0, 0)];
    var k := Apply(s, Fetch(1)).cons;
    assert k.buffers == [Full(FIRST), Empty] && k.cuts == [0, 1];
    Next(s, Fetch(1), t);
  }

  lemma OneBegun(s: State, t: State)
    requires Reachable(s) && s.cons == Cons([Full(FIRST), Empty], 1, 1, 0, NoStore, [0, 1], [])
    requires t == s.(cons := Cons([Full(FIRST), Empty], 1, 1, 0, Sending(0, 0), [0, 1], [FIRST]))
    ensures Reachable(t)
  {
    assert Apply(s, StoreBegin).cons.stored == [FIRST];
    Next(s, StoreBegin, t);
  }

  lemma OneAsked(s: State, t: State)
    requires Reachable(s) && s.unit == 1 && |s.shards| == 1 && s.shards[0].req.Nothing?
    requires s.cons == Cons([Full(FIRST), Empty], 1, 1, 0, Sending(0, 0), [0, 1], [FIRST])
    requires t == s.(cons := s.cons.(phase := Sending(0, 1)),
                     shards := [s.shards[0].(req := Waiting(Request([Op(0, 0)], 0, false, {})))])
    ensures Reachable(t)
  {
    OneRequest(Op(0, 0), s.shards);
    assert Apply(s, SendChunk).shards == t.shards;
    Next(s, SendChunk, t);
  }

  /** From one published append to the request for it. */
  lemma OneSent(s: State, t: State)
    requires Reachable(s) && OneShown(s)
    requires t == s.(cons := Cons([Full(FIRST), Empty], 1, 1, 0, Sending(0, 1), [0, 1], [FIRST]),
                     shards := [s.shards[0].(req := Waiting(Request([Op(0, 0)], 0, false, {})))])
    ensures Reachable(t)
  {
    var s1 := s.(cons := Cons([Full(FIRST), Empty], 1, 1, 0, NoStore, [0, 1], []));
    OneFetched(s, s1);
    var s2 := s.(cons := Cons([Full(FIRST), Empty], 1, 1, 0, Sending(0, 0), [0, 1], [FIRST]));
    OneBegun(s1, s2);
    OneAsked(s2, t);
  }

  /**
   * Both watermarks of a shard start at 0, so index 0 passes the gate as soon as the shard's primary has it: the read
   * returns an entry that the shard's backup does not have.
   */
  lemma IndexZeroReadEarly() returns (s: State)
    ensures Reachable(s) && PassesGate(s, 0) && !OnShard(s, 0)
  {
    var op := Op(0, 0);
    OnePublished();
    var s1 := One(Client(1, true, [Shown(0)]), Primary([op], {0}, 0));
    var s2 := s1.(cons := Cons([Full(Batch(0, [op])), Empty], 1, 1, 0, Sending(0, 1), [0, 1], [Batch(0, [op])]),
                  shards := [Shard([], [[]], 0, 0, Waiting(Request([op], 0, false, {})))]);
    OneSent(s1, s2);
    s := Apply(s2, AddPrimary(0));
    assert s.shards[0].primary == [op] && !Has(s.shards[0].backups[0], 1, 0, op);
    Next(s2, AddPrimary(0), s);
  }

  // ---------------------------------------------------------------- a first append dropped by a backup

  const FRESH := Backup([], {}, map[], 0, 0, [], Quiet)

  /** Two clients, one backup replica, one shard without backups; nothing is fetched yet. */
  function Two(first: Client, second: Client, prim: Primary, back: Backup): State {
    State(1, [first, second], prim, [back], Cons([Empty, Empty], 0, 0, 0, NoStore, [0], []),
          [Shard([], [], 0, 0, Nothing)])
  }

  lemma BothInvoke()
    ensures Reachable(Two(Client(1, true, [Sent, Sent]), Client(1, true, [Sent, Sent]), Primary([], {}, 0), FRESH))
  {
    var idle := Client(0, false, []);
    var s0 := Two(idle, idle, Primary([], {}, 0), FRESH);
    Start(s0);
    assert AllSent(2) == [Sent, Sent];
    var s1 := Two(Client(1, true, [Sent, Sent]), idle, Primary([], {}, 0), FRESH);
    assert Apply(s0, Invoke(0)).clients == s1.clients;
    Next(s0, Invoke(0), s1);
    var s2 := Two(Client(1, true, [Sent, Sent]), Client(1, true, [Sent, Sent]), Primary([], {}, 0), FRESH);
    assert Apply(s1, Invoke(1)).clients == s2.clients;
    Next(s1, Invoke(1), s2);
  }

  /** The first client gets to the primary. */
  lemma FirstAtPrimary()
    ensures Reachable(Two(Client(1, true, [Shown(0), Sent]), Client(1, true, [Sent, Sent]),
                          Primary([Op(0, 0)], {0}, 0), FRESH))
  {
    BothInvoke();
    var other := Client(1, true, [Sent, Sent]);
    var s0 := Two(other, other, Primary([], {}, 0), FRESH);
    assert [Sent, Sent][0 := Held(0)] == [Held(0), Sent] && [Held(0), Sent][0 := Shown(0)] == [Shown(0), Sent];
    var s1 := Two(Client(1, true, [Held(0), Sent]), other, Primary([Op(0, 0)], {}, 0), FRESH);
    assert Apply(s0, Reserve(0, 0)).clients == s1.clients && Apply(s0, Reserve(0, 0)).prim.log == s1.prim.log;
    Next(s0, Reserve(0, 0), s1);
    var s2 := Two(Client(1, true, [Shown(0), Sent]), other, Primary([Op(0, 0)], {0}, 0), FRESH);
    assert Apply(s1, Publish(0, 0)).clients == s2.clients && Apply(s1, Publish(0, 0)).prim.shown == {0};
    Next(s1, Publish(0, 0), s2);
  }

  /** The second client gets to the backup. */
  lemma SecondAtBackup()
    ensures Reachable(Two(Client(1, true, [Shown(0), Sent]), Client(1, true, [Sent, Shown(0)]),
                          Primary([Op(0, 0)], {0}, 0), FRESH.(log := [Op(1, 0)], shown := {0})))
  {
    FirstAtPrimary();
    var first, prim := Client(1, true, [Shown(0), Sent]), Primary([Op(0, 0)], {0}, 0);
    var s0 := Two(first, Client(1, true, [Sent, Sent]), prim, FRESH);
    assert [Sent, Sent][1 := Held(0)] == [Sent, Held(0)] && [Sent, Held(0)][1 := Shown(0)] == [Sent, Shown(0)];
    var s1 := Two(first, Client(1, true, [Sent, Held(0)]), prim, FRESH.(log := [Op(1, 0)]));
    var t := Apply(s0, Reserve(1, 1));
    assert t.clients == s1.clients && t.backs[0].log == [Op(1, 0)] && t.backs == s1.backs;
    Next(s0, Reserve(1, 1), s1);
    var s2 := Two(first, Client(1, true, [Sent, Shown(0)]), prim, FRESH.(log := [Op(1, 0)], shown := {0}));
    t := Apply(s1, Publish(1, 1));
    assert t.clients == s2.clients && t.backs[0].shown == {0} && t.backs == s2.backs;
    Next(s1, Publish(1, 1), s2);
  }

  /** The only request is stored and acknowledged, and the batch is complete. */
  lemma OneStored(s: State, t: State)
    requires Reachable(s) && s.unit == 1 && |s.shards| == 1
    requires s.shards == [Shard([], [], 0, 0, Waiting(Request([Op(0, 0)], 0, false, {})))]
    requires s.cons == Cons([Full(Batch(0, [Op(0, 0)])), Empty], 1, 1, 0, Sending(0, 1), [0, 1], [Batch(0, [Op(0, 0)])])
    requires t == s.(cons := s.cons.(phase := Collecting(false, {}, {})),
                     shards := [Shard([Op(0, 0)], [], 0, 0, Nothing)])
    ensures Reachable(t)
  {
    var s1 := s.(shards := [Shard([Op(0, 0)], [], 0, 0, Waiting(Request([Op(0, 0)], 0, true, {})))]);
    assert Apply(s, AddPrimary(0)).shards[0].primary == [Op(0, 0)];
    assert Apply(s, AddPrimary(0)).shards == s1.shards;
    Next(s, AddPrimary(0), s1);
    var s2 := s.(shards := [Shard([Op(0, 0)], [], 0, 0, Nothing)]);
    assert Apply(s1, Ack(0)).shards == s2.shards;
    Next(s1, Ack(0), s2);
    Next(s2, SendDone, t);
  }

  /** The backup is told about the first client only, and drops the second client's append. */
  lemma Dropped(s: State, t: State)
    requires Reachable(s) && s.cons.phase == Collecting(false, {}, {}) && s.cons.storeRound == 0
    requires s.cons.buffers == [Full(Batch(0, [Op(0, 0)])), Empty]
    requires s.backs == [FRESH.(log := [Op(1, 0)], shown := {0})]
    requires t == s.(cons := s.cons.(phase := Collecting(false, {0}, {})),
                     backs := [FRESH.(log := [Op(1, 0)], shown := {0}, walked := 1, gc := Walking(map[0 := 0], 0))])
    ensures Reachable(t)
  {
    var batch, m := Batch(0, [Op(0, 0)]), map[0 := 0];
    assert Maxima(batch.ops, 1) == m by { assert Maxima(batch.ops, 0) == map[]; }
    var s1 := t.(backs := [FRESH.(log := [Op(1, 0)], shown := {0}, gc := Walking(m, 0))]);
    assert Pruned(s.backs[0], batch, 0) == s1.backs[0];
    assert s.cons.phase.asked + {0} == {0};
    assert Apply(s, GcBegin(0, 0)).backs == s1.backs;
    Next(s, GcBegin(0, 0), s1);
    assert FRESH.known - {Op(1, 0)} == FRESH.known;
    assert Walked(s1.backs[0]) == t.backs[0];
    assert Apply(s1, GcWalk(0)).backs == t.backs;
    Next(s1, GcWalk(0), t);
  }

  /** The second client's append goes on: the backup lists and acknowledges it. */
  lemma BackupReplies(s: State) returns (t: State)
    requires Reachable(s) && |s.cons.buffers| == 2 && |s.backs| == 1 && |s.clients| == 2
    requires s.clients[1] == Client(1, true, [Sent, Shown(0)])
    ensures Reachable(t) && t == s.(clients := s.clients[1 := Client(1, true, [Sent, Acked])], backs := t.backs)
    ensures |t.backs| == 1 && t.backs[0] == s.backs[0].(known := t.backs[0].known)
  {
    assert [Sent, Shown(0)][1 := Listed] == [Sent, Listed] && [Sent, Listed][1 := Acked] == [Sent, Acked];
    var s1 := Apply(s, Register(1, 1));
    assert s1.clients == s.clients[1 := Client(1, true, [Sent, Listed])];
    Next(s, Register(1, 1), s1);
    t := Apply(s1, Reply(1, 1));
    assert t.clients == s.clients[1 := Client(1, true, [Sent, Acked])];
    Next(s1, Reply(1, 1), t);
  }

  /** The primary takes it, and it returns. */
  lemma PrimaryReplies(s: State) returns (t: State)
    requires Reachable(s) && |s.cons.buffers| == 2 && |s.backs| == 1 && |s.clients| == 2
    requires s.clients[1] == Client(1, true, [Sent, Acked])
    ensures Reachable(t) && t == s.(clients := s.clients[1 := Client(1, false, [Acked, Acked])], prim := t.prim)
    ensures t.prim == s.prim.(log := s.prim.log + [Op(1, 0)], shown := t.prim.shown)
  {
    var i := |s.prim.log|;
    assert [Sent, Acked][0 := Held(i)] == [Held(i), Acked];
    var s1 := Apply(s, Reserve(1, 0));
    assert s1.clients == s.clients[1 := Client(1, true, [Held(i), Acked])];
    Next(s, Reserve(1, 0), s1);
    t := PrimaryShows(s1, i);
    assert t.clients == s.clients[1 := Client(1, false, [Acked, Acked])];
  }

  lemma PrimaryShows(s: State, i: nat) returns (t: State)
    requires Reachable(s) && |s.cons.buffers| == 2 && |s.backs| == 1 && |s.clients| == 2
    requires s.clients[1] == Client(1, true, [Held(i), Acked])
    ensures Reachable(t) && t == s.(clients := s.clients[1 := Client(1, false, [Acked, Acked])], prim := t.prim)
    ensures t.prim == s.prim.(shown := t.prim.shown)
  {
    assert [Held(i), Acked][0 := Shown(i)] == [Shown(i), Acked] && [Shown(i), Acked][0 := Acked] == [Acked, Acked];
    var s1 := Apply(s, Publish(1, 0));
    assert s1.clients == s.clients[1 := Client(1, true, [Shown(i), Acked])];
    Next(s, Publish(1, 0), s1);
    var s2 := Apply(s1, Reply(1, 0));
    assert s2.clients == s.clients[1 := Client(1, true, [Acked, Acked])];
    Next(s1, Reply(1, 0), s2);
    t := Apply(s2, Return(1));
    assert t.clients == s.clients[1 := Client(1, false, [Acked, Acked])];
    Next(s2, Return(1), t);
  }

  /** In neither place on the backup, and not on a shard. */
  predicate Lost(s: State, b: nat, op: Op)
    requires b < |s.backs|
  {
    var x := s.backs[b];
    op in x.log && op !in x.pending && !OnSomeShard(s, op) && forall p :: x.walked <= p < |x.log| ==> x.log[p] != op
  }

  /**
   * A client that is absent from a batch has maximum 0 there, so its append with client sequence 0 counts as ordered:
   * a backup drops it before it is stored anywhere, and the append returns to its client all the same.
   */
  lemma FirstAppendDropped() returns (s: State)
    ensures Reachable(s) && |s.backs| == 1 && Returned(s, 1, 0) && Lost(s, 0, Op(1, 0))
  {
    SecondAtBackup();
    var op, batch := Op(0, 0), Batch(0, [Op(0, 0)]);
    var back := FRESH.(log := [Op(1, 0)], shown := {0});
    var s0 := Two(Client(1, true, [Shown(0), Sent]), Client(1, true, [Sent, Shown(0)]), Primary([op], {0}, 0), back);
    var s1 := s0.(cons := Cons([Full(batch), Empty], 1, 1, 0, Sending(0, 1), [0, 1], [batch]),
                  shards := [Shard([], [], 0, 0, Waiting(Request([op], 0, false, {})))]);
    OneSent(s0, s1);
    var s2 := s1.(cons := s1.cons.(phase := Collecting(false, {}, {})), shards := [Shard([op], [], 0, 0, Nothing)]);
    OneStored(s1, s2);
    var s3 := s2.(cons := s2.cons.(phase := Collecting(false, {0}, {})),
                  backs := [back.(walked := 1, gc := Walking(map[0 := 0], 0))]);
    Dropped(s2, s3);
    var s4 := BackupReplies(s3);
    s := PrimaryReplies(s4);
    assert s.prim.log == [op, Op(1, 0)] && s.shards == [Shard([op], [], 0, 0, Nothing)];
  }

  // ---------------------------------------------------------------- exactly when the guarantees hold

  /** A read of `idx` that returns is always backed by complete copies of everything up to it. */
  ghost predicate ReadIsBacked(idx: nat) {
    forall s, i :: Reachable(s) && PassesGate(s, idx) && 0 <= i <= idx ==> OnShard(s, i)
  }

  lemma ReadIsBackedExactly(idx: nat)
    ensures ReadIsBacked(idx) <==> idx > 0
  {
    if idx == 0 {
      var s := IndexZeroReadEarly();
      assert Reachable(s) && !OnShard(s, 0);
    } else {
      forall s, i | Reachable(s) && PassesGate(s, idx) && 0 <= i <= idx
        ensures OnShard(s, i)
      {
        var states, steps :| IsRun(states, steps) && states[|steps|] == s;
        ReadsAreStable(states, steps, |steps|, idx);
      }
    }
  }

  /** A backup never drops an append with client sequence `q` that is not stored. */
  ghost predicate NeverLost(q: nat) {
    forall s, b, c :: Reachable(s) && 0 <= b < |s.backs| ==> !Lost(s, b, Op(c, q))
  }

  lemma NeverLostExactly(q: nat)
    ensures NeverLost(q) <==> q > 0
  {
    if q == 0 {
      var s := FirstAppendDropped();
      assert Reachable(s) && Lost(s, 0, Op(1, 0));
    } else {
      forall s, b, c | Reachable(s) && 0 <= b < |s.backs|
        ensures !Lost(s, b, Op(c, q))
      {
        var states, steps :| IsRun(states, steps) && states[|steps|] == s;
        var x := s.backs[b];
        if Op(c, q) in x.log {
          var i :| 0 <= i < |x.log| && x.log[i] == Op(c, q);
          if i < x.walked { BackupLosesNothing(states, steps, |steps|, b, i); }
        }
      }
    }
  }
}

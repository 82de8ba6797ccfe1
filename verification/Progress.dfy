/**
 * Nothing is ever stuck: from every state of every run the parties can go on to one in which every append has returned,
 * everything is ordered, and every index can be read.
 */
module Progress {
  import opened Arith
  import opened DurLog
  import opened Protocol
  import opened ProtocolProofs
  import opened Guarantees
  import opened Collections

  // ---------------------------------------------------------------- what is in the way

  function ShownAt(s: State, r: nat): set<nat>
    requires r <= |s.backs|
  {
    if r == 0 then s.prim.shown else s.backs[r - 1].shown
  }

  /** Some client waits for replica `r` to publish entry `i`. */
  predicate HeldBy(s: State, r: nat, i: nat) {
    exists c :: 0 <= c < |s.clients| && s.clients[c].busy && r < |s.clients[c].at| && s.clients[c].at[r] == Held(i)
  }

  /** An entry of replica `r` is shown, or a client waits for that. */
  predicate ShowsOk(s: State, r: nat)
    requires r <= |s.backs|
  {
    forall i :: 0 <= i < |LogAt(s, r)| ==> i in ShownAt(s, r) || HeldBy(s, r, i)
  }

  /**
   * A backup walks exactly while it has been asked and has not finished, its walk ends within its log, and it passes only
   * entries whose flag is set.
   */
  predicate WalkOk(s: State, b: nat)
    requires b < |s.backs|
  {
    && (s.backs[b].gc.Walking? <==> s.cons.phase.Collecting? && b in s.cons.phase.asked && b !in s.cons.phase.done)
    && (s.cons.phase.Collecting? && b in s.cons.phase.done ==> b in s.cons.phase.asked)
    && (s.backs[b].gc.Walking? ==> s.backs[b].gc.top == 0 || s.backs[b].gc.top < |s.backs[b].log|)
    && (forall i :: 0 <= i < s.backs[b].walked ==> i in s.backs[b].shown)
  }

  /** The primary keeps no list of request ids. */
  predicate NoList(cl: Client) {
    |cl.at| > 0 ==> !cl.at[0].Listed?
  }

  predicate WaysOk(s: State) {
    && (forall c {:trigger NoList(s.clients[c])} :: 0 <= c < |s.clients| ==> NoList(s.clients[c]) || !s.clients[c].busy)
    && (forall r {:trigger ShowsOk(s, r)} :: 0 <= r <= |s.backs| ==> ShowsOk(s, r))
    && (forall b {:trigger WalkOk(s, b)} :: 0 <= b < |s.backs| ==> WalkOk(s, b))
  }

  lemma StillHeld(s: State, t: State, r: nat, i: nat)
    requires HeldBy(s, r, i) && |t.clients| == |s.clients|
    requires forall c :: 0 <= c < |s.clients| && s.clients[c].busy && r < |s.clients[c].at| && s.clients[c].at[r] == Held(i) ==>
                           t.clients[c].busy && r < |t.clients[c].at| && t.clients[c].at[r] == Held(i)
    ensures HeldBy(t, r, i)
  {
    var c :| 0 <= c < |s.clients| && s.clients[c].busy && r < |s.clients[c].at| && s.clients[c].at[r] == Held(i);
    assert t.clients[c].at[r] == Held(i);
  }

  /** A step in which no entry is reserved at `r`, and none published there by a client. */
  lemma SameShows(s: State, t: State, r: nat)
    requires r <= |s.backs| == |t.backs| && ShowsOk(s, r) && LogAt(t, r) == LogAt(s, r) && ShownAt(s, r) <= ShownAt(t, r)
    requires |t.clients| == |s.clients|
    requires forall c, i: nat :: 0 <= c < |s.clients| && s.clients[c].busy && r < |s.clients[c].at|
                                 && s.clients[c].at[r] == Held(i) ==>
               i in ShownAt(t, r) || (t.clients[c].busy && r < |t.clients[c].at| && t.clients[c].at[r] == Held(i))
    ensures ShowsOk(t, r)
  {
    forall i | 0 <= i < |LogAt(t, r)|
      ensures i in ShownAt(t, r) || HeldBy(t, r, i)
    {
      if i !in ShownAt(t, r) { StillHeld(s, t, r, i); }
    }
  }

  lemma ReserveShows(s: State, c: nat, r: nat, t: State, q: nat)
    requires |s.cons.buffers| == 2 && Enabled(s, Reserve(c, r)) && t == Apply(s, Reserve(c, r))
    requires q <= |s.backs| && ShowsOk(s, q)
    ensures ShowsOk(t, q)
  {
    if q == r {
      var n := |LogAt(s, r)|;
      assert t.clients[c].busy && t.clients[c].at[r] == Held(n);
      forall i | 0 <= i < |LogAt(t, q)|
        ensures i in ShownAt(t, q) || HeldBy(t, q, i)
      {
        if i < n && i !in ShownAt(t, q) { StillHeld(s, t, q, i); }
      }
    } else {
      SameShows(s, t, q);
    }
  }

  lemma StepShows(s: State, step: Step, t: State, r: nat)
    requires |s.cons.buffers| == 2 && Enabled(s, step) && t == Apply(s, step) && r <= |s.backs| && ShowsOk(s, r)
    ensures r <= |t.backs| && ShowsOk(t, r)
  {
    if step.Reserve? {
      ReserveShows(s, step.c, step.r, t, r);
    } else {
      ShowsEffect(s, step, t, r);
      HeldEffect(s, step, t, r);
      SameShows(s, t, r);
    }
  }

  lemma ShowsEffect(s: State, step: Step, t: State, r: nat)
    requires |s.cons.buffers| == 2 && Enabled(s, step) && t == Apply(s, step) && r <= |s.backs| && !step.Reserve?
    ensures |t.backs| == |s.backs| && LogAt(t, r) == LogAt(s, r) && ShownAt(s, r) <= ShownAt(t, r)
  {
  }

  lemma HeldEffect(s: State, step: Step, t: State, r: nat)
    requires |s.cons.buffers| == 2 && Enabled(s, step) && t == Apply(s, step) && r <= |s.backs| && !step.Reserve?
    ensures |t.clients| == |s.clients| && |t.backs| == |s.backs|
    ensures forall c, i: nat :: 0 <= c < |s.clients| && s.clients[c].busy && r < |s.clients[c].at|
                                && s.clients[c].at[r] == Held(i) ==>
              i in ShownAt(t, r) || (t.clients[c].busy && r < |t.clients[c].at| && t.clients[c].at[r] == Held(i))
  {
  }

  /** A step that is none of a collection's. */
  lemma SameWalks(s: State, t: State, b: nat)
    requires b < |s.backs| == |t.backs| && WalkOk(s, b)
    requires t.cons.phase == s.cons.phase || (!s.cons.phase.Collecting? && !t.cons.phase.Collecting?)
             || (s.cons.phase.Collecting? && t.cons.phase == s.cons.phase.(primary := true))
    requires var x, y := s.backs[b], t.backs[b];
             y.gc == x.gc && y.walked == x.walked && |x.log| <= |y.log| && x.shown <= y.shown
    ensures WalkOk(t, b)
  {
  }

  lemma QuietWalks(s: State, step: Step, t: State, b: nat)
    requires |s.cons.buffers| == 2 && Enabled(s, step) && t == Apply(s, step) && b < |s.backs| && WalkOk(s, b)
    requires !step.GcBegin? && !step.GcWalk? && !step.GcEnd? && !step.SendDone? && !step.Clear?
    ensures b < |t.backs| && WalkOk(t, b)
  {
    SameWalks(s, t, b);
  }

  lemma LoudWalks(s: State, step: Step, t: State, b: nat)
    requires |s.cons.buffers| == 2 && Enabled(s, step) && t == Apply(s, step) && b < |s.backs| && WalkOk(s, b)
    requires step.GcBegin? || step.GcWalk? || step.GcEnd? || step.SendDone? || step.Clear?
    requires KnownOk(s.backs[b])
    ensures b < |t.backs| && WalkOk(t, b)
  {
  }

  lemma StepWalks(s: State, step: Step, t: State, b: nat)
    requires |s.cons.buffers| == 2 && Enabled(s, step) && t == Apply(s, step) && b < |s.backs|
    requires KnownOk(s.backs[b]) && WalkOk(s, b)
    ensures b < |t.backs| && WalkOk(t, b)
  {
    if step.GcBegin? || step.GcWalk? || step.GcEnd? || step.SendDone? || step.Clear? {
      LoudWalks(s, step, t, b);
    } else {
      QuietWalks(s, step, t, b);
    }
  }

  lemma StepWays(s: State, step: Step, t: State)
    requires PlacesOk(s) && WaysOk(s) && |s.cons.buffers| == 2 && Enabled(s, step) && t == Apply(s, step)
    ensures WaysOk(t)
  {
    assert |t.backs| == |s.backs| && |t.clients| == |s.clients|;
    forall c | 0 <= c < |t.clients|
      ensures NoList(t.clients[c]) || !t.clients[c].busy
    {
      assert NoList(s.clients[c]) || !s.clients[c].busy;
    }
    forall r | 0 <= r <= |t.backs|
      ensures ShowsOk(t, r)
    {
      StepShows(s, step, t, r);
    }
    forall b | 0 <= b < |t.backs|
      ensures WalkOk(t, b)
    {
      assert KnownOk(s.backs[b]) && WalkOk(s, b);
      StepWalks(s, step, t, b);
    }
  }

  lemma {:induction false} RunWays(states: seq<State>, steps: seq<Step>, k: nat)
    requires IsRun(states, steps) && k < |states|
    ensures WaysOk(states[k])
  {
    if k > 0 {
      RunWays(states, steps, k - 1);
      RunPlaces(states, steps, k - 1);
      assert StepTo(states[k - 1], steps[k - 1], states[k]);
      StepWays(states[k - 1], steps[k - 1], states[k]);
    }
  }

  // ---------------------------------------------------------------- going on from a state

  predicate RunThrough(states: seq<State>, steps: seq<Step>, k: nat, s: State, t: State) {
    IsRun(states, steps) && k < |states| && states[k] == s && states[|steps|] == t
  }

  /** A run goes through `s` and on to `t`. */
  ghost predicate GoesOn(s: State, t: State) {
    exists states, steps, k :: RunThrough(states, steps, k, s, t)
  }

  lemma RunLonger(states: seq<State>, steps: seq<Step>, k: nat, s: State, t: State, step: Step, u: State)
    requires RunThrough(states, steps, k, s, t) && StepTo(t, step, u)
    ensures RunThrough(states + [u], steps + [step], k, s, u)
  {
    var states', steps' := states + [u], steps + [step];
    forall i | 0 <= i < |steps'|
      ensures StepTo(states'[i], steps'[i], states'[i + 1])
    {
      if i < |steps| {
        assert StepTo(states[i], steps[i], states[i + 1]);
      }
    }
  }

  lemma Further(s: State, t: State, step: Step, u: State)
    requires GoesOn(s, t) && StepTo(t, step, u)
    ensures GoesOn(s, u)
  {
    var states, steps, k :| RunThrough(states, steps, k, s, t);
    RunLonger(states, steps, k, s, t, step, u);
  }

  /** What is known of any state that a run comes to. */
  lemma OnTheWay(s: State, t: State)
    requires GoesOn(s, t)
    ensures Inv(t) && PlacesOk(t) && WaysOk(t) && GlobalsOk(t)
  {
    var states, steps, k :| RunThrough(states, steps, k, s, t);
    RunGlobals(states, steps, |steps|);
    RunPlaces(states, steps, |steps|);
    RunWays(states, steps, |steps|);
  }

  lemma TwoBuffers(s: State, t: State)
    requires GoesOn(s, t)
    ensures |t.cons.buffers| == 2
  {
    OnTheWay(s, t);
  }

  // ---------------------------------------------------------------- appends return

  /** Only the clients' own appends went on: consensus side and shards are as they were. */
  predicate Aside(s: State, t: State) {
    t.cons == s.cons && t.shards == s.shards && t.unit == s.unit && |t.backs| == |s.backs| && |t.clients| == |s.clients|
  }

  /** Replica `r` has done with the append of client `c`; nothing else about the clients has changed. */
  predicate AckedBy(s: State, t: State, c: nat, r: nat) {
    && Aside(s, t) && c < |s.clients| && r < |s.clients[c].at|
    && t.clients == s.clients[c := s.clients[c].(at := s.clients[c].at[r := Acked])]
  }

  lemma SameAfterStage(s: State, t: State, u: State, c: nat, r: nat, stage: Stage)
    requires Aside(s, t) && c < |s.clients| && r < |s.clients[c].at|
    requires t.clients == s.clients[c := s.clients[c].(at := s.clients[c].at[r := stage])] && AckedBy(t, u, c, r)
    ensures AckedBy(s, u, c, r)
  {
    assert t.clients[c].at[r := Acked] == s.clients[c].at[r := Acked];
    assert u.clients == s.clients[c := s.clients[c].(at := s.clients[c].at[r := Acked])];
  }

  lemma Replies(o: State, s: State, c: nat, r: nat) returns (t: State)
    requires GoesOn(o, s) && Waits(s, c, r)
    requires if r == 0 then s.clients[c].at[r].Shown? else s.clients[c].at[r].Listed?
    ensures GoesOn(o, t) && AckedBy(s, t, c, r)
  {
    TwoBuffers(o, s);
    t := Apply(s, Reply(c, r));
    Further(o, s, Reply(c, r), t);
  }

  lemma Shows(o: State, s: State, c: nat, r: nat) returns (t: State)
    requires GoesOn(o, s) && Waits(s, c, r) && s.clients[c].at[r].Shown?
    ensures GoesOn(o, t) && AckedBy(s, t, c, r)
  {
    if r == 0 {
      t := Replies(o, s, c, r);
    } else {
      TwoBuffers(o, s);
      var s1 := Apply(s, Register(c, r));
      Further(o, s, Register(c, r), s1);
      t := Replies(o, s1, c, r);
      SameAfterStage(s, s1, t, c, r, Listed);
    }
  }

  lemma Publishes(o: State, s: State, c: nat, r: nat) returns (t: State)
    requires GoesOn(o, s) && Waits(s, c, r) && s.clients[c].at[r].Held?
    ensures GoesOn(o, t) && AckedBy(s, t, c, r)
  {
    TwoBuffers(o, s);
    var s1 := Apply(s, Publish(c, r));
    Further(o, s, Publish(c, r), s1);
    t := Shows(o, s1, c, r);
    SameAfterStage(s, s1, t, c, r, s1.clients[c].at[r]);
  }

  lemma TakesUp(o: State, s: State, c: nat, r: nat) returns (t: State)
    requires GoesOn(o, s) && Waits(s, c, r) && s.clients[c].at[r].Sent?
    ensures GoesOn(o, t) && AckedBy(s, t, c, r)
  {
    TwoBuffers(o, s);
    var s1 := Apply(s, Reserve(c, r));
    Further(o, s, Reserve(c, r), s1);
    t := Publishes(o, s1, c, r);
    SameAfterStage(s, s1, t, c, r, s1.clients[c].at[r]);
  }

  /** A replica can always go on with an append until it has answered. */
  lemma Answers(o: State, s: State, c: nat, r: nat) returns (t: State)
    requires GoesOn(o, s) && Waits(s, c, r)
    ensures GoesOn(o, t) && AckedBy(s, t, c, r)
  {
    match s.clients[c].at[r]
    case Sent => t := TakesUp(o, s, c, r);
    case Held(_) => t := Publishes(o, s, c, r);
    case Shown(_) => t := Shows(o, s, c, r);
    case Listed =>
      OnTheWay(o, s);
      assert NoList(s.clients[c]);
      t := Replies(o, s, c, r);
    case Acked =>
      t := s;
      assert s.clients[c].at[r := Acked] == s.clients[c].at;
  }

  /** All replicas below `n` can answer. */
  lemma {:induction false} AllAnswer(o: State, s: State, c: nat, n: nat) returns (t: State)
    requires GoesOn(o, s) && c < |s.clients| && s.clients[c].busy && |s.clients[c].at| == 1 + |s.backs| && n <= 1 + |s.backs|
    ensures GoesOn(o, t) && Answered(s, t, c, n)
  {
    if n == 0 {
      t := s;
    } else {
      var s1 := AllAnswer(o, s, c, n - 1);
      t := Answers(o, s1, c, n - 1);
      OneMoreAnswers(s, s1, t, c, n - 1);
    }
  }

  /** The first `n` replicas have answered client `c`, whose append is the same, and other clients are as they were. */
  predicate Answered(s: State, t: State, c: nat, n: nat) {
    && Aside(s, t) && c < |s.clients| && t.clients[c].busy && |t.clients[c].at| == 1 + |s.backs|
    && t.clients[c].next == s.clients[c].next && n <= 1 + |s.backs|
    && (forall r :: 0 <= r < n ==> t.clients[c].at[r].Acked?)
    && forall d :: 0 <= d < |s.clients| && d != c ==> t.clients[d] == s.clients[d]
  }

  lemma OneMoreAnswers(s: State, s1: State, t: State, c: nat, r: nat)
    requires Answered(s, s1, c, r) && AckedBy(s1, t, c, r)
    ensures Answered(s, t, c, r + 1)
  {
  }

  /** Every append can return. */
  lemma Returns(o: State, s: State, c: nat) returns (t: State)
    requires GoesOn(o, s) && c < |s.clients|
    ensures GoesOn(o, t) && Aside(s, t) && !t.clients[c].busy && t.clients[c].next == s.clients[c].next
    ensures forall d :: 0 <= d < |s.clients| && d != c ==> t.clients[d] == s.clients[d]
  {
    if !s.clients[c].busy {
      t := s;
    } else {
      OnTheWay(o, s);
      assert ClientOk(s.prim.log, 1 + |s.backs|, c, s.clients[c]);
      var s1 := AllAnswer(o, s, c, 1 + |s.backs|);
      TwoBuffers(o, s1);
      t := Apply(s1, Return(c));
      Further(o, s1, Return(c), t);
    }
  }

  predicate AllIdle(s: State, n: nat) {
    forall c :: 0 <= c < n && c < |s.clients| ==> !s.clients[c].busy
  }

  lemma {:induction false} AllReturn(o: State, s: State, n: nat) returns (t: State)
    requires GoesOn(o, s) && n <= |s.clients|
    ensures GoesOn(o, t) && Aside(s, t) && AllIdle(t, n)
    ensures forall c :: 0 <= c < |s.clients| ==> t.clients[c].next == s.clients[c].next
  {
    if n == 0 {
      t := s;
    } else {
      var s1 := AllReturn(o, s, n - 1);
      t := Returns(o, s1, n - 1);
    }
  }

  // ---------------------------------------------------------------- requests are answered

  /** At most shard `j` has gone on. */
  predicate OnlyShard(s: State, t: State, j: nat) {
    && j < |s.shards| == |t.shards| && t == s.(shards := t.shards)
    && |t.shards[j].backups| == |s.shards[j].backups|
    && forall i :: 0 <= i < |s.shards| && i != j ==> t.shards[i] == s.shards[i]
  }

  /** A waiting shard whose first `n` backups have stored the request; `primary` says whether its primary has. */
  predicate StoredBy(h: Shard, primary: bool, n: nat) {
    h.req.Waiting? && h.req.r.primary == primary && forall b :: 0 <= b < n ==> b in h.req.r.backups
  }

  lemma BackupStores(o: State, s: State, j: nat, b: nat) returns (t: State)
    requires GoesOn(o, s) && j < |s.shards| && b < |s.shards[j].backups| && s.shards[j].req.Waiting?
    requires StoredBy(s.shards[j], s.shards[j].req.r.primary, b)
    ensures GoesOn(o, t) && OnlyShard(s, t, j) && StoredBy(t.shards[j], s.shards[j].req.r.primary, b + 1)
  {
    t := s;
    if b !in s.shards[j].req.r.backups {
      TwoBuffers(o, s);
      t := Apply(s, AddBackup(j, b));
      Further(o, s, AddBackup(j, b), t);
    }
  }

  lemma {:induction false} BackupsStore(o: State, s: State, j: nat, n: nat) returns (t: State)
    requires GoesOn(o, s) && j < |s.shards| && s.shards[j].req.Waiting? && n <= |s.shards[j].backups|
    ensures GoesOn(o, t) && OnlyShard(s, t, j) && StoredBy(t.shards[j], s.shards[j].req.r.primary, n)
  {
    if n == 0 {
      t := s;
    } else {
      var s1 := BackupsStore(o, s, j, n - 1);
      t := BackupStores(o, s1, j, n - 1);
      OnlyShardStill(s, s1, t, j);
    }
  }

  lemma OnlyShardStill(s: State, t: State, u: State, j: nat)
    requires OnlyShard(s, t, j) && OnlyShard(t, u, j)
    ensures OnlyShard(s, u, j)
  {
  }

  lemma PrimaryStores(o: State, s: State, j: nat) returns (t: State)
    requires GoesOn(o, s) && j < |s.shards| && s.shards[j].req.Waiting?
    ensures GoesOn(o, t) && OnlyShard(s, t, j) && StoredBy(t.shards[j], true, 0)
  {
    t := s;
    if !s.shards[j].req.r.primary {
      TwoBuffers(o, s);
      t := Apply(s, AddPrimary(j));
      Further(o, s, AddPrimary(j), t);
    }
  }

  lemma Acks(o: State, s: State, j: nat) returns (t: State)
    requires GoesOn(o, s) && j < |s.shards| && StoredBy(s.shards[j], true, |s.shards[j].backups|)
    ensures GoesOn(o, t) && OnlyShard(s, t, j) && t.shards[j].req.Nothing?
  {
    TwoBuffers(o, s);
    t := Apply(s, Ack(j));
    Further(o, s, Ack(j), t);
  }

  /** A shard can always store its request everywhere and acknowledge it. */
  lemma Acknowledges(o: State, s: State, j: nat) returns (t: State)
    requires GoesOn(o, s) && j < |s.shards|
    ensures GoesOn(o, t) && OnlyShard(s, t, j) && t.shards[j].req.Nothing?
  {
    t := s;
    if s.shards[j].req.Waiting? {
      var s1 := PrimaryStores(o, s, j);
      var s2 := BackupsStore(o, s1, j, |s1.shards[j].backups|);
      t := Acks(o, s2, j);
      OnlyShardStill(s, s1, s2, j);
      OnlyShardStill(s, s2, t, j);
    }
  }

  lemma {:induction false} AllAcknowledge(o: State, s: State, n: nat) returns (t: State)
    requires GoesOn(o, s) && n <= |s.shards|
    ensures GoesOn(o, t) && |t.shards| == |s.shards| && t == s.(shards := t.shards)
    ensures forall j :: 0 <= j < n ==> t.shards[j].req.Nothing?
  {
    if n == 0 {
      t := s;
    } else {
      var s1 := AllAcknowledge(o, s, n - 1);
      t := Acknowledges(o, s1, n - 1);
    }
  }

  // ---------------------------------------------------------------- a batch is sent

  /** The clients and the replicas have not moved, nor what is fetched. */
  predicate SameOutside(s: State, t: State) {
    && t.clients == s.clients && t.unit == s.unit && t.prim.log == s.prim.log && t.prim.shown == s.prim.shown
    && |t.backs| == |s.backs| && |t.shards| == |s.shards|
    && t.cons.fetchRound == s.cons.fetchRound && t.cons.fetchBegin == s.cons.fetchBegin && t.cons.cuts == s.cons.cuts
  }

  lemma SameOutsideStill(s: State, t: State, u: State)
    requires SameOutside(s, t) && SameOutside(t, u)
    ensures SameOutside(s, u)
  {
  }

  /** The store thread is in its round `r`, sending, and has come to index `hi`. */
  predicate SendsAt(s: State, r: nat, hi: nat) {
    s.cons.phase.Sending? && s.cons.storeRound == r && s.cons.phase.hi == hi
  }

  /** The batch at hand: where it ends. */
  lemma BatchAtHand(o: State, s: State)
    requires GoesOn(o, s) && !s.cons.phase.NoStore? && !s.cons.phase.Updating?
    ensures Cuts(s.cons) && Storing(s).Full? && s.cons.storeRound < s.cons.fetchRound
    ensures BatchEnd(Storing(s).batch) == s.cons.cuts[s.cons.storeRound + 1] > Storing(s).batch.from
    ensures s.cons.phase.Sending? ==> Storing(s).batch.from <= s.cons.phase.hi <= BatchEnd(Storing(s).batch)
    ensures s.unit > 0 && |s.shards| > 0
  {
    OnTheWay(o, s);
  }

  lemma Settles(o: State, s: State) returns (t: State)
    requires GoesOn(o, s)
    ensures GoesOn(o, t) && SameOutside(s, t) && t.cons == s.cons && t.prim == s.prim && NoRequests(t.shards)
  {
    t := AllAcknowledge(o, s, |s.shards|);
  }

  lemma SendsChunk(o: State, s: State, end: nat) returns (t: State)
    requires GoesOn(o, s) && s.cons.phase.Sending? && NoRequests(s.shards) && |s.cons.buffers| == 2 && Storing(s).Full?
    requires s.unit > 0 && |s.shards| > 0 && BatchEnd(Storing(s).batch) == end
    requires Storing(s).batch.from <= s.cons.phase.hi < end
    ensures GoesOn(o, t) && SameOutside(s, t) && t.cons.phase.Sending? && s.cons.phase.hi < t.cons.phase.hi <= end
    ensures t.cons.storeRound == s.cons.storeRound
  {
    MulLess(0, s.unit, |s.shards|);
    t := Apply(s, SendChunk);
    Further(o, s, SendChunk, t);
  }

  /** The whole batch can be sent. */
  lemma {:induction false} SendsAll(o: State, s: State, end: nat) returns (t: State)
    requires GoesOn(o, s) && s.cons.phase.Sending? && Cuts(s.cons) && s.cons.storeRound < s.cons.fetchRound
    requires s.cons.cuts[s.cons.storeRound + 1] == end && s.cons.phase.hi <= end
    ensures GoesOn(o, t) && SameOutside(s, t) && SendsAt(t, s.cons.storeRound, end) && NoRequests(t.shards)
    decreases end - s.cons.phase.hi
  {
    var s1 := Settles(o, s);
    if s.cons.phase.hi == end {
      t := s1;
    } else {
      BatchAtHand(o, s1);
      var s2 := SendsChunk(o, s1, end);
      BatchAtHand(o, s2);
      t := SendsAll(o, s2, end);
      SameOutsideStill(s, s1, s2);
      SameOutsideStill(s, s2, t);
    }
  }

  /** The store thread is in its round `r`, collecting. */
  predicate CollectsIn(s: State, r: nat) {
    s.cons.phase.Collecting? && s.cons.storeRound == r
  }

  lemma SentAll(o: State, s: State) returns (t: State)
    requires GoesOn(o, s) && s.cons.phase.Sending?
    ensures GoesOn(o, t) && SameOutside(s, t) && CollectsIn(t, s.cons.storeRound)
  {
    BatchAtHand(o, s);
    var s1 := SendsAll(o, s, s.cons.cuts[s.cons.storeRound + 1]);
    BatchAtHand(o, s1);
    t := Apply(s1, SendDone);
    Further(o, s1, SendDone, t);
  }

  // ---------------------------------------------------------------- a batch is collected

  lemma CollectsPrimary(o: State, s: State) returns (t: State)
    requires GoesOn(o, s) && s.cons.phase.Collecting?
    ensures GoesOn(o, t) && SameOutside(s, t) && CollectsIn(t, s.cons.storeRound) && t.cons.phase.primary
    ensures t.cons.phase.done == s.cons.phase.done
  {
    BatchAtHand(o, s);
    t := s;
    if !s.cons.phase.primary {
      t := Apply(s, GcPrimary);
      Further(o, s, GcPrimary, t);
    }
  }

  lemma {:induction false} TopOfKeys(known: map<Op, nat>, m: map<nat, nat>, keys: set<nat>) returns (top: nat)
    requires keys <= m.Keys
    ensures forall c :: c in keys ==> At(known, Op(c, m[c])) <= top
    ensures top == 0 || exists c :: c in keys && At(known, Op(c, m[c])) == top
    decreases keys
  {
    if keys == {} {
      top := 0;
    } else {
      var c :| c in keys;
      var rest := TopOfKeys(known, m, keys - {c});
      top := Larger(rest, At(known, Op(c, m[c])));
      assert keys == keys - {c} + {c};
    }
  }

  /** There is always a place for a walk to stop. */
  lemma TopExists(known: map<Op, nat>, m: map<nat, nat>) returns (top: nat)
    ensures IsTop(known, m, top)
  {
    top := TopOfKeys(known, m, m.Keys);
  }

  /** When every append has returned, every entry is shown. */
  lemma EverythingShown(s: State, r: nat)
    requires WaysOk(s) && AllIdle(s, |s.clients|) && r <= |s.backs|
    ensures forall i :: 0 <= i < |LogAt(s, r)| ==> i in ShownAt(s, r)
  {
    assert ShowsOk(s, r);
  }

  /** And a backup has the appends of the batch at hand. */
  lemma BackupIsReady(o: State, s: State, b: nat)
    requires GoesOn(o, s) && AllIdle(s, |s.clients|) && s.cons.phase.Collecting? && b < |s.backs|
    ensures |s.backs[b].log| > 0 && forall i :: 0 <= i < |s.backs[b].log| ==> i in s.backs[b].shown
  {
    OnTheWay(o, s);
    EverythingShown(s, b + 1);
    var op := s.prim.log[Storing(s).batch.from];
    assert ClientOk(s.prim.log, 1 + |s.backs|, op.client, s.clients[op.client]);
    assert Arrived(s.backs[b].log, b, op.client, s.clients[op.client]);
    assert Op(op.client, op.sq) in s.backs[b].log;
    forall i | 0 <= i < |s.backs[b].log|
      ensures i in s.backs[b].shown
    {
      assert |LogAt(s, b + 1)| == |s.backs[b].log| && i in ShownAt(s, b + 1);
    }
  }

  /** Only backup `b` and the store thread's account of it have gone on. */
  predicate OnlyBackup(s: State, t: State, b: nat) {
    && SameOutside(s, t) && CollectsIn(t, s.cons.storeRound) && s.cons.phase.Collecting?
    && t.cons.phase.primary == s.cons.phase.primary && s.cons.phase.done <= t.cons.phase.done
    && b < |s.backs| && t.backs[b].log == s.backs[b].log
  }

  lemma OnlyBackupStill(s: State, t: State, u: State, b: nat)
    requires OnlyBackup(s, t, b) && OnlyBackup(t, u, b)
    ensures OnlyBackup(s, u, b)
  {
  }

  lemma WalksOn(o: State, s: State, b: nat) returns (t: State)
    requires GoesOn(o, s) && AllIdle(s, |s.clients|) && s.cons.phase.Collecting? && b < |s.backs|
    requires s.backs[b].gc.Walking? && s.backs[b].walked <= s.backs[b].gc.top
    ensures GoesOn(o, t) && OnlyBackup(s, t, b) && t.backs[b].gc == s.backs[b].gc && t.backs[b].walked == s.backs[b].walked + 1
  {
    BackupIsReady(o, s, b);
    OnTheWay(o, s);
    assert WalkOk(s, b);
    t := Apply(s, GcWalk(b));
    Further(o, s, GcWalk(b), t);
  }

  lemma {:induction false} WalksToTheEnd(o: State, s: State, b: nat) returns (t: State)
    requires GoesOn(o, s) && AllIdle(s, |s.clients|) && s.cons.phase.Collecting? && b < |s.backs| && s.backs[b].gc.Walking?
    ensures GoesOn(o, t) && OnlyBackup(s, t, b) && t.backs[b].gc == s.backs[b].gc && t.backs[b].walked > t.backs[b].gc.top
    decreases s.backs[b].gc.top + 1 - s.backs[b].walked
  {
    if s.backs[b].walked > s.backs[b].gc.top {
      t := s;
    } else {
      var s1 := WalksOn(o, s, b);
      t := WalksToTheEnd(o, s1, b);
      OnlyBackupStill(s, s1, t, b);
    }
  }

  lemma BeginsWalk(o: State, s: State, b: nat) returns (t: State)
    requires GoesOn(o, s) && s.cons.phase.Collecting? && b < |s.backs| && b !in s.cons.phase.done
    ensures GoesOn(o, t) && OnlyBackup(s, t, b) && t.backs[b].gc.Walking?
  {
    OnTheWay(o, s);
    BatchAtHand(o, s);
    assert WalkOk(s, b);
    t := s;
    if b !in s.cons.phase.asked {
      var top := TopExists(s.backs[b].known, Maxima(Storing(s).batch.ops, |Storing(s).batch.ops|));
      t := Apply(s, GcBegin(b, top));
      Further(o, s, GcBegin(b, top), t);
    }
  }

  lemma EndsWalk(o: State, s: State, b: nat) returns (t: State)
    requires GoesOn(o, s) && s.cons.phase.Collecting? && b < |s.backs|
    requires s.backs[b].gc.Walking? && s.backs[b].walked > s.backs[b].gc.top
    ensures GoesOn(o, t) && OnlyBackup(s, t, b) && b in t.cons.phase.done
  {
    TwoBuffers(o, s);
    t := Apply(s, GcEnd(b));
    Further(o, s, GcEnd(b), t);
  }

  /** Every backup's collection can be finished. */
  lemma CollectsBackup(o: State, s: State, b: nat) returns (t: State)
    requires GoesOn(o, s) && AllIdle(s, |s.clients|) && s.cons.phase.Collecting? && b < |s.backs|
    ensures GoesOn(o, t) && OnlyBackup(s, t, b) && b in t.cons.phase.done
  {
    if b in s.cons.phase.done {
      t := s;
    } else {
      var s1 := BeginsWalk(o, s, b);
      var s2 := WalksToTheEnd(o, s1, b);
      t := EndsWalk(o, s2, b);
      OnlyBackupStill(s, s1, s2, b);
      OnlyBackupStill(s, s2, t, b);
    }
  }

  lemma {:induction false} CollectsBackups(o: State, s: State, n: nat) returns (t: State)
    requires GoesOn(o, s) && AllIdle(s, |s.clients|) && s.cons.phase.Collecting? && n <= |s.backs|
    ensures GoesOn(o, t) && SameOutside(s, t) && CollectsIn(t, s.cons.storeRound) && t.cons.phase.primary == s.cons.phase.primary
    ensures forall b :: 0 <= b < n ==> b in t.cons.phase.done
  {
    if n == 0 {
      t := s;
    } else {
      var s1 := CollectsBackups(o, s, n - 1);
      t := CollectsBackup(o, s1, n - 1);
      SameOutsideStill(s, s1, t);
    }
  }

  // ---------------------------------------------------------------- a round ends

  predicate UpdatesIn(s: State, r: nat) {
    s.cons.phase.Updating? && s.cons.storeRound == r
  }

  lemma Clears(o: State, s: State) returns (t: State)
    requires GoesOn(o, s) && AllIdle(s, |s.clients|) && s.cons.phase.Collecting?
    ensures GoesOn(o, t) && SameOutside(s, t) && UpdatesIn(t, s.cons.storeRound)
  {
    var s1 := CollectsPrimary(o, s);
    var s2 := CollectsBackups(o, s1, |s1.backs|);
    BatchAtHand(o, s2);
    t := Apply(s2, Clear);
    Further(o, s2, Clear, t);
    SameOutsideStill(s, s1, s2);
    SameOutsideStill(s, s2, t);
  }

  lemma Tells(o: State, s: State, j: nat) returns (t: State)
    requires GoesOn(o, s) && s.cons.phase.Updating? && j < |s.shards|
    ensures GoesOn(o, t) && SameOutside(s, t) && UpdatesIn(t, s.cons.storeRound)
    ensures t.cons.phase.told == s.cons.phase.told + {j}
  {
    TwoBuffers(o, s);
    t := Apply(s, Tell(j));
    Further(o, s, Tell(j), t);
  }

  lemma {:induction false} TellsAll(o: State, s: State, n: nat) returns (t: State)
    requires GoesOn(o, s) && s.cons.phase.Updating? && n <= |s.shards|
    ensures GoesOn(o, t) && SameOutside(s, t) && UpdatesIn(t, s.cons.storeRound)
    ensures forall j :: 0 <= j < n ==> j in t.cons.phase.told
  {
    if n == 0 {
      t := s;
    } else {
      var s1 := TellsAll(o, s, n - 1);
      t := Tells(o, s1, n - 1);
      SameOutsideStill(s, s1, t);
    }
  }

  lemma EndsRound(o: State, s: State) returns (t: State)
    requires GoesOn(o, s) && s.cons.phase.Updating?
    ensures GoesOn(o, t) && SameOutside(s, t) && t.cons.phase.NoStore? && t.cons.storeRound == s.cons.storeRound + 1
  {
    var s1 := TellsAll(o, s, |s.shards|);
    TwoBuffers(o, s1);
    t := Apply(s1, StoreEnd);
    Further(o, s1, StoreEnd, t);
  }

  /** The store thread can always finish its round. */
  lemma FinishesRound(o: State, s: State) returns (t: State)
    requires GoesOn(o, s) && AllIdle(s, |s.clients|) && !s.cons.phase.NoStore?
    ensures GoesOn(o, t) && SameOutside(s, t) && t.cons.phase.NoStore? && t.cons.storeRound == s.cons.storeRound + 1
  {
    var s1 := s;
    if s.cons.phase.Sending? {
      s1 := SentAll(o, s);
    }
    var s2 := s1;
    if s1.cons.phase.Collecting? {
      s2 := Clears(o, s1);
    }
    t := EndsRound(o, s2);
    SameOutsideStill(s, s1, s2);
    SameOutsideStill(s, s2, t);
  }

  // ---------------------------------------------------------------- everything is ordered

  lemma BeginsRound(o: State, s: State) returns (t: State)
    requires GoesOn(o, s) && s.cons.phase.NoStore? && s.cons.storeRound < s.cons.fetchRound
    ensures GoesOn(o, t) && SameOutside(s, t) && !t.cons.phase.NoStore? && t.cons.storeRound == s.cons.storeRound
  {
    OnTheWay(o, s);
    t := Apply(s, StoreBegin);
    Further(o, s, StoreBegin, t);
  }

  /** Every batch that is fetched can be stored. */
  lemma {:induction false} StoresAll(o: State, s: State) returns (t: State)
    requires GoesOn(o, s) && AllIdle(s, |s.clients|) && s.cons.storeRound <= s.cons.fetchRound
    ensures GoesOn(o, t) && SameOutside(s, t) && t.cons.phase.NoStore? && t.cons.storeRound >= t.cons.fetchRound
    decreases s.cons.fetchRound - s.cons.storeRound, if s.cons.phase.NoStore? then 1 else 0
  {
    if !s.cons.phase.NoStore? {
      BeforeEnd(o, s);
      var s1 := FinishesRound(o, s);
      t := StoresAll(o, s1);
      SameOutsideStill(s, s1, t);
    } else if s.cons.storeRound < s.cons.fetchRound {
      var s1 := BeginsRound(o, s);
      t := StoresAll(o, s1);
      SameOutsideStill(s, s1, t);
    } else {
      t := s;
    }
  }

  lemma BeforeEnd(o: State, s: State)
    requires GoesOn(o, s) && !s.cons.phase.NoStore?
    ensures s.cons.storeRound < s.cons.fetchRound
  {
    OnTheWay(o, s);
  }

  lemma FetchesRest(o: State, s: State) returns (t: State)
    requires GoesOn(o, s) && AllIdle(s, |s.clients|) && s.cons.phase.NoStore? && s.cons.storeRound >= s.cons.fetchRound
    requires s.cons.fetchBegin < |s.prim.log|
    ensures GoesOn(o, t) && t.clients == s.clients && t.prim == s.prim && t.cons.fetchBegin == |t.prim.log|
    ensures t.cons.storeRound <= t.cons.fetchRound
  {
    OnTheWay(o, s);
    StableBound(s.prim, s.cons);
    EverythingShown(s, 0);
    var n := |s.prim.log| - s.cons.fetchBegin;
    forall i | FetchFrom(s) <= i < FetchFrom(s) + n
      ensures i in s.prim.shown
    {
      assert |LogAt(s, 0)| == |s.prim.log| && i in ShownAt(s, 0);
    }
    t := Apply(s, Fetch(n));
    Further(o, s, Fetch(n), t);
  }

  /** No append is under way, the store thread rests, and every index there is can be read. */
  predicate Finished(s: State) {
    && AllIdle(s, |s.clients|) && s.cons.phase.NoStore? && s.prim.ordered == |s.prim.log|
    && forall idx :: 0 <= idx < |s.prim.log| ==> PassesGate(s, idx)
  }

  lemma IsFinished(o: State, s: State)
    requires GoesOn(o, s) && AllIdle(s, |s.clients|) && s.cons.phase.NoStore? && s.cons.storeRound >= s.cons.fetchRound
    requires s.cons.fetchBegin >= |s.prim.log|
    ensures Finished(s)
  {
    OnTheWay(o, s);
    var states, steps, k :| RunThrough(states, steps, k, o, s);
    forall idx | 0 <= idx < |s.prim.log|
      ensures PassesGate(s, idx)
    {
      OrderedIsReadable(states, steps, |steps|, idx);
    }
  }

  /**
   * From every state of every run the parties can go on, without any new append, until all appends have returned,
   * everything is ordered, and every index can be read.
   */
  lemma CanAlwaysFinish(states: seq<State>, steps: seq<Step>, k: nat) returns (t: State)
    requires IsRun(states, steps) && k < |states|
    ensures GoesOn(states[k], t) && Finished(t)
    ensures |t.clients| == |states[k].clients|
    ensures forall c :: 0 <= c < |t.clients| ==> t.clients[c].next == states[k].clients[c].next
  {
    var o := states[k];
    CutRun(states, steps, k);
    var s1 := AllReturn(o, o, |o.clients|);
    BeforeStore(o, s1);
    var s2 := StoresAll(o, s1);
    t := s2;
    if s2.cons.fetchBegin < |s2.prim.log| {
      var s3 := FetchesRest(o, s2);
      t := StoresAll(o, s3);
    }
    IsFinished(o, t);
  }

  lemma BeforeStore(o: State, s: State)
    requires GoesOn(o, s)
    ensures s.cons.storeRound <= s.cons.fetchRound
  {
    OnTheWay(o, s);
  }

  /** A run may stop anywhere. */
  lemma CutRun(states: seq<State>, steps: seq<Step>, k: nat)
    requires IsRun(states, steps) && k < |states|
    ensures GoesOn(states[k], states[k])
  {
    var states', steps' := states[..k + 1], steps[..k];
    forall i | 0 <= i < |steps'|
      ensures StepTo(states'[i], steps'[i], states'[i + 1])
    {
      assert steps'[i] == steps[i];
    }
    assert RunThrough(states', steps', k, states[k], states[k]);
  }
}

/** One invariant for all interleavings of the protocol, and that every step keeps it. */
module ProtocolProofs {
  import opened Arith
  import opened DurLog
  import opened Protocol

  // ---------------------------------------------------------------- the primary's log and the clients

  /** `op` is among the first `n` entries of `log`. */
  predicate Before(log: seq<Op>, n: nat, op: Op) {
    exists i :: 0 <= i < n && i < |log| && log[i] == op
  }

  /** No append is in the log twice, and those of one client are there in the order it made them, without a gap. */
  predicate LogOk(log: seq<Op>) {
    && (forall i, k :: 0 <= i < k < |log| ==> log[i] != log[k])
    && (forall i, q :: 0 <= i < |log| && 0 <= q < log[i].sq ==> Before(log, i, Op(log[i].client, q)))
  }

  /** How many appends of a client replica `r` has taken. */
  function TakenBy(cl: Client, r: nat): nat {
    if cl.busy && cl.next > 0 && r < |cl.at| && cl.at[r].Sent? then cl.next - 1 else cl.next
  }

  function Taken(cl: Client): nat {
    TakenBy(cl, 0)
  }

  /** What backup `b` has taken from client `c` is in its log. */
  predicate Arrived(log: seq<Op>, b: nat, c: nat, cl: Client) {
    forall q :: 0 <= q < TakenBy(cl, b + 1) ==> Op(c, q) in log
  }

  predicate ArrivedOk(clients: seq<Client>, backs: seq<Backup>) {
    forall c, b {:trigger Arrived(backs[b].log, b, c, clients[c])} ::
      0 <= c < |clients| && 0 <= b < |backs| ==> Arrived(backs[b].log, b, c, clients[c])
  }

  predicate ClientOk(log: seq<Op>, replicas: nat, c: nat, cl: Client) {
    && (cl.busy ==> cl.next > 0 && |cl.at| == replicas > 0)
    && (cl.busy && cl.at[0].Held? ==> cl.at[0].i < |log|)
    && (forall q :: 0 <= q < Taken(cl) ==> Before(log, |log|, Op(c, q)))
    && (forall i :: 0 <= i < |log| && log[i].client == c ==> log[i].sq < Taken(cl))
  }

  predicate ClientsOk(log: seq<Op>, replicas: nat, clients: seq<Client>) {
    && (forall i :: 0 <= i < |log| ==> log[i].client < |clients|)
    && (forall c {:trigger ClientOk(log, replicas, c, clients[c])} ::
          0 <= c < |clients| ==> ClientOk(log, replicas, c, clients[c]))
  }

  // ---------------------------------------------------------------- the consensus side

  /** `buf` holds entries `a` up to `b` of the primary. */
  predicate IsBatch(log: seq<Op>, a: nat, b: nat, buf: Buffer) {
    && a < b <= |log| && buf.Full? && buf.batch.from == a && |buf.batch.ops| == b - a
    && forall i :: 0 <= i < b - a ==> buf.batch.ops[i] == log[a + i]
  }

  predicate Cuts(k: Cons) {
    && |k.buffers| == 2 && k.storeRound <= k.fetchRound <= k.storeRound + 2
    && |k.cuts| == k.fetchRound + 1 && k.cuts[0] == 0 && k.cuts[k.fetchRound] == k.fetchBegin
    && (forall r :: 0 <= r < k.fetchRound ==> k.cuts[r] < k.cuts[r + 1])
    && (!k.phase.NoStore? ==> k.storeRound < k.fetchRound)
  }

  /** The two buffers hold the batches that are fetched and not yet stored. */
  predicate Buffers(log: seq<Op>, k: Cons)
    requires Cuts(k)
  {
    var r := k.storeRound;
    && (if r < k.fetchRound && !k.phase.Updating? then IsBatch(log, k.cuts[r], k.cuts[r + 1], k.buffers[r % 2])
        else k.buffers[r % 2].Empty?)
    && (if k.fetchRound == r + 2 then IsBatch(log, k.cuts[r + 1], k.cuts[r + 2], k.buffers[(r + 1) % 2])
        else k.buffers[(r + 1) % 2].Empty?)
  }

  /** Every index below this is on its shard's primary and backups. */
  function Stable(k: Cons): nat
    requires Cuts(k)
  {
    match k.phase
    case NoStore => k.cuts[k.storeRound]
    case Sending(lo, _) => lo
    case _ => k.cuts[k.storeRound + 1]
  }

  /** No index from this on has been sent to a shard. */
  function Reach(k: Cons): nat
    requires Cuts(k)
  {
    if k.phase.Sending? then k.phase.hi else Stable(k)
  }

  predicate PhaseOk(k: Cons, ordered: nat)
    requires Cuts(k)
  {
    var r := k.storeRound;
    match k.phase
    case NoStore => ordered == k.cuts[r]
    case Sending(lo, hi) => k.cuts[r] == ordered <= lo <= hi <= k.cuts[r + 1]
    case Collecting(primary, _, _) => ordered == if primary then k.cuts[r + 1] else k.cuts[r]
    case Updating(last, _) => ordered == k.cuts[r + 1] == last + 1
  }

  predicate ConsOk(prim: Primary, k: Cons) {
    && Cuts(k) && Buffers(prim.log, k) && PhaseOk(k, prim.ordered)
    && k.fetchBegin <= |prim.log| && forall i :: 0 <= i < k.fetchBegin ==> i in prim.shown
  }

  /** How many batches the store thread has taken up. */
  function Begun(k: Cons): nat {
    k.storeRound + if k.phase.NoStore? then 0 else 1
  }

  /** The batches stored so far are the first ones fetched, in order and unchanged. */
  predicate StoredOk(log: seq<Op>, cuts: seq<nat>, n: nat, stored: seq<Batch>) {
    && |stored| == n < |cuts|
    && forall r {:trigger stored[r]} :: 0 <= r < n ==> IsBatch(log, cuts[r], cuts[r + 1], Full(stored[r]))
  }

  lemma StoredGrow(log: seq<Op>, log': seq<Op>, cuts: seq<nat>, cuts': seq<nat>, n: nat, stored: seq<Batch>)
    requires StoredOk(log, cuts, n, stored) && Grows(log, log')
    requires |cuts| <= |cuts'| && forall r :: 0 <= r < |cuts| ==> cuts[r] == cuts'[r]
    ensures StoredOk(log', cuts', n, stored)
  {
  }

  lemma StableBound(prim: Primary, k: Cons)
    requires ConsOk(prim, k)
    ensures prim.ordered <= Stable(k) <= Reach(k) <= k.fetchBegin <= |prim.log|
  {
    var r := k.storeRound;
    assert r < k.fetchRound ==> k.cuts[r] < k.cuts[r + 1];
    assert r + 2 == k.fetchRound ==> k.cuts[r + 1] < k.cuts[r + 1 + 1];
  }

  // ---------------------------------------------------------------- shards

  /** What shard `j` of `n` has to hold once the first `p` indices are stored. */
  function Part(log: seq<Op>, n: nat, j: nat, p: nat): seq<Op>
    requires n > 0 && p <= |log|
  {
    Select(log, 0, n, j, 0, p)
  }

  predicate Copy(x: seq<Op>, added: bool, a: seq<Op>, b: seq<Op>) {
    x == if added then b else a
  }

  /** `x` is the largest index of shard `j` of `n` below `p`, or 0 if there is none. */
  predicate LastBelow(n: nat, j: nat, p: nat, x: nat)
    requires n > 0
  {
    && (forall y {:trigger y % n} :: 0 <= y < p && y % n == j ==> y <= x)
    && (x == 0 || (x < p && x % n == j))
  }

  predicate ShardOk(log: seq<Op>, n: nat, j: nat, lo: nat, hi: nat, h: Shard)
    requires n > 0 && lo <= hi <= |log|
  {
    var a, b := Part(log, n, j, lo), Part(log, n, j, hi);
    && (h.global == 0 || h.global < lo)
    && match h.req
       case Nothing =>
         && LastBelow(n, j, hi, h.replicated)
         && h.primary == b && forall x :: 0 <= x < |h.backups| ==> h.backups[x] == b
       case Waiting(r) =>
         && LastBelow(n, j, lo, h.replicated)
         && a + r.ops == b && LastBelow(n, j, hi, r.last)
         && Copy(h.primary, r.primary, a, b)
         && forall x :: 0 <= x < |h.backups| ==> Copy(h.backups[x], x in r.backups, a, b)
  }

  predicate ShardsOk(log: seq<Op>, lo: nat, hi: nat, shards: seq<Shard>) {
    && |shards| > 0 && lo <= hi <= |log|
    && forall j {:trigger ShardOk(log, |shards|, j, lo, hi, shards[j])} ::
         0 <= j < |shards| ==> ShardOk(log, |shards|, j, lo, hi, shards[j])
  }

  // ---------------------------------------------------------------- backups

  /** What the protocol owes an entry that a backup has walked past. */
  predicate Safe(log: seq<Op>, stable: nat, b: Backup, op: Op) {
    op in b.pending || op.sq == 0 || Before(log, stable, op)
  }

  predicate MapOk(log: seq<Op>, stable: nat, m: map<nat, nat>) {
    forall c :: c in m ==> Before(log, stable, Op(c, m[c]))
  }

  predicate BackupOk(log: seq<Op>, stable: nat, b: Backup) {
    && b.settled <= b.walked <= |b.log|
    && (b.gc.Quiet? ==> b.settled == b.walked)
    && (b.gc.Walking? ==> MapOk(log, stable, b.gc.m))
    && forall i :: 0 <= i < b.walked ==> Safe(log, stable, b, b.log[i])
  }

  predicate BackupsOk(log: seq<Op>, stable: nat, backs: seq<Backup>) {
    forall b {:trigger BackupOk(log, stable, backs[b])} :: 0 <= b < |backs| ==> BackupOk(log, stable, backs[b])
  }

  predicate Inv(s: State) {
    && s.unit > 0
    && LogOk(s.prim.log) && ClientsOk(s.prim.log, 1 + |s.backs|, s.clients) && ArrivedOk(s.clients, s.backs)
    && ConsOk(s.prim, s.cons) && StoredOk(s.prim.log, s.cons.cuts, Begun(s.cons), s.cons.stored)
    && ShardsOk(s.prim.log, Stable(s.cons), Reach(s.cons), s.shards)
    && BackupsOk(s.prim.log, Stable(s.cons), s.backs)
  }

  predicate Init(s: State) {
    && s.unit > 0 && |s.shards| > 0
    && s.prim == Primary([], {}, 0) && s.cons == Cons([Empty, Empty], 0, 0, 0, NoStore, [0], [])
    && (forall c :: 0 <= c < |s.clients| ==> s.clients[c].next == 0 && !s.clients[c].busy)
    && (forall b :: 0 <= b < |s.backs| ==> s.backs[b] == Backup([], {}, map[], 0, 0, [], Quiet))
    && (forall j :: 0 <= j < |s.shards| ==>
          var h := s.shards[j];
          && h.primary == [] && h.replicated == h.global == 0 && h.req.Nothing?
          && forall x :: 0 <= x < |h.backups| ==> h.backups[x] == [])
  }

  lemma InitKeeps(s: State)
    requires Init(s)
    ensures Inv(s)
  {
    forall j | 0 <= j < |s.shards|
      ensures ShardOk(s.prim.log, |s.shards|, j, 0, 0, s.shards[j])
    {
      var h := s.shards[j];
      assert Part(s.prim.log, |s.shards|, j, 0) == [];
    }
    forall c | 0 <= c < |s.clients|
      ensures ClientOk(s.prim.log, 1 + |s.backs|, c, s.clients[c])
    {
      assert Taken(s.clients[c]) == 0;
    }
  }

  // ---------------------------------------------------------------- the log grows

  predicate Grows(log: seq<Op>, log': seq<Op>) {
    |log| <= |log'| && forall i :: 0 <= i < |log| ==> log[i] == log'[i]
  }

  lemma BeforeGrows(log: seq<Op>, log': seq<Op>, n: nat, n': nat, op: Op)
    requires Grows(log, log') && n <= n' && Before(log, n, op)
    ensures Before(log', n', op)
  {
    var i :| 0 <= i < n && i < |log| && log[i] == op;
    assert log'[i] == op;
  }

  lemma {:induction false} SelectSame(
    ops: seq<Op>, from: nat, ops': seq<Op>, from': nat, n: nat, j: nat, lo: nat, hi: nat)
    requires n > 0 && from <= lo <= hi <= from + |ops| && from' <= lo && hi <= from' + |ops'|
    requires forall i :: lo <= i < hi ==> Item(ops, from, i) == Item(ops', from', i)
    ensures Select(ops, from, n, j, lo, hi) == Select(ops', from', n, j, lo, hi)
  {
    if lo < hi {
      SelectSame(ops, from, ops', from', n, j, lo, hi - 1);
    }
  }

  lemma ShardsGrow(log: seq<Op>, log': seq<Op>, lo: nat, hi: nat, shards: seq<Shard>)
    requires ShardsOk(log, lo, hi, shards) && Grows(log, log')
    ensures ShardsOk(log', lo, hi, shards)
  {
    forall j | 0 <= j < |shards|
      ensures ShardOk(log', |shards|, j, lo, hi, shards[j])
    {
      assert ShardOk(log, |shards|, j, lo, hi, shards[j]);
      SelectSame(log, 0, log', 0, |shards|, j, 0, lo);
      SelectSame(log, 0, log', 0, |shards|, j, 0, hi);
    }
  }

  lemma BackupGrows(log: seq<Op>, log': seq<Op>, n: nat, n': nat, b: Backup)
    requires BackupOk(log, n, b) && Grows(log, log') && n <= n'
    ensures BackupOk(log', n', b)
  {
    if b.gc.Walking? {
      forall c | c in b.gc.m
        ensures Before(log', n', Op(c, b.gc.m[c]))
      {
        BeforeGrows(log, log', n, n', Op(c, b.gc.m[c]));
      }
    }
    forall i | 0 <= i < b.walked
      ensures Safe(log', n', b, b.log[i])
    {
      assert Safe(log, n, b, b.log[i]);
      if Before(log, n, b.log[i]) {
        BeforeGrows(log, log', n, n', b.log[i]);
      }
    }
  }

  lemma BackupsGrow(log: seq<Op>, log': seq<Op>, n: nat, n': nat, backs: seq<Backup>)
    requires BackupsOk(log, n, backs) && Grows(log, log') && n <= n'
    ensures BackupsOk(log', n', backs)
  {
    forall b | 0 <= b < |backs|
      ensures BackupOk(log', n', backs[b])
    {
      BackupGrows(log, log', n, n', backs[b]);
    }
  }

  lemma LogAppend(log: seq<Op>, replicas: nat, clients: seq<Client>, c: nat)
    requires LogOk(log) && ClientsOk(log, replicas, clients) && c < |clients|
    requires var cl := clients[c]; cl.busy && replicas > 0 && |cl.at| == replicas && cl.at[0].Sent?
    ensures LogOk(log + [Current(c, clients[c])])
  {
    var cl := clients[c];
    var op := Current(c, cl);
    var log' := log + [op];
    assert ClientOk(log, replicas, c, cl);
    forall i, q | 0 <= i < |log'| && 0 <= q < log'[i].sq
      ensures Before(log', i, Op(log'[i].client, q))
    {
      if i < |log| {
        BeforeGrows(log, log', i, i, Op(log[i].client, q));
      } else {
        BeforeGrows(log, log', |log|, |log|, Op(c, q));
      }
    }
  }

  lemma ClientsAppend(log: seq<Op>, replicas: nat, clients: seq<Client>, c: nat, stage: Stage)
    requires ClientsOk(log, replicas, clients) && c < |clients| && stage == Held(|log|)
    requires var cl := clients[c]; cl.busy && replicas > 0 && |cl.at| == replicas && cl.at[0].Sent?
    ensures var cl := clients[c];
            ClientsOk(log + [Current(c, cl)], replicas, clients[c := cl.(at := cl.at[0 := stage])])
  {
    var cl := clients[c];
    var op, clients' := Current(c, cl), clients[c := cl.(at := cl.at[0 := stage])];
    var log' := log + [op];
    forall d | 0 <= d < |clients'|
      ensures ClientOk(log', replicas, d, clients'[d])
    {
      assert ClientOk(log, replicas, d, clients[d]);
      forall q | 0 <= q < Taken(clients'[d])
        ensures Before(log', |log'|, Op(d, q))
      {
        if d == c && q == cl.next - 1 {
          assert log'[|log|] == Op(d, q);
        } else {
          BeforeGrows(log, log', |log|, |log'|, Op(d, q));
        }
      }
    }
  }

  lemma ConsGrow(prim: Primary, op: Op, k: Cons)
    requires ConsOk(prim, k)
    ensures ConsOk(prim.(log := prim.log + [op]), k)
  {
  }

  /** A client step that no backup takes part in. */
  lemma ArrivedClient(clients: seq<Client>, backs: seq<Backup>, c: nat, cl: Client)
    requires ArrivedOk(clients, backs) && c < |clients|
    requires forall r :: 0 < r <= |backs| ==> TakenBy(cl, r) == TakenBy(clients[c], r)
    ensures ArrivedOk(clients[c := cl], backs)
  {
    var clients' := clients[c := cl];
    forall d, b | 0 <= d < |clients| && 0 <= b < |backs|
      ensures Arrived(backs[b].log, b, d, clients'[d])
    {
      assert Arrived(backs[b].log, b, d, clients[d]);
    }
  }

  lemma ArrivedBackup(clients: seq<Client>, backs: seq<Backup>, c: nat, r: nat, stage: Stage, x: Backup)
    requires ArrivedOk(clients, backs) && c < |clients| && 0 < r <= |backs| && r < |clients[c].at|
    requires clients[c].busy && !stage.Sent? && Grows(backs[r - 1].log, x.log)
    requires clients[c].at[r].Sent? ==> Current(c, clients[c]) in x.log
    ensures var cl := clients[c]; ArrivedOk(clients[c := cl.(at := cl.at[r := stage])], backs[r - 1 := x])
  {
    var cl, log := clients[c], backs[r - 1].log;
    var clients', backs' := clients[c := cl.(at := cl.at[r := stage])], backs[r - 1 := x];
    forall d, b | 0 <= d < |clients| && 0 <= b < |backs|
      ensures Arrived(backs'[b].log, b, d, clients'[d])
    {
      assert Arrived(backs[b].log, b, d, clients[d]);
      if b == r - 1 {
        forall q | 0 <= q < TakenBy(clients'[d], b + 1)
          ensures Op(d, q) in x.log
        {
          if Op(d, q) in log {
            var i :| 0 <= i < |log| && log[i] == Op(d, q);
            assert x.log[i] == Op(d, q);
          }
        }
      }
    }
  }

  lemma ReservePrimaryKeeps(s: State, c: nat)
    requires Inv(s) && Enabled(s, Reserve(c, 0))
    ensures Inv(Apply(s, Reserve(c, 0)))
  {
    var log, log' := s.prim.log, s.prim.log + [Current(c, s.clients[c])];
    LogAppend(log, 1 + |s.backs|, s.clients, c);
    ClientsAppend(log, 1 + |s.backs|, s.clients, c, Held(|log|));
    ArrivedClient(s.clients, s.backs, c, s.clients[c].(at := s.clients[c].at[0 := Held(|log|)]));
    ConsGrow(s.prim, Current(c, s.clients[c]), s.cons);
    StoredGrow(log, log', s.cons.cuts, s.cons.cuts, Begun(s.cons), s.cons.stored);
    ShardsGrow(log, log', Stable(s.cons), Reach(s.cons), s.shards);
    BackupsGrow(log, log', Stable(s.cons), Stable(s.cons), s.backs);
  }

  // ---------------------------------------------------------------- steps of clients and replicas

  lemma StageKeeps(log: seq<Op>, replicas: nat, clients: seq<Client>, c: nat, r: nat, stage: Stage)
    requires ClientsOk(log, replicas, clients) && c < |clients| && clients[c].busy && r < |clients[c].at|
    requires r == 0 ==> !clients[c].at[0].Sent? && !stage.Sent? && !stage.Held?
    ensures var cl := clients[c]; ClientsOk(log, replicas, clients[c := cl.(at := cl.at[r := stage])])
  {
    var cl := clients[c];
    var clients' := clients[c := cl.(at := cl.at[r := stage])];
    forall d | 0 <= d < |clients'|
      ensures ClientOk(log, replicas, d, clients'[d])
    {
      assert ClientOk(log, replicas, d, clients[d]);
      assert Taken(clients'[d]) == Taken(clients[d]);
    }
  }

  lemma ClientKeeps(log: seq<Op>, replicas: nat, clients: seq<Client>, c: nat, cl: Client)
    requires ClientsOk(log, replicas, clients) && c < |clients|
    requires Taken(cl) == Taken(clients[c])
    requires cl.busy ==> cl.next > 0 && |cl.at| == replicas > 0 && cl.at[0].Sent?
    ensures ClientsOk(log, replicas, clients[c := cl])
  {
    var clients' := clients[c := cl];
    forall d | 0 <= d < |clients|
      ensures ClientOk(log, replicas, d, clients'[d])
    {
      assert ClientOk(log, replicas, d, clients[d]);
    }
  }

  lemma BackupKeeps(log: seq<Op>, stable: nat, backs: seq<Backup>, b: nat, x: Backup)
    requires BackupsOk(log, stable, backs) && b < |backs| && BackupOk(log, stable, x)
    ensures BackupsOk(log, stable, backs[b := x])
  {
    var backs' := backs[b := x];
    forall d | 0 <= d < |backs|
      ensures BackupOk(log, stable, backs'[d])
    {
      assert BackupOk(log, stable, backs[d]);
    }
  }

  /** A backup that appends, publishes or registers an entry owes nothing new to those it has walked past. */
  lemma BackupAppends(log: seq<Op>, stable: nat, b: Backup, b': Backup)
    requires BackupOk(log, stable, b) && Grows(b.log, b'.log)
    requires b'.walked == b.walked && b'.settled == b.settled && b'.pending == b.pending && b'.gc == b.gc
    ensures BackupOk(log, stable, b')
  {
    forall i | 0 <= i < b'.walked
      ensures Safe(log, stable, b', b'.log[i])
    {
      assert Safe(log, stable, b, b.log[i]);
    }
  }

  lemma ReplicaStepKeeps(s: State, c: nat, r: nat, stage: Stage, x: Backup)
    requires Inv(s) && Waits(s, c, r) && r > 0 && Grows(s.backs[r - 1].log, x.log)
    requires x == s.backs[r - 1].(log := x.log, shown := x.shown, known := x.known)
    requires !stage.Sent? && (s.clients[c].at[r].Sent? ==> Current(c, s.clients[c]) in x.log)
    ensures Inv(WithBackup(WithStage(s, c, r, stage), r - 1, x))
  {
    StageKeeps(s.prim.log, 1 + |s.backs|, s.clients, c, r, stage);
    ArrivedBackup(s.clients, s.backs, c, r, stage, x);
    assert BackupOk(s.prim.log, Stable(s.cons), s.backs[r - 1]);
    BackupAppends(s.prim.log, Stable(s.cons), s.backs[r - 1], x);
    BackupKeeps(s.prim.log, Stable(s.cons), s.backs, r - 1, x);
  }

  lemma ShownKeeps(prim: Primary, k: Cons, i: nat)
    requires ConsOk(prim, k)
    ensures ConsOk(prim.(shown := prim.shown + {i}), k)
  {
  }

  lemma ReserveKeeps(s: State, c: nat, r: nat)
    requires Inv(s) && Enabled(s, Reserve(c, r))
    ensures Inv(Apply(s, Reserve(c, r)))
  {
    if r == 0 {
      ReservePrimaryKeeps(s, c);
    } else {
      var b := s.backs[r - 1];
      ReplicaStepKeeps(s, c, r, Held(|b.log|), b.(log := b.log + [Current(c, s.clients[c])]));
    }
  }

  lemma PublishKeeps(s: State, c: nat, r: nat)
    requires Inv(s) && Enabled(s, Publish(c, r))
    ensures Inv(Apply(s, Publish(c, r)))
  {
    var i := s.clients[c].at[r].i;
    if r == 0 {
      StageKeeps(s.prim.log, 1 + |s.backs|, s.clients, c, 0, Shown(i));
      ArrivedClient(s.clients, s.backs, c, s.clients[c].(at := s.clients[c].at[0 := Shown(i)]));
      ShownKeeps(s.prim, s.cons, i);
    } else {
      var b := s.backs[r - 1];
      ReplicaStepKeeps(s, c, r, Shown(i), b.(shown := b.shown + {i}));
    }
  }

  lemma RegisterKeeps(s: State, c: nat, r: nat)
    requires Inv(s) && Enabled(s, Register(c, r))
    ensures Inv(Apply(s, Register(c, r)))
  {
    var b := s.backs[r - 1];
    ReplicaStepKeeps(s, c, r, Listed, b.(known := b.known[Current(c, s.clients[c]) := s.clients[c].at[r].i]));
  }

  lemma ClientStepKeeps(s: State, step: Step)
    requires Inv(s) && Enabled(s, step) && (step.Invoke? || step.Reply? || step.Return?)
    ensures Inv(Apply(s, step))
  {
    var log, replicas := s.prim.log, 1 + |s.backs|;
    match step
    case Invoke(c) =>
      var cl := Client(s.clients[c].next + 1, true, AllSent(1 + |s.backs|));
      ClientKeeps(log, replicas, s.clients, c, cl);
      ArrivedClient(s.clients, s.backs, c, cl);
    case Reply(c, r) =>
      StageKeeps(log, replicas, s.clients, c, r, Acked);
      ArrivedClient(s.clients, s.backs, c, s.clients[c].(at := s.clients[c].at[r := Acked]));
    case Return(c) =>
      assert ClientOk(log, replicas, c, s.clients[c]);
      ClientKeeps(log, replicas, s.clients, c, s.clients[c].(busy := false));
      ArrivedClient(s.clients, s.backs, c, s.clients[c].(busy := false));
  }

  // ---------------------------------------------------------------- steps of the consensus side

  /** At most two batches wait: the buffer of a third is full, or its lock is held. */
  lemma FetchRoom(log: seq<Op>, k: Cons)
    requires Cuts(k) && Buffers(log, k) && k.buffers[k.fetchRound % 2].Empty? && !Locked(k, k.fetchRound % 2)
    ensures k.fetchRound < k.storeRound + 2
  {
  }

  lemma FetchCons(prim: Primary, k: Cons, k': Cons, n: nat)
    requires ConsOk(prim, k) && k.fetchRound < k.storeRound + 2 && n > 0 && k.fetchBegin + n <= |prim.log|
    requires forall i :: k.fetchBegin <= i < k.fetchBegin + n ==> i in prim.shown
    requires k' == Fetched(prim.log, k, k.fetchBegin, n)
    ensures ConsOk(prim, k') && Stable(k') == Stable(k) && Reach(k') == Reach(k)
  {
    FetchedBuffers(prim.log, k, k', n);
  }

  /** A fetch starts where the last one ended: the ordered watermark is never past it. */
  lemma FetchKeeps(s: State, n: nat)
    requires Inv(s) && Enabled(s, Fetch(n))
    ensures Inv(Apply(s, Fetch(n)))
  {
    StableBound(s.prim, s.cons);
    FetchRoom(s.prim.log, s.cons);
    FetchCons(s.prim, s.cons, Apply(s, Fetch(n)).cons, n);
    StoredGrow(s.prim.log, s.prim.log, s.cons.cuts, Apply(s, Fetch(n)).cons.cuts, Begun(s.cons), s.cons.stored);
  }

  lemma FetchedBuffers(log: seq<Op>, k: Cons, k': Cons, n: nat)
    requires Cuts(k) && Buffers(log, k) && k.fetchRound < k.storeRound + 2 && k.fetchBegin + n <= |log| && n > 0
    requires k' == Fetched(log, k, k.fetchBegin, n)
    ensures Cuts(k') && Buffers(log, k')
    ensures forall r :: 0 <= r < |k.cuts| ==> k'.cuts[r] == k.cuts[r]
  {
    var a := k.fetchBegin;
    assert IsBatch(log, a, a + n, Full(Batch(a, log[a..a + n])));
  }

  /** A new phase of the store thread that leaves the rest of the consensus side alone. */
  lemma PhaseKeeps(prim: Primary, k: Cons, phase: Phase, ordered: nat)
    requires ConsOk(prim, k) && !phase.NoStore? && !phase.Updating? && k.storeRound < k.fetchRound && !k.phase.Updating?
    requires PhaseOk(k.(phase := phase), ordered)
    ensures ConsOk(prim.(ordered := ordered), k.(phase := phase))
  {
  }

  lemma StoreBeginCons(prim: Primary, k: Cons, k': Cons)
    requires ConsOk(prim, k) && k.phase.NoStore? && k.buffers[k.storeRound % 2].Full?
    requires StoredOk(prim.log, k.cuts, k.storeRound, k.stored)
    requires var batch := k.buffers[k.storeRound % 2].batch;
             k' == k.(phase := Sending(batch.from, batch.from), stored := k.stored + [batch])
    ensures ConsOk(prim, k') && Stable(k') == Reach(k') == Stable(k)
    ensures StoredOk(prim.log, k'.cuts, k'.storeRound + 1, k'.stored)
  {
    assert k.cuts[k.storeRound] < k.cuts[k.storeRound + 1];
  }

  lemma StoreBeginKeeps(s: State)
    requires Inv(s) && Enabled(s, StoreBegin)
    ensures Inv(Apply(s, StoreBegin))
  {
    StoreBeginCons(s.prim, s.cons, Apply(s, StoreBegin).cons);
  }

  // ---------------------------------------------------------------- requests

  lemma {:induction false} SelectSplit(ops: seq<Op>, n: nat, j: nat, lo: nat, mid: nat, hi: nat)
    requires n > 0 && lo <= mid <= hi <= |ops|
    ensures Select(ops, 0, n, j, lo, mid) + Select(ops, 0, n, j, mid, hi) == Select(ops, 0, n, j, lo, hi)
  {
    if mid < hi {
      SelectSplit(ops, n, j, lo, mid, hi - 1);
    }
  }

  /** A request is for a shard exactly if the round has indices of it. */
  lemma {:induction false} SelectEmpty(ops: seq<Op>, from: nat, n: nat, j: nat, lo: nat, hi: nat)
    requires n > 0 && from <= lo <= hi <= from + |ops|
    ensures Select(ops, from, n, j, lo, hi) == [] <==> forall y :: lo <= y < hi ==> y % n != j
  {
    if lo < hi {
      SelectEmpty(ops, from, n, j, lo, hi - 1);
    }
  }

  /** The index that a request ends with is the largest one of its shard in the round. */
  lemma {:induction false} LastOfIsLargest(n: nat, j: nat, lo: nat, hi: nat, y: nat)
    requires n > 0 && lo <= y < hi && y % n == j
    ensures var x := LastOf(n, j, lo, hi); y <= x < hi && x % n == j && forall z :: x < z < hi ==> z % n != j
    decreases hi
  {
    if (hi - 1) % n != j {
      LastOfIsLargest(n, j, lo, hi - 1, y);
    }
  }

  /** After the round that ends with `hi'`, a shard's last index is that of its request, or the one it had. */
  lemma LastMoves(n: nat, j: nat, hi: nat, hi': nat, x: nat, batch: Batch)
    requires n > 0 && hi < hi' && LastBelow(n, j, hi, x) && batch.from <= hi && hi' <= BatchEnd(batch)
    ensures match RequestFor(batch, n, j, hi, hi')
            case Nothing => LastBelow(n, j, hi', x)
            case Waiting(r) => LastBelow(n, j, hi', r.last)
  {
    SelectEmpty(batch.ops, batch.from, n, j, hi, hi');
    if RequestFor(batch, n, j, hi, hi').Waiting? {
      var y :| hi <= y < hi' && y % n == j;
      LastOfIsLargest(n, j, hi, hi', y);
    }
  }

  lemma SendShard(log: seq<Op>, n: nat, j: nat, lo: nat, hi: nat, hi': nat, h: Shard, batch: Batch)
    requires n > 0 && lo <= hi < hi' <= |log| && ShardOk(log, n, j, lo, hi, h) && h.req.Nothing?
    requires IsBatch(log, batch.from, BatchEnd(batch), Full(batch)) && batch.from <= hi && hi' <= BatchEnd(batch)
    ensures ShardOk(log, n, j, hi, hi', h.(req := RequestFor(batch, n, j, hi, hi')))
  {
    LastMoves(n, j, hi, hi', h.replicated, batch);
    SelectSplit(log, n, j, 0, hi, hi');
    forall i | hi <= i < hi'
      ensures Item(batch.ops, batch.from, i) == Item(log, 0, i)
    {
      assert batch.ops[i - batch.from] == log[batch.from + (i - batch.from)];
    }
    SelectSame(batch.ops, batch.from, log, 0, n, j, hi, hi');
    assert Part(log, n, j, hi) + [] == Part(log, n, j, hi);
  }

  lemma SendShards(log: seq<Op>, lo: nat, hi: nat, hi': nat, shards: seq<Shard>, batch: Batch)
    requires ShardsOk(log, lo, hi, shards) && NoRequests(shards) && hi < hi' <= |log|
    requires IsBatch(log, batch.from, BatchEnd(batch), Full(batch)) && batch.from <= hi && hi' <= BatchEnd(batch)
    ensures ShardsOk(log, hi, hi', SendAll(shards, batch, hi, hi'))
  {
    var shards' := SendAll(shards, batch, hi, hi');
    forall j | 0 <= j < |shards'|
      ensures ShardOk(log, |shards'|, j, hi, hi', shards'[j])
    {
      assert ShardOk(log, |shards|, j, lo, hi, shards[j]);
      SendShard(log, |shards|, j, lo, hi, hi', shards[j], batch);
    }
  }

  /** A round stays in one big stripe and stops only at the stripe's end or the batch's. */
  lemma ChunkInOneStripe(lo: nat, end: nat, big: nat)
    requires lo < end && big > 0
    ensures var hi := ChunkEnd(lo, end, big);
            lo < hi <= end && lo / big == (hi - 1) / big && (hi == end || hi % big == 0)
  {
    var hi := ChunkEnd(lo, end, big);
    BaseOfBase(lo, big);
    SameBase(Base(lo, big), lo, big);
    SameBase(Base(lo, big), hi - 1, big);
    if hi < end {
      assert hi == (lo / big + 1) * big + 0;
      DivModUnique(hi, big, lo / big + 1, 0);
    }
  }

  /**
   * What one round sends: indices `lo` up to `hi` of one big stripe, which ends there unless the batch does; and to each
   * shard exactly its own of them, in order, with the largest as its last.
   */
  lemma RoundInOneStripe(s: State, j: nat)
    requires Inv(s) && Enabled(s, SendChunk) && j < |s.shards|
    ensures var t, n, big := Apply(s, SendChunk), |s.shards|, s.unit * |s.shards|;
            && t.cons.phase.Sending? && big > 0 && |t.shards| == n
            && var lo, hi, h := t.cons.phase.lo, t.cons.phase.hi, t.shards[j];
               && lo == s.cons.phase.hi < hi <= |s.prim.log| && lo / big == (hi - 1) / big
               && (hi == BatchEnd(Storing(s).batch) || hi % big == 0)
               && (h.req.Nothing? <==> forall y :: lo <= y < hi ==> y % n != j)
               && (h.req.Waiting? ==> h.req.r.ops == Select(s.prim.log, 0, n, j, lo, hi) && LastBelow(n, j, hi, h.req.r.last))
  {
    var batch, lo := Storing(s).batch, s.cons.phase.hi;
    MulLess(0, s.unit, |s.shards|);
    ChunkInOneStripe(lo, BatchEnd(batch), s.unit * |s.shards|);
    SendChunkKeeps(s);
    RoundSelects(s, batch, lo, ChunkEnd(lo, BatchEnd(batch), s.unit * |s.shards|), j);
    var t := Apply(s, SendChunk);
    assert ShardOk(t.prim.log, |t.shards|, j, Stable(t.cons), Reach(t.cons), t.shards[j]);
  }

  lemma RoundSelects(s: State, batch: Batch, lo: nat, hi: nat, j: nat)
    requires |s.shards| > 0 && batch.from <= lo <= hi <= BatchEnd(batch)
    requires IsBatch(s.prim.log, batch.from, BatchEnd(batch), Full(batch))
    ensures var n, req := |s.shards|, RequestFor(batch, |s.shards|, j, lo, hi);
            && (req.Nothing? <==> forall y :: lo <= y < hi ==> y % n != j)
            && (req.Waiting? ==> req.r.ops == Select(s.prim.log, 0, n, j, lo, hi))
  {
    SelectEmpty(batch.ops, batch.from, |s.shards|, j, lo, hi);
    forall i | lo <= i < hi
      ensures Item(batch.ops, batch.from, i) == Item(s.prim.log, 0, i)
    {
      assert batch.ops[i - batch.from] == s.prim.log[batch.from + (i - batch.from)];
    }
    SelectSame(batch.ops, batch.from, s.prim.log, 0, |s.shards|, j, lo, hi);
  }

  lemma SendChunkKeeps(s: State)
    requires Inv(s) && Enabled(s, SendChunk)
    ensures Inv(Apply(s, SendChunk))
  {
    var k, batch := s.cons, Storing(s).batch;
    var lo, hi := k.phase.lo, k.phase.hi;
    MulLess(0, s.unit, |s.shards|);
    var hi' := ChunkEnd(hi, BatchEnd(batch), s.unit * |s.shards|);
    PhaseKeeps(s.prim, k, Sending(hi, hi'), s.prim.ordered);
    SendShards(s.prim.log, lo, hi, hi', s.shards, batch);
    BackupsGrow(s.prim.log, s.prim.log, lo, hi, s.backs);
  }

  lemma ShardKeeps(log: seq<Op>, lo: nat, hi: nat, shards: seq<Shard>, j: nat, h: Shard)
    requires ShardsOk(log, lo, hi, shards) && j < |shards| && ShardOk(log, |shards|, j, lo, hi, h)
    ensures ShardsOk(log, lo, hi, shards[j := h])
  {
    var shards' := shards[j := h];
    forall d | 0 <= d < |shards'|
      ensures ShardOk(log, |shards'|, d, lo, hi, shards'[d])
    {
      assert ShardOk(log, |shards|, d, lo, hi, shards[d]);
    }
  }

  lemma ShardStepKeeps(s: State, step: Step)
    requires Inv(s) && Enabled(s, step) && (step.AddPrimary? || step.AddBackup? || step.Ack?)
    ensures Inv(Apply(s, step))
  {
    var log, lo, hi := s.prim.log, Stable(s.cons), Reach(s.cons);
    assert ShardOk(log, |s.shards|, step.j, lo, hi, s.shards[step.j]);
    ShardKeeps(log, lo, hi, s.shards, step.j, Apply(s, step).shards[step.j]);
  }

  /** Once nothing is outstanding, everything sent is stable. */
  lemma SendDoneKeeps(s: State)
    requires Inv(s) && Enabled(s, SendDone)
    ensures Inv(Apply(s, SendDone))
  {
    var log, lo, hi := s.prim.log, Stable(s.cons), Reach(s.cons);
    PhaseKeeps(s.prim, s.cons, Collecting(false, {}, {}), s.prim.ordered);
    forall j | 0 <= j < |s.shards|
      ensures ShardOk(log, |s.shards|, j, hi, hi, s.shards[j])
    {
      assert ShardOk(log, |s.shards|, j, lo, hi, s.shards[j]);
    }
    BackupsGrow(log, log, lo, hi, s.backs);
  }

  // ---------------------------------------------------------------- garbage collection

  lemma {:induction false} MaximaAreThere(log: seq<Op>, batch: Batch, stable: nat, k: nat)
    requires k <= |batch.ops| && BatchEnd(batch) <= stable && IsBatch(log, batch.from, BatchEnd(batch), Full(batch))
    ensures MapOk(log, stable, Maxima(batch.ops, k))
  {
    if k > 0 {
      MaximaAreThere(log, batch, stable, k - 1);
      assert batch.ops[k - 1] == log[batch.from + (k - 1)];
      assert Before(log, stable, batch.ops[k - 1]);
    }
  }

  /** What the backup's test drops is stored, unless it is the first append of a client that is not in the batch. */
  lemma DropIsSafe(log: seq<Op>, stable: nat, m: map<nat, nat>, op: Op)
    requires LogOk(log) && MapOk(log, stable, m) && Drops(m, op)
    ensures op.sq == 0 || Before(log, stable, op)
  {
    if op.sq > 0 {
      var i :| 0 <= i < stable && i < |log| && log[i] == Op(op.client, m[op.client]);
      if op != log[i] {
        assert Before(log, i, Op(log[i].client, op.sq));
        BeforeGrows(log, log, i, stable, op);
      }
    }
  }

  lemma {:induction false} KeepOrDrop(m: map<nat, nat>, ops: seq<Op>, n: nat, i: nat)
    requires i < n <= |ops|
    ensures Drops(m, ops[i]) || ops[i] in Keep(m, ops, n)
  {
    if i < n - 1 {
      KeepOrDrop(m, ops, n - 1, i);
    }
  }

  lemma PruneKeeps(log: seq<Op>, stable: nat, b: Backup, m: map<nat, nat>, top: nat)
    requires LogOk(log) && BackupOk(log, stable, b) && MapOk(log, stable, m)
    ensures BackupOk(log, stable, b.(pending := Keep(m, b.pending, |b.pending|), gc := Walking(m, top)))
  {
    var b' := b.(pending := Keep(m, b.pending, |b.pending|), gc := Walking(m, top));
    forall i | 0 <= i < b.walked
      ensures Safe(log, stable, b', b'.log[i])
    {
      var op := b.log[i];
      assert Safe(log, stable, b, op);
      if op in b.pending {
        var x :| 0 <= x < |b.pending| && b.pending[x] == op;
        KeepOrDrop(m, b.pending, |b.pending|, x);
        if Drops(m, op) { DropIsSafe(log, stable, m, op); }
      }
    }
  }

  lemma WalkKeeps(log: seq<Op>, stable: nat, b: Backup)
    requires LogOk(log) && BackupOk(log, stable, b) && b.gc.Walking? && b.walked < |b.log|
    ensures BackupOk(log, stable, Walked(b))
  {
    var op, b' := b.log[b.walked], Walked(b);
    if Drops(b.gc.m, op) {
      DropIsSafe(log, stable, b.gc.m, op);
    } else {
      assert b'.pending[|b.pending|] == op;
    }
    forall i | 0 <= i < b.walked
      ensures Safe(log, stable, b', b'.log[i])
    {
      assert Safe(log, stable, b, b.log[i]);
    }
  }

  lemma GcPrimaryKeeps(s: State)
    requires Inv(s) && Enabled(s, GcPrimary)
    ensures Inv(Apply(s, GcPrimary))
  {
    PhaseKeeps(s.prim, s.cons, s.cons.phase.(primary := true), BatchEnd(Storing(s).batch));
  }

  lemma PrunedKeeps(log: seq<Op>, stable: nat, backs: seq<Backup>, b: nat, top: nat, batch: Batch, x: Backup)
    requires LogOk(log) && BackupsOk(log, stable, backs) && b < |backs|
    requires BatchEnd(batch) <= stable && IsBatch(log, batch.from, BatchEnd(batch), Full(batch))
    requires x == Pruned(backs[b], batch, top)
    ensures BackupsOk(log, stable, backs[b := x])
  {
    MaximaAreThere(log, batch, stable, |batch.ops|);
    assert BackupOk(log, stable, backs[b]);
    PruneKeeps(log, stable, backs[b], Maxima(batch.ops, |batch.ops|), top);
    BackupKeeps(log, stable, backs, b, x);
  }

  lemma GcBeginKeeps(s: State, b: nat, top: nat)
    requires Inv(s) && s.cons.phase.Collecting? && b < |s.backs| && Storing(s).Full?
    ensures Inv(WithBackup(WithPhase(s, s.cons.phase.(asked := s.cons.phase.asked + {b})), b,
                           Pruned(s.backs[b], Storing(s).batch, top)))
  {
    PhaseKeeps(s.prim, s.cons, s.cons.phase.(asked := s.cons.phase.asked + {b}), s.prim.ordered);
    PrunedKeeps(s.prim.log, Stable(s.cons), s.backs, b, top, Storing(s).batch, Pruned(s.backs[b], Storing(s).batch, top));
  }

  lemma GcWalkKeeps(s: State, b: nat)
    requires Inv(s) && Enabled(s, GcWalk(b))
    ensures Inv(Apply(s, GcWalk(b)))
  {
    var log, stable := s.prim.log, Stable(s.cons);
    assert BackupOk(log, stable, s.backs[b]);
    WalkKeeps(log, stable, s.backs[b]);
    BackupKeeps(log, stable, s.backs, b, Walked(s.backs[b]));
  }

  lemma GcEndKeeps(s: State, b: nat)
    requires Inv(s) && Enabled(s, GcEnd(b))
    ensures Inv(Apply(s, GcEnd(b)))
  {
    var log, stable := s.prim.log, Stable(s.cons);
    var x := s.backs[b].(gc := Quiet, settled := s.backs[b].walked);
    PhaseKeeps(s.prim, s.cons, s.cons.phase.(done := s.cons.phase.done + {b}), s.prim.ordered);
    assert BackupOk(log, stable, s.backs[b]);
    forall i | 0 <= i < x.walked
      ensures Safe(log, stable, x, x.log[i])
    {
      assert Safe(log, stable, s.backs[b], s.backs[b].log[i]);
    }
    BackupKeeps(log, stable, s.backs, b, x);
  }

  // ---------------------------------------------------------------- the end of a round

  lemma ClearCons(prim: Primary, k: Cons, k': Cons)
    requires ConsOk(prim, k) && k.phase.Collecting? && k.phase.primary && k.buffers[k.storeRound % 2].Full?
    requires prim.ordered > 0
    requires k' == k.(buffers := k.buffers[k.storeRound % 2 := Empty], phase := Updating(prim.ordered - 1, {}))
    ensures ConsOk(prim, k') && Stable(k') == Stable(k)
  {
  }

  lemma ClearKeeps(s: State)
    requires Inv(s) && Enabled(s, Clear)
    ensures Inv(Apply(s, Clear))
  {
    ClearCons(s.prim, s.cons, Apply(s, Clear).cons);
  }

  lemma TellKeeps(s: State, j: nat)
    requires Inv(s) && Enabled(s, Tell(j))
    ensures Inv(Apply(s, Tell(j)))
  {
    var log, stable := s.prim.log, Stable(s.cons);
    assert ShardOk(log, |s.shards|, j, stable, stable, s.shards[j]);
    ShardKeeps(log, stable, stable, s.shards, j, s.shards[j].(global := s.cons.phase.last));
  }

  lemma StoreEndCons(prim: Primary, k: Cons, k': Cons)
    requires ConsOk(prim, k) && k.phase.Updating? && k' == k.(phase := NoStore, storeRound := k.storeRound + 1)
    ensures ConsOk(prim, k') && Stable(k') == Stable(k)
  {
    if k.fetchRound == k.storeRound + 2 {
      assert k.cuts[k.storeRound + 1] < k.cuts[k.storeRound + 1 + 1];
    }
  }

  lemma StoreEndKeeps(s: State)
    requires Inv(s) && Enabled(s, StoreEnd)
    ensures Inv(Apply(s, StoreEnd))
  {
    StoreEndCons(s.prim, s.cons, Apply(s, StoreEnd).cons);
  }

  lemma ReplicaStepKept(s: State, step: Step)
    requires Inv(s) && Enabled(s, step) && (step.Reserve? || step.Publish? || step.Register?)
    ensures Inv(Apply(s, step))
  {
    match step
    case Reserve(c, r) => ReserveKeeps(s, c, r);
    case Publish(c, r) => PublishKeeps(s, c, r);
    case Register(c, r) => RegisterKeeps(s, c, r);
  }

  lemma SendStepKeeps(s: State, step: Step)
    requires Inv(s) && Enabled(s, step)
    requires step.Fetch? || step.StoreBegin? || step.SendChunk? || step.SendDone?
    ensures Inv(Apply(s, step))
  {
    match step
    case Fetch(n) => FetchKeeps(s, n);
    case StoreBegin => StoreBeginKeeps(s);
    case SendChunk => SendChunkKeeps(s);
    case SendDone => SendDoneKeeps(s);
  }

  lemma GcStepKeeps(s: State, step: Step)
    requires Inv(s) && Enabled(s, step)
    requires step.GcPrimary? || step.GcBegin? || step.GcWalk? || step.GcEnd?
    ensures Inv(Apply(s, step))
  {
    match step
    case GcPrimary => GcPrimaryKeeps(s);
    case GcBegin(b, top) => GcBeginKeeps(s, b, top);
    case GcWalk(b) => GcWalkKeeps(s, b);
    case GcEnd(b) => GcEndKeeps(s, b);
  }

  lemma EndStepKeeps(s: State, step: Step)
    requires Inv(s) && Enabled(s, step) && (step.Clear? || step.Tell? || step.StoreEnd?)
    ensures Inv(Apply(s, step))
  {
    match step
    case Clear => ClearKeeps(s);
    case Tell(j) => TellKeeps(s, j);
    case StoreEnd => StoreEndKeeps(s);
  }

  lemma StepKeeps(s: State, step: Step)
    requires Inv(s) && Enabled(s, step)
    ensures Inv(Apply(s, step))
  {
    if step.Fetch? || step.StoreBegin? || step.SendChunk? || step.SendDone? {
      SendStepKeeps(s, step);
    } else if step.AddPrimary? || step.AddBackup? || step.Ack? {
      ShardStepKeeps(s, step);
    } else if step.GcPrimary? || step.GcBegin? || step.GcWalk? || step.GcEnd? {
      GcStepKeeps(s, step);
    } else if step.Clear? || step.Tell? || step.StoreEnd? {
      EndStepKeeps(s, step);
    } else if step.Reserve? || step.Publish? || step.Register? {
      ReplicaStepKept(s, step);
    } else {
      ClientStepKeeps(s, step);
    }
  }

  // ---------------------------------------------------------------- every run

  predicate StepTo(s: State, step: Step, t: State) {
    |s.cons.buffers| == 2 && Enabled(s, step) && t == Apply(s, step)
  }

  predicate IsRun(states: seq<State>, steps: seq<Step>) {
    && |states| == |steps| + 1 && Init(states[0])
    && forall k {:trigger steps[k]} :: 0 <= k < |steps| ==> StepTo(states[k], steps[k], states[k + 1])
  }

  lemma {:induction false} RunKeeps(states: seq<State>, steps: seq<Step>, k: nat)
    requires IsRun(states, steps) && k < |states|
    ensures Inv(states[k])
  {
    if k == 0 {
      InitKeeps(states[0]);
    } else {
      RunKeeps(states, steps, k - 1);
      assert StepTo(states[k - 1], steps[k - 1], states[k]);
      StepKeeps(states[k - 1], steps[k - 1]);
    }
  }
}

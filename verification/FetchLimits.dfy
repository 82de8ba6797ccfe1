/**
 * For every ring size, a run of the primary in which a fetch takes bytes of an old entry for the header of one that is
 * still in flight, and the watermarks are set to what it decoded: off every boundary, with the index fallen back.
 */
module FetchLimits {
  import opened Arith
  import opened Codec
  import opened Batches
  import opened Ring
  import opened RingReads
  import opened FetchExact
  import opened Fetching
  import RingProofs
  import L = RingLimits

  // ---------------------------------------------------------------- trails of moves

  predicate IsTrail(nodes: seq<Node>, moves: seq<Move>) {
    && |nodes| == |moves| + 1
    && forall k {:trigger moves[k]} :: 0 <= k < |moves| ==> Takes(nodes[k], moves[k], nodes[k + 1])
  }

  ghost predicate Leads(n: Node, n': Node) {
    exists nodes, moves :: IsTrail(nodes, moves) && nodes[0] == n && nodes[|moves|] == n'
  }

  lemma Wait(n: Node)
    ensures Leads(n, n)
  {
    var moves: seq<Move> := [];
    assert IsTrail([n], moves) && [n][0] == n && [n][|moves|] == n;
  }

  lemma Further(n: Node, n1: Node, move: Move, n2: Node)
    requires Leads(n, n1) && Takes(n1, move, n2)
    ensures Leads(n, n2)
  {
    var nodes, moves :| IsTrail(nodes, moves) && nodes[0] == n && nodes[|moves|] == n1;
    var nodes', moves' := nodes + [n2], moves + [move];
    forall k | 0 <= k < |moves'|
      ensures Takes(nodes'[k], moves'[k], nodes'[k + 1])
    {
      if k < |moves| {
        assert Takes(nodes[k], moves[k], nodes[k + 1]);
      }
    }
    assert IsTrail(nodes', moves') && nodes'[0] == n && nodes'[|moves'|] == n2;
  }

  lemma {:induction false} FollowTrail(n: Node, n1: Node, nodes: seq<Node>, moves: seq<Move>, k: nat)
    requires Leads(n, n1) && IsTrail(nodes, moves) && nodes[0] == n1 && k <= |moves|
    ensures Leads(n, nodes[k])
  {
    if k > 0 {
      FollowTrail(n, n1, nodes, moves, k - 1);
      assert Takes(nodes[k - 1], moves[k - 1], nodes[k]);
      Further(n, nodes[k - 1], moves[k - 1], nodes[k]);
    }
  }

  lemma Through(n: Node, n1: Node, n2: Node)
    requires Leads(n, n1) && Leads(n1, n2)
    ensures Leads(n, n2)
  {
    var nodes, moves :| IsTrail(nodes, moves) && nodes[0] == n1 && nodes[|moves|] == n2;
    FollowTrail(n, n1, nodes, moves, |moves|);
  }

  // ---------------------------------------------------------------- the ring's paths as trails

  /** One step of the ring that leaves the watermark alone. */
  lemma LiftStep(n: Node, step: Step, t: State)
    requires Sound(n.ring) && RingProofs.StepTo(n.ring, step, t) && t.orderedIdxWatermk == n.ring.orderedIdxWatermk
    ensures Leads(n, n.(ring := t))
  {
    Wait(n);
    if step.Advance? {
      assert n.(ring := t) == n;
    } else {
      Further(n, n, Act(step), n.(ring := t));
    }
  }

  lemma {:induction false} LiftPath(n: Node, careful: bool, states: seq<State>, steps: seq<Step>, i: nat)
    requires L.IsPath(careful, states, steps) && states[0] == n.ring && Sound(n.ring) && i <= |steps|
    requires states[i].orderedIdxWatermk == n.ring.orderedIdxWatermk
    ensures Leads(n, n.(ring := states[i]))
  {
    if i == 0 {
      Wait(n);
    } else {
      L.PathSound(careful, states, steps, i - 1);
      L.PathLater(careful, states, steps, i - 1);
      assert L.StepOk(careful, states[i - 1], steps[i - 1], states[i]);
      RingProofs.StepLater(states[i - 1], steps[i - 1]);
      LiftPath(n, careful, states, steps, i - 1);
      LiftStep(n.(ring := states[i - 1]), steps[i - 1], states[i]);
      Through(n, n.(ring := states[i - 1]), n.(ring := states[i]));
    }
  }

  /** Where the ring can go without moving the watermark, the primary can. */
  lemma Lift(n: Node, t: State)
    requires Sound(n.ring) && L.Reaches(true, n.ring, t) && t.orderedIdxWatermk == n.ring.orderedIdxWatermk
    ensures Leads(n, n.(ring := t))
  {
    var states, steps :| L.IsPath(true, states, steps) && states[0] == n.ring && states[|steps|] == t;
    LiftPath(n, true, states, steps, |steps|);
  }

  // ---------------------------------------------------------------- fetching all there is

  /** Nothing waits, the next fetch begins at the watermark, and fetches are unlimited. */
  predicate Idling(n: Node) {
    n.maxFetch == 0 && n.range.Unread? && n.waiting == [] && n.from == n.ring.orderedWatermk
  }

  lemma AllIsFetched(s: State)
    requires Inv(s) && forall i :: s.orderedIdxWatermk <= i < |s.recs| ==> Settled(s.rg, s.recs[i])
    ensures Decodes(s, s.orderedWatermk, s.sequencer, Entries(s, s.orderedIdxWatermk, |s.recs|))
  {
    var a := s.orderedIdxWatermk;
    var m := FetchEnd(s, a, s.sequencer);
    BeginAboveWatermark(s, a);
    if m < |s.recs| {
      RingProofs.StartsIncrease(s, m, |s.recs|);
    }
    FetchIsLongestRun(s, a, s.sequencer);
  }

  /** What an unlimited fetch of `run` leaves. */
  function AfterFetch(s: State, run: seq<Entry>): Node
    requires run != []
  {
    Node(s, 0, s.orderedWatermk + TotalSpan(run), Unread, [WordsOf(s.orderedWatermk, run)])
  }

  lemma FetchTakes(n: Node, s: State, run: seq<Entry>)
    requires n == Node(s, 0, s.orderedWatermk, Range(s.orderedWatermk, s.sequencer), []) && run != []
    requires s.orderedWatermk < s.sequencer && Decodes(s, s.orderedWatermk, s.sequencer, run)
    ensures Takes(n, Fetch(run), AfterFetch(s, run))
  {
    assert [] + [WordsOf(s.orderedWatermk, run)] == [WordsOf(s.orderedWatermk, run)];
  }

  /** Reading the range and fetching `run`. */
  lemma FetchOnce(n: Node, s: State, run: seq<Entry>)
    requires n == Node(s, 0, s.orderedWatermk, Unread, []) && run != []
    requires s.orderedWatermk < s.sequencer && Decodes(s, s.orderedWatermk, s.sequencer, run)
    ensures Leads(n, AfterFetch(s, run))
  {
    Wait(n);
    var n1 := Node(s, 0, s.orderedWatermk, Range(s.orderedWatermk, s.sequencer), []);
    Further(n, n, Look, n1);
    FetchTakes(n1, s, run);
    Further(n, n1, Fetch(run), AfterFetch(s, run));
  }

  /** Writing its words. */
  lemma CollectOnce(s: State, run: seq<Entry>, w: Words) returns (n: Node)
    requires run != [] && w == WordsOf(s.orderedWatermk, run)
    ensures n == Node(s.(orderedWatermk := w.end, orderedIdxWatermk := w.idx), 0, w.end, Unread, [])
    ensures Takes(AfterFetch(s, run), Collect, n)
  {
    n := Node(s.(orderedWatermk := w.end, orderedIdxWatermk := w.idx), 0, w.end, Unread, []);
  }

  /** When all entries are settled, a fetch and its watermark write order them all. */
  lemma OrderAll(n: Node, t: State)
    requires Inv(n.ring) && Idling(n) && n.ring.orderedIdxWatermk < |n.ring.recs|
    requires forall i :: n.ring.orderedIdxWatermk <= i < |n.ring.recs| ==> Settled(n.ring.rg, n.ring.recs[i])
    requires t == n.ring.(orderedWatermk := n.ring.sequencer, orderedIdxWatermk := |n.ring.recs|)
    ensures Leads(n, n.(ring := t, from := t.orderedWatermk))
  {
    var s, a := n.ring, n.ring.orderedIdxWatermk;
    AllIsFetched(s);
    FetchedSpan(s, a, |s.recs|);
    RingProofs.StartsIncrease(s, a, |s.recs|);
    assert RecSane(s, |s.recs| - 1);
    var run := Entries(s, a, |s.recs|);
    FetchOnce(n, s, run);
    var n' := CollectOnce(s, run, Words(s.sequencer, |s.recs|));
    Further(n, AfterFetch(s, run), Collect, n');
  }

  // ---------------------------------------------------------------- moving the sequencer on

  /** Everything is ordered, and the ring was reached without passing an entry that is still to be copied. */
  ghost predicate Rested(n: Node, s0: State, p: nat) {
    Idling(n) && L.AllOrdered(n.ring, p) && L.Roomy(n.ring) && L.Reaches(true, s0, n.ring)
  }

  lemma AppendAndOrder(n: Node, s0: State, p: nat, k: nat) returns (n': Node)
    requires Init(s0) && Rested(n, s0, p) && k % 4 == 0 && k <= 64 && n.ring.indexer < TWO_64
    ensures Leads(n, n') && Rested(n', s0, p) && L.More(n.ring, n'.ring)
    ensures n'.ring.recs == n.ring.recs + [Rec(n.ring.sequencer, Final(n.ring, L.Zeros(k, 0)), Done)]
    ensures n'.ring.sequencer == n.ring.sequencer + META_DATA_SIZE + k && n'.ring.indexer == n.ring.indexer + 1
  {
    var s, e := n.ring, L.Zeros(k, 0);
    L.ZerosFit(k, 0);
    var s1 := L.AppendPath(s, p, e);
    L.Join(true, s0, s, s1);
    L.CarefulIsSafe(s0, s1);
    Lift(n, s1);
    assert Settled(s1.rg, s1.recs[|s.recs|]);
    var t := Apply(s1, Advance(|s1.recs|));
    OrderAll(n.(ring := s1), t);
    n' := n.(ring := t, from := t.orderedWatermk);
    Through(n, n.(ring := s1), n');
    L.Next(true, s0, s1, Advance(|s1.recs|), t);
    RingProofs.StepSound(s1, Advance(|s1.recs|));
  }

  /** `n'` comes after `n` with `d` more bytes appended and ordered. */
  ghost predicate PaddedBy(n: Node, n': Node, d: nat) {
    && Leads(n, n') && L.More(n.ring, n'.ring)
    && n'.ring.sequencer == n.ring.sequencer + d && n'.ring.indexer <= n.ring.indexer + d
  }

  lemma PaddedOn(n: Node, n1: Node, n2: Node, d: nat, d': nat)
    requires PaddedBy(n, n1, d) && PaddedBy(n1, n2, d')
    ensures PaddedBy(n, n2, d + d')
  {
    Through(n, n1, n2);
  }

  lemma PadOnce(n: Node, s0: State, p: nat, d: nat) returns (n': Node)
    requires Init(s0) && Rested(n, s0, p) && d % 4 == 0 && META_DATA_SIZE <= d < 2 * META_DATA_SIZE
    requires n.ring.indexer < TWO_64
    ensures Rested(n', s0, p) && PaddedBy(n, n', d)
  {
    n' := AppendAndOrder(n, s0, p, d - META_DATA_SIZE);
  }

  lemma {:induction false} Pad(n: Node, s0: State, p: nat, d: nat) returns (n': Node)
    requires Init(s0) && Rested(n, s0, p) && d % 4 == 0 && (d == 0 || META_DATA_SIZE <= d) && n.ring.indexer + d < TWO_64
    ensures Rested(n', s0, p) && PaddedBy(n, n', d)
    decreases d
  {
    if d == 0 {
      Wait(n);
      n' := n;
    } else if d < 2 * META_DATA_SIZE {
      n' := PadOnce(n, s0, p, d);
    } else {
      var rest := d - META_DATA_SIZE;
      assert rest % 4 == 0;
      var n1 := PadOnce(n, s0, p, META_DATA_SIZE);
      n' := Pad(n1, s0, p, rest);
      PaddedOn(n, n1, n', META_DATA_SIZE, rest);
    }
  }

  // ---------------------------------------------------------------- the bytes that mislead the fetch

  lemma {:induction false} ZeroBytes(x: seq<byte>)
    requires FromLittleEndian(x) == 0
    ensures forall i :: 0 <= i < |x| ==> x[i] == 0
  {
    if x != [] {
      ZeroBytes(x[1..]);
      forall i | 0 <= i < |x|
        ensures x[i] == 0
      {
        assert i > 0 ==> x[i] == x[1..][i - 1];
      }
    }
  }

  lemma {:induction false} ZerosAreZero(x: seq<byte>)
    requires forall i :: 0 <= i < |x| ==> x[i] == 0
    ensures FromLittleEndian(x) == 0
  {
    if x != [] {
      ZerosAreZero(x[1..]);
    }
  }

  /** The first entry: 32 zero bytes of payload, and index 0. */
  predicate First(e: Entry) {
    e.clientSeq == 0 && e.logIdx == 0 && e.size == META_DATA_SIZE && forall i :: 0 <= i < |e.data| ==> e.data[i] == 0
  }

  /** Its bytes: zeros from the client sequence to the index, the size, and the zero payload. */
  lemma FirstBytes(mem: seq<byte>, e: Entry)
    requires Holds(mem, 0, e) && First(e)
    ensures forall p :: 8 <= p < 24 ==> mem[p] == 0
    ensures mem[24] == 32 && mem[25] == 0
    ensures forall p :: 32 <= p < 64 ==> mem[p] == 0
  {
    assert Get(mem, 0, 1) == Value(e, 1) && Get(mem, 0, 2) == Value(e, 2) && Get(mem, 0, 3) == Value(e, 3);
    ZeroBytes(mem[8..16]);
    ZeroBytes(mem[16..24]);
    assert forall p :: 8 <= p < 16 ==> mem[p] == mem[8..16][p - 8];
    assert forall p :: 16 <= p < 24 ==> mem[p] == mem[16..24][p - 16];
    BytesRoundTrip(mem[24..28]);
    assert mem[24] == mem[24..28][0] == LittleEndian(32, 4)[0];
    assert mem[25] == mem[24..28][1] == LittleEndian(32, 4)[1] == LittleEndian(0, 3)[0];
    assert forall p :: 32 <= p < 64 ==> mem[p] == mem[32..64][p - 32];
  }

  /** The fetch reads that entry four bytes too late: its size as a flag, half its index as a size. */
  lemma Misread(b: seq<byte>, mem: seq<byte>, e: Entry) returns (got: Entry)
    requires |b| == 64 && Holds(mem, 0, e) && First(e) && Agree(mem, b, 0, 60, 4)
    ensures LongestRun(b, 64, [got]) && got.logIdx == 0 && got.flags == 32 && TotalSpan([got]) == META_DATA_SIZE
  {
    FirstBytes(mem, e);
    assert forall i :: 12 <= i < 28 ==> b[i] == mem[i - 4] == 0;
    ZerosAreZero(b[16..24]);
    ZerosAreZero(b[24..28]);
    got := Decoded(b, 0, 0, 0);
    assert b[28] == mem[24] && b[29] == mem[25];
    FlagIsSet(b);
    assert b[60] == mem[56] && b[61] == mem[57];
    ZerosAreZero(b[60..62]);
    WholeNext(b, 64, [], got, 0);
    assert [] + [got] == [got];
    assert GetFlagFromBuf(b, 32) == 0;
  }

  lemma FlagIsSet(b: seq<byte>)
    requires 30 <= |b| && b[28] == 32 && b[29] == 0
    ensures FromLittleEndian(b[28..30]) == 32
  {
    var x := b[28..30];
    assert x[1..] == [0];
    assert FromLittleEndian([0]) == 0;
  }

  // ---------------------------------------------------------------- the run

  /** The primary with an empty ring of that size. */
  function Empty(rg: nat): Node {
    Node(L.Fresh0(rg), 0, 0, Unread, [])
  }

  /** Four bytes before the end of the ring everything is ordered; entry 0 is still there, at the front. */
  predicate NearEnd(s: State, rg: nat) {
    && Inv(s) && s.rg == rg && SLACK + 256 <= rg && s.sequencer == s.orderedWatermk == rg - 4
    && |s.recs| == s.orderedIdxWatermk > 1 && Holds(s.mem, 0, s.recs[0].entry) && First(s.recs[0].entry)
  }

  lemma FirstIsThere(s: State, rec: Rec)
    requires Inv(s) && |s.recs| > 0 && s.recs[0] == rec && First(rec.entry) && rec.start == 0 && rec.stage.Done?
    requires META_DATA_SIZE * 3 < s.sequencer <= s.rg
    ensures Holds(s.mem, 0, rec.entry) && |s.recs| > 1
  {
    assert RecOk(s.rg, s.mem, s.recs[0]) && RecSane(s, 0);
    HeldSize(s.mem, 0, rec.entry);
  }

  lemma IsNearEnd(s: State, rec: Rec, rg: nat)
    requires Inv(s) && s.rg == rg && SLACK + 256 <= rg && L.AllOrdered(s, 1) && s.sequencer == rg - 4
    requires |s.recs| > 0 && s.recs[0] == rec && First(rec.entry) && rec.start == 0 && rec.stage.Done?
    ensures NearEnd(s, rg)
  {
    FirstIsThere(s, rec);
  }

  /** The run up to there. */
  lemma ToNearEnd(rg: nat) returns (n: Node)
    requires rg % 4 == 0 && SLACK + 256 <= rg && 4 * rg < TWO_64
    ensures Starts(Empty(rg)) && Leads(Empty(rg), n) && Rested(n, L.Fresh0(rg), 1) && NearEnd(n.ring, rg)
    ensures n.ring.threads == [Idle, Idle] && n.ring.maxSpan == 96 && n.ring.indexer <= rg
  {
    var s0, n0 := L.Fresh0(rg), Empty(rg);
    L.Fresh0Starts(rg);
    L.Stay(true, s0);
    var n1 := AppendAndOrder(n0, s0, 1, META_DATA_SIZE);
    n := PadToNearEnd(n1, s0, rg);
    Through(n0, n1, n);
    L.CarefulIsSafe(s0, n.ring);
    IsNearEnd(n.ring, n1.ring.recs[0], rg);
  }

  lemma PadToNearEnd(n1: Node, s0: State, rg: nat) returns (n: Node)
    requires Init(s0) && Rested(n1, s0, 1) && rg % 4 == 0 && n1.ring.rg == rg && n1.ring.indexer == 1
    requires SLACK + 256 <= rg && 4 * rg < TWO_64 && n1.ring.sequencer == 2 * META_DATA_SIZE
    ensures Rested(n, s0, 1) && Leads(n1, n) && L.More(n1.ring, n.ring)
    ensures n.ring.sequencer == rg - 4 && n.ring.indexer <= rg
  {
    var d := rg - 4 - 2 * META_DATA_SIZE;
    assert d % 4 == 0;
    n := Pad(n1, s0, 1, d);
  }

  /** What the fetch reads around the end of the ring. */
  lemma SeamAgrees(rg: nat, mem: seq<byte>, b: seq<byte>)
    requires 64 <= rg <= |mem| && b == TwoPieces(rg, mem, rg - 4, rg + 60)
    ensures Agree(mem, b, 0, 60, 4)
  {
    forall k | 0 <= k < 60
      ensures mem[k] == b[k + 4]
    {
      DivModUnique(rg + k, rg, 1, k);
      TwoPiecesAt(rg, mem, rg - 4, rg + 60, rg + k);
    }
  }

  /** What the fetch decodes once an entry is reserved there. */
  lemma MisreadSeam(mem: seq<byte>, m: seq<byte>, rg: nat, first: Entry) returns (got: Entry)
    requires 128 <= rg && rg + 64 <= |mem| && m == SetFlag(mem, rg - 4, 0) && Holds(mem, 0, first) && First(first)
    ensures LongestRun(TwoPieces(rg, m, rg - 4, rg + 60), 64, [got]) && got.logIdx == 0 && got.flags == 32
    ensures TotalSpan([got]) == META_DATA_SIZE
  {
    HoldsFrame(mem, m, 0, 64, 0, first);
    var b := TwoPieces(rg, m, rg - 4, rg + 60);
    SeamAgrees(rg, m, b);
    got := Misread(b, m, first);
  }

  /** Another appender has reserved the next entry and stalls. */
  predicate Stalled(s: State, t: State, rg: nat) {
    && t.rg == rg == s.rg && |t.mem| == |s.mem| && t.orderedIdxWatermk == s.orderedIdxWatermk
    && t.orderedWatermk == s.orderedWatermk == rg - 4 && t.sequencer == rg + 60
    && |t.recs| == |s.recs| + 1 && t.recs[|s.recs|].start == rg - 4
    && rg + SAFE_RG_SIZE == |s.mem| && t.mem == SetFlag(s.mem, rg - 4, 0)
  }

  lemma CanStall(s: State, rg: nat, e: Entry)
    requires NearEnd(s, rg) && s.threads == [Idle, Idle] && s.maxSpan == 96 && s.indexer < TWO_64
    requires Representable(e) && e.flags == 0 && Span(e) == GetSize(e) == 64
    ensures L.CanAppend(s, 0, e)
  {
  }

  lemma StalledThere(s: State, rg: nat, e: Entry, off: nat, t: State)
    requires NearEnd(s, rg) && |s.threads| == 2 && Span(e) == 64 && off == rg - 4
    requires t == L.Partway(s, 0, e, Reserved, SetFlag(s.mem, off, 0))
    ensures Stalled(s, t, rg)
  {
  }

  lemma Stall(s: State, rg: nat, e: Entry) returns (t: State)
    requires NearEnd(s, rg) && s.threads == [Idle, Idle] && s.maxSpan == 96 && s.indexer < TWO_64
    requires Representable(e) && e.flags == 0 && Span(e) == GetSize(e) == 64
    ensures L.Reaches(true, s, t) && Stalled(s, t, rg)
  {
    DivModUnique(rg - 4, rg, 0, rg - 4);
    CanStall(s, rg, e);
    t := L.ReserveAt(s, 0, e, rg - 4);
    StalledThere(s, rg, e, rg - 4, t);
  }

  /** Only the last two boundaries are that far, and neither is there. */
  lemma OffEveryBoundary(s: State, rg: nat, k: nat)
    requires Sound(s) && s.sequencer == rg + 60 && rg >= 4 && |s.recs| > 0 && k <= |s.recs|
    requires s.recs[|s.recs| - 1].start == rg - 4
    ensures StartAt(s, k) != rg + 28
  {
    if k + 1 < |s.recs| {
      RingProofs.StartsIncrease(s, k, |s.recs| - 1);
    }
  }

  /** The watermarks are off every boundary, and the index is smaller than before. */
  predicate Astray(s: State, t: State) {
    && t.orderedIdxWatermk == 1 < s.orderedIdxWatermk
    && forall k {:trigger StartAt(t, k)} :: 0 <= k <= |t.recs| ==> StartAt(t, k) != t.orderedWatermk
  }

  lemma GoesAstray(t: State, u: State, rg: nat)
    requires Sound(t) && t.sequencer == rg + 60 && rg >= 4 && |t.recs| > 0 && t.recs[|t.recs| - 1].start == rg - 4
    requires u == t.(orderedWatermk := rg + 28, orderedIdxWatermk := 1) && t.orderedIdxWatermk > 1
    ensures Astray(t, u)
  {
    forall k | 0 <= k <= |u.recs|
      ensures StartAt(u, k) != u.orderedWatermk
    {
      OffEveryBoundary(t, rg, k);
    }
  }

  /** A ring in which the fetch that comes next decodes `got`. */
  predicate Primed(t: State, rg: nat, got: Entry) {
    && Sound(t) && t.sequencer == rg + 60 && t.orderedWatermk == rg - 4 && t.orderedIdxWatermk > 1 && rg >= 4
    && |t.recs| > 0 && t.recs[|t.recs| - 1].start == rg - 4 && Decodes(t, rg - 4, rg + 60, [got])
    && got.logIdx == 0 && got.flags == 32 && TotalSpan([got]) == META_DATA_SIZE
  }

  lemma IsPrimed(s: State, t: State, rg: nat) returns (got: Entry)
    requires NearEnd(s, rg) && Stalled(s, t, rg) && Sound(t)
    ensures Primed(t, rg, got)
  {
    got := MisreadSeam(s.mem, t.mem, rg, s.recs[0].entry);
  }

  lemma Prime(rg: nat) returns (t: State, got: Entry)
    requires rg % 4 == 0 && SLACK + 256 <= rg && 4 * rg < TWO_64
    ensures Starts(Empty(rg)) && Leads(Empty(rg), Node(t, 0, rg - 4, Unread, [])) && Primed(t, rg, got)
  {
    var n := ToNearEnd(rg);
    L.ZerosFit(META_DATA_SIZE, 0);
    t := Stall(n.ring, rg, L.Zeros(META_DATA_SIZE, 0));
    Lift(n, t);
    Through(Empty(rg), n, n.(ring := t));
    L.ReachesSound(true, n.ring, t);
    got := IsPrimed(n.ring, t, rg);
  }

  /**
   * For every ring size: a run in which a fetch decodes an entry that was never appended, and the watermark write that
   * follows sets the bytes to no boundary of the ring and the index back to 1.
   */
  lemma MisreadRun(rg: nat) returns (n: Node, n': Node, got: Entry)
    requires rg % 4 == 0 && SLACK + 256 <= rg && 4 * rg < TWO_64
    ensures Starts(Empty(rg)) && Leads(Empty(rg), n) && Takes(n, Collect, n') && Astray(n.ring, n'.ring)
    ensures Decodes(n.ring, rg - 4, rg + 60, [got]) && forall i :: 0 <= i < |n.ring.recs| ==> n.ring.recs[i].entry != got
  {
    var t;
    t, got := Prime(rg);
    var n1 := Node(t, 0, rg - 4, Unread, []);
    FetchOnce(n1, t, [got]);
    n := AfterFetch(t, [got]);
    Through(Empty(rg), n1, n);
    n' := CollectOnce(t, [got], Words(rg + 28, 1));
    NeverAppended(t, got);
    GoesAstray(t, n'.ring, rg);
  }

  lemma NeverAppended(s: State, got: Entry)
    requires Sound(s) && got.flags == 32
    ensures forall i :: 0 <= i < |s.recs| ==> s.recs[i].entry != got
  {
    forall i | 0 <= i < |s.recs|
      ensures s.recs[i].entry != got
    {
      assert RecSane(s, i);
    }
  }
}

/**
 * The primary as the consensus side drives it. Its watermarks are written remotely, and nothing guards them but what the
 * fetches decoded: the words of a batch are where its last entry ends and that entry's index plus one.
 */
module Fetching {
  import opened Arith
  import opened Codec
  import opened Batches
  import opened Ring
  import opened RingReads
  import opened FetchExact
  import RingProofs
  import RingLimits
  import Gc

  // ---------------------------------------------------------------- the fetches and the watermark writes

  /** What the read of the range returned, until the bytes are read. */
  datatype Range = Unread | Range(ordered: nat, end: nat)

  /** The two words that a batch makes the primary's watermarks. */
  datatype Words = Words(end: nat, idx: nat)

  /** The primary's ring, where the next fetch begins, the range it has read, and the words of batches that wait. */
  datatype Node = Node(ring: State, maxFetch: nat, from: nat, range: Range, waiting: seq<Words>)

  datatype Move =
    | Act(step: Step)         // an appender goes on
    | Look                    // the fetch reads the range
    | Fetch(run: seq<Entry>)  // it reads the bytes, which decode to `run`, into a free buffer
    | Collect                 // the oldest batch is stored, and its words are written to the primary

  /** The fetch begins where the last one ended, or at the ordered watermark if that is further. */
  function Begin(n: Node): (r: nat)
    requires n.range.Range?
    ensures n.from <= r && n.range.ordered <= r && (r == n.from || r == n.range.ordered)
  {
    if n.from > n.range.ordered then n.from else n.range.ordered
  }

  /** Where the bytes that the fetch reads end. */
  function To(n: Node): nat
    requires n.range.Range?
  {
    Limit(Begin(n), n.range.end, n.maxFetch)
  }

  function WordsOf(begin: nat, run: seq<Entry>): Words
    requires run != []
  {
    Words(begin + TotalSpan(run), run[|run| - 1].logIdx + 1)
  }

  /** These are the words that `ProcessFetchedEntries` makes of the batch with its sentinel. */
  method TellPrimary(begin: nat, run: seq<Entry>) returns (w: Words)
    requires run != []
    ensures w == WordsOf(begin, run)
  {
    var ids, _ := Gc.ProcessFetchedEntries(run + [Sentinel(begin + TotalSpan(run))], true);
    w := Words(ids[0].0, ids[1].0);
  }

  predicate Takes(n: Node, move: Move, n': Node) {
    match move
    case Act(step) => !step.Advance? && RingProofs.StepTo(n.ring, step, n'.ring) && n' == n.(ring := n'.ring)
    case Look => n.range.Unread? && n' == n.(range := Range(n.ring.orderedWatermk, n.ring.sequencer))
    case Fetch(run) =>
      && n.range.Range? && |n.waiting| < 2
      && (if n.from < n.range.end then Decodes(n.ring, Begin(n), To(n), run) else run == [])
      && n' == if run == [] then n.(range := Unread)
               else n.(range := Unread, from := n.from + TotalSpan(run), waiting := n.waiting + [WordsOf(Begin(n), run)])
    case Collect =>
      && n.waiting != []
      && n' == n.(ring := n.ring.(orderedWatermk := n.waiting[0].end, orderedIdxWatermk := n.waiting[0].idx),
                  waiting := n.waiting[1..])
  }

  predicate Starts(n: Node) {
    Init(n.ring) && n.from == 0 && n.range.Unread? && n.waiting == []
  }

  /** Any run of the primary's appenders, the fetches and the watermark writes. */
  predicate SourceRun(nodes: seq<Node>, moves: seq<Move>) {
    && |nodes| == |moves| + 1 && Starts(nodes[0])
    && forall k {:trigger moves[k]} :: 0 <= k < |moves| ==> Takes(nodes[k], moves[k], nodes[k + 1])
  }

  // ---------------------------------------------------------------- what steady fetches keep

  predicate Boundary(s: State, w: Words) {
    w.idx <= |s.recs| && w.end == StartAt(s, w.idx)
  }

  /** The entry at which the next fetch begins. */
  function Cut(n: Node): nat {
    if n.waiting == [] then n.ring.orderedIdxWatermk else n.waiting[|n.waiting| - 1].idx
  }

  /** The words that wait are boundaries in ascending order, at or above the watermark. */
  predicate Queued(s: State, ws: seq<Words>) {
    && |ws| <= 2
    && (forall i :: 0 <= i < |ws| ==> Boundary(s, ws[i]) && s.orderedIdxWatermk <= ws[i].idx)
    && (|ws| == 2 ==> ws[0].idx <= ws[1].idx)
  }

  predicate AllShown(s: State, k: nat) {
    k <= |s.recs| && forall i {:trigger Shown(s.recs[i])} :: 0 <= i < k ==> Shown(s.recs[i])
  }

  predicate RangeOk(n: Node) {
    n.range.Range? ==> n.range.ordered <= n.from && n.range.end <= n.ring.sequencer
  }

  predicate Sane(n: Node) {
    && Inv(n.ring) && Queued(n.ring, n.waiting) && AllShown(n.ring, Cut(n)) && n.from == StartAt(n.ring, Cut(n))
    && RangeOk(n)
  }

  /** A copy that is not late, and a fetch that stops or reads on in step at the first entry past the settled ones. */
  predicate SteadyMove(n: Node, move: Move) {
    match move
    case Act(step) => Shape(n.ring) && Enabled(n.ring, step) && Timely(n.ring, step)
    case Fetch(_) =>
      n.range.Range? && n.from < n.range.end ==>
        Shape(n.ring) && Cut(n) <= |n.ring.recs| && Steady(n.ring, FetchEnd(n.ring, Cut(n), To(n)), To(n))
    case _ => true
  }

  lemma StartIsSane(n: Node)
    requires Starts(n)
    ensures Sane(n)
  {
    RingProofs.InitKeeps(n.ring);
  }

  lemma StillQueued(s: State, t: State, ws: seq<Words>)
    requires Sound(s) && Sound(t) && RingProofs.Later(s, t) && s.orderedIdxWatermk == t.orderedIdxWatermk && Queued(s, ws)
    ensures Queued(t, ws)
  {
    forall i | 0 <= i < |ws|
      ensures Boundary(t, ws[i])
    {
      RingProofs.SameBoundary(s, t, ws[i].idx);
    }
  }

  lemma StillShown(s: State, t: State, k: nat)
    requires s.rg > 0 && RingProofs.Later(s, t) && AllShown(s, k)
    ensures AllShown(t, k)
  {
    forall i | 0 <= i < k
      ensures Shown(t.recs[i])
    {
      assert Shown(s.recs[i]);
    }
  }

  lemma SequencerGrows(s: State, t: State)
    requires Sound(s) && Sound(t) && RingProofs.Later(s, t)
    ensures s.sequencer <= t.sequencer
  {
    RingProofs.SameBoundary(s, t, |s.recs|);
    RingProofs.WatermarkBelow(s, |s.recs|);
    if |s.recs| < |t.recs| {
      RingProofs.StartsIncrease(t, |s.recs|, |t.recs|);
    }
  }

  lemma ActSane(n: Node, step: Step, n': Node)
    requires Sane(n) && Takes(n, Act(step), n') && Timely(n.ring, step)
    ensures Sane(n')
  {
    RingProofs.StepKeeps(n.ring, step);
    RingProofs.StepLater(n.ring, step);
    StillQueued(n.ring, n'.ring, n.waiting);
    StillShown(n.ring, n'.ring, Cut(n));
    RingProofs.SameBoundary(n.ring, n'.ring, Cut(n));
    SequencerGrows(n.ring, n'.ring);
  }

  lemma LookSane(n: Node, n': Node)
    requires Sane(n) && Takes(n, Look, n')
    ensures Sane(n')
  {
    RingProofs.WatermarkBelow(n.ring, Cut(n));
  }

  /** The arguments of the fetch: it begins at the entry after the last one fetched. */
  lemma FetchInRange(n: Node)
    requires Sane(n) && n.range.Range? && n.from < n.range.end
    ensures Begin(n) == n.from && InRange(n.ring, Cut(n), To(n))
  {
  }

  lemma DecodesOne(s: State, begin: nat, limit: nat, x: seq<Entry>, y: seq<Entry>)
    requires Decodes(s, begin, limit, x) && Decodes(s, begin, limit, y)
    ensures x == y
  {
    LongestRunIsUnique(TwoPieces(s.rg, s.mem, begin, limit), limit - begin, x, y, 0);
  }

  /** What a steady fetch decodes ends at a boundary. */
  lemma SteadyFetchLands(s: State, a: nat, limit: nat, run: seq<Entry>)
    requires InRange(s, a, limit) && Steady(s, FetchEnd(s, a, limit), limit) && Decodes(s, StartAt(s, a), limit, run)
    ensures Lands(s, a, run)
  {
    SteadyLands(s, a, limit);
    var other :| Decodes(s, StartAt(s, a), limit, other) && Lands(s, a, other);
    DecodesOne(s, StartAt(s, a), limit, run, other);
  }

  /** The words of what landed are a boundary, and everything below it is shown. */
  lemma LandedWords(s: State, a: nat, run: seq<Entry>)
    requires Lands(s, a, run) && AllShown(s, a) && run != []
    ensures WordsOf(StartAt(s, a), run) == Words(StartAt(s, a + |run|), a + |run|) && AllShown(s, a + |run|)
  {
    assert Shown(s.recs[a + |run| - 1]);
  }

  lemma QueueMore(s: State, ws: seq<Words>, w: Words)
    requires Queued(s, ws) && |ws| < 2 && Boundary(s, w)
    requires (if ws == [] then s.orderedIdxWatermk else ws[0].idx) <= w.idx
    ensures Queued(s, ws + [w])
  {
  }

  lemma FetchSane(n: Node, run: seq<Entry>, n': Node)
    requires Sane(n) && Takes(n, Fetch(run), n') && SteadyMove(n, Fetch(run))
    ensures Sane(n')
  {
    if run != [] {
      FetchInRange(n);
      SteadyFetchLands(n.ring, Cut(n), To(n), run);
      LandedWords(n.ring, Cut(n), run);
      QueueMore(n.ring, n.waiting, WordsOf(n.from, run));
    }
  }

  /** Writing the words of the oldest batch is the ring's watermark step. */
  lemma CollectIsAdvance(n: Node, n': Node)
    requires Sane(n) && Takes(n, Collect, n')
    ensures RingProofs.StepTo(n.ring, Advance(n.waiting[0].idx), n'.ring)
  {
    assert Boundary(n.ring, n.waiting[0]);
  }

  lemma CollectSane(n: Node, n': Node)
    requires Sane(n) && Takes(n, Collect, n')
    ensures Sane(n')
  {
    CollectIsAdvance(n, n');
    RingProofs.AdvanceKeeps(n.ring, n.waiting[0].idx);
  }

  lemma MoveSane(n: Node, move: Move, n': Node)
    requires Sane(n) && Takes(n, move, n') && SteadyMove(n, move)
    ensures Sane(n')
  {
    match move
    case Act(step) => ActSane(n, step, n');
    case Look => LookSane(n, n');
    case Fetch(run) => FetchSane(n, run, n');
    case Collect => CollectSane(n, n');
  }

  /** A fetch takes no more than its bound, and nothing past the end of the range. */
  lemma FetchWithinBound(n: Node, run: seq<Entry>, n': Node)
    requires Takes(n, Fetch(run), n') && n.from < n.range.end
    ensures Begin(n) + TotalSpan(run) <= n.range.end && (n.maxFetch > 0 ==> TotalSpan(run) <= n.maxFetch)
  {
  }

  /** A steady fetch can always be taken: what it reads decodes. */
  lemma SteadyFetchDecodes(n: Node) returns (run: seq<Entry>)
    requires Sane(n) && n.range.Range? && n.from < n.range.end && SteadyMove(n, Fetch([]))
    ensures Decodes(n.ring, Begin(n), To(n), run)
  {
    FetchInRange(n);
    SteadyLands(n.ring, Cut(n), To(n));
    run :| Decodes(n.ring, StartAt(n.ring, Cut(n)), To(n), run) && Lands(n.ring, Cut(n), run);
  }

  // ---------------------------------------------------------------- runs

  /** A run whose fetches are steady and whose copies are not late. */
  predicate SteadyRun(nodes: seq<Node>, moves: seq<Move>) {
    && SourceRun(nodes, moves)
    && forall k {:trigger moves[k]} :: 0 <= k < |moves| ==> SteadyMove(nodes[k], moves[k])
  }

  lemma {:induction false} SteadyRunSane(nodes: seq<Node>, moves: seq<Move>, k: nat)
    requires SteadyRun(nodes, moves) && k < |nodes|
    ensures Sane(nodes[k])
  {
    if k == 0 {
      StartIsSane(nodes[0]);
    } else {
      SteadyRunSane(nodes, moves, k - 1);
      assert Takes(nodes[k - 1], moves[k - 1], nodes[k]);
      MoveSane(nodes[k - 1], moves[k - 1], nodes[k]);
    }
  }

  /** The ring's step in a move; if the ring does not change, the watermarks stay where they are. */
  function RingStep(n: Node, move: Move): Step {
    match move
    case Act(step) => step
    case Collect => Advance(if n.waiting == [] then n.ring.orderedIdxWatermk else n.waiting[0].idx)
    case _ => Advance(n.ring.orderedIdxWatermk)
  }

  lemma StayIsAdvance(s: State)
    requires Sound(s)
    ensures RingProofs.StepTo(s, Advance(s.orderedIdxWatermk), s)
  {
  }

  lemma MoveIsStep(n: Node, move: Move, n': Node)
    requires Sane(n) && Takes(n, move, n') && SteadyMove(n, move)
    ensures RingProofs.StepTo(n.ring, RingStep(n, move), n'.ring) && Timely(n.ring, RingStep(n, move))
  {
    match move
    case Act(step) =>
    case Collect => CollectIsAdvance(n, n');
    case Look => StayIsAdvance(n.ring);
    case Fetch(run) => StayIsAdvance(n.ring);
  }

  function Rings(nodes: seq<Node>): (r: seq<State>)
    ensures |r| == |nodes| && forall k :: 0 <= k < |r| ==> r[k] == nodes[k].ring
  {
    seq(|nodes|, k requires 0 <= k < |nodes| => nodes[k].ring)
  }

  /**
   * In a run whose fetches are steady and whose copies are not late, the ring's watermarks move only to boundaries above
   * shown entries, although nothing but the fetched words says where: all that is proved of guarded runs holds of it.
   */
  lemma SteadyIsGuarded(nodes: seq<Node>, moves: seq<Move>) returns (steps: seq<Step>)
    requires SteadyRun(nodes, moves)
    ensures RingProofs.TimelyRun(Rings(nodes), steps)
  {
    var states := Rings(nodes);
    steps := seq(|moves|, k requires 0 <= k < |moves| => RingStep(nodes[k], moves[k]));
    forall k | 0 <= k < |steps|
      ensures RingProofs.StepTo(states[k], steps[k], states[k + 1]) && Timely(states[k], steps[k])
    {
      SteadyRunSane(nodes, moves, k);
      assert Takes(nodes[k], moves[k], nodes[k + 1]);
      MoveIsStep(nodes[k], moves[k], nodes[k + 1]);
    }
  }

  /** The watermarks of the primary in such a run; see `RingProofs.WatermarkPair`. */
  lemma WatermarkPair(nodes: seq<Node>, moves: seq<Move>, j: nat, k: nat)
    requires SteadyRun(nodes, moves) && j <= k < |nodes|
    ensures var s, t := nodes[j].ring, nodes[k].ring;
            && s.orderedWatermk <= t.orderedWatermk <= t.sequencer
            && s.orderedIdxWatermk <= t.orderedIdxWatermk <= t.indexer == |t.recs|
            && forall i :: 0 <= i < |t.recs| ==>
                             (t.recs[i].start + Span(t.recs[i].entry) <= t.orderedWatermk <==> i < t.orderedIdxWatermk)
  {
    var steps := SteadyIsGuarded(nodes, moves);
    RingProofs.WatermarkPair(Rings(nodes), steps, j, k);
  }

  lemma SpaceBound(nodes: seq<Node>, moves: seq<Move>, k: nat)
    requires SteadyRun(nodes, moves) && k < |nodes|
    ensures var s := nodes[k].ring;
            && s.sequencer - s.orderedWatermk + AdmittedBytes(s.threads, |s.threads|) < s.rg
            && forall i :: s.orderedIdxWatermk <= i < |s.recs| ==> Fresh(s, s.recs[i])
  {
    var steps := SteadyIsGuarded(nodes, moves);
    RingProofs.SpaceBound(Rings(nodes), steps, k);
  }

  // ---------------------------------------------------------------- fetches of settled entries only

  /** A fetch that meets the condition for returning exactly the settled entries; nothing is asked of the copies. */
  predicate MaskedMove(n: Node, move: Move) {
    move.Fetch? && n.range.Range? && n.from < n.range.end ==>
      Shape(n.ring) && Cut(n) <= |n.ring.recs| && Ends(n.ring, FetchEnd(n.ring, Cut(n), To(n)), To(n))
  }

  predicate MaskedRun(nodes: seq<Node>, moves: seq<Move>) {
    && SourceRun(nodes, moves)
    && forall k {:trigger moves[k]} :: 0 <= k < |moves| ==> MaskedMove(nodes[k], moves[k])
  }

  predicate AllSettled(s: State, k: nat) {
    s.rg > 0 && k <= |s.recs| && forall i {:trigger Settled(s.rg, s.recs[i])} :: 0 <= i < k ==> Settled(s.rg, s.recs[i])
  }

  lemma StillSettled(s: State, t: State, k: nat)
    requires s.rg > 0 && RingProofs.Later(s, t) && AllSettled(s, k)
    ensures AllSettled(t, k)
  {
    forall i | 0 <= i < k
      ensures Settled(t.rg, t.recs[i])
    {
      assert Settled(s.rg, s.recs[i]);
    }
  }

  /** If only settled entries are fetched, the watermark never passes an entry that is still to be copied. */
  lemma MaskedIsTimely(n: Node, step: Step, n': Node)
    requires Sane(n) && AllSettled(n.ring, Cut(n)) && Takes(n, Act(step), n')
    ensures Timely(n.ring, step) && AllSettled(n'.ring, Cut(n))
  {
    RingProofs.StepCopiedBelow(n.ring, step);
    RingProofs.StepLater(n.ring, step);
    StillSettled(n.ring, n'.ring, Cut(n));
  }

  lemma MaskedFetchSettles(s: State, a: nat, limit: nat, run: seq<Entry>)
    requires FetchArgs(s, a, limit) && Decodes(s, StartAt(s, a), limit, run) && AllSettled(s, a)
    ensures AllSettled(s, a + |run|)
  {
    FetchIsLongestRun(s, a, limit);
    DecodesOne(s, StartAt(s, a), limit, run, Entries(s, a, FetchEnd(s, a, limit)));
  }

  lemma MaskedMoveIsSteady(n: Node, move: Move, n': Node)
    requires Sane(n) && AllSettled(n.ring, Cut(n)) && Takes(n, move, n') && MaskedMove(n, move)
    ensures SteadyMove(n, move) && AllSettled(n'.ring, Cut(n'))
  {
    match move
    case Act(step) => MaskedIsTimely(n, step, n');
    case Look =>
    case Fetch(run) =>
      if run != [] {
        FetchInRange(n);
        MaskedFetchSettles(n.ring, Cut(n), To(n), run);
        SteadyFetchLands(n.ring, Cut(n), To(n), run);
        LandedWords(n.ring, Cut(n), run);
      }
    case Collect =>
  }

  lemma {:induction false} MaskedRunSettles(nodes: seq<Node>, moves: seq<Move>, k: nat)
    requires MaskedRun(nodes, moves) && k < |nodes|
    ensures Sane(nodes[k]) && AllSettled(nodes[k].ring, Cut(nodes[k]))
    ensures k < |moves| ==> SteadyMove(nodes[k], moves[k])
  {
    if k == 0 {
      StartIsSane(nodes[0]);
    } else {
      MaskedRunSettles(nodes, moves, k - 1);
      assert Takes(nodes[k - 1], moves[k - 1], nodes[k]) && MaskedMove(nodes[k - 1], moves[k - 1]);
      MoveSane(nodes[k - 1], moves[k - 1], nodes[k]);
      MaskedMoveIsSteady(nodes[k - 1], moves[k - 1], nodes[k]);
    }
    if k < |moves| {
      assert Takes(nodes[k], moves[k], nodes[k + 1]) && MaskedMove(nodes[k], moves[k]);
      MaskedMoveIsSteady(nodes[k], moves[k], nodes[k + 1]);
    }
  }

  /** If every fetch meets the exact condition of `FetchExactly`, no copy is late either: nothing else is asked. */
  lemma MaskedIsSteady(nodes: seq<Node>, moves: seq<Move>)
    requires MaskedRun(nodes, moves)
    ensures SteadyRun(nodes, moves)
  {
    forall k | 0 <= k < |moves|
      ensures SteadyMove(nodes[k], moves[k])
    {
      MaskedRunSettles(nodes, moves, k);
    }
  }
}

/** Every transition of the ring keeps its invariant, and what follows from it in every run. */
module RingProofs {
  import opened Arith
  import opened Codec
  import opened Batches
  import opened Ring

  lemma {:induction false} StartsIncrease(s: State, i: nat, j: nat)
    requires Shape(s) && Layout(s) && i < j <= |s.recs|
    ensures s.recs[i].start + Span(s.recs[i].entry) <= StartAt(s, j)
  {
    assert RecSane(s, j - 1);
    if i < j - 1 {
      StartsIncrease(s, i, j - 1);
    }
  }

  /** Every boundary is a multiple of four. */
  lemma {:induction false} BoundariesAreWords(s: State, i: nat)
    requires Shape(s) && Layout(s) && i <= |s.recs|
    ensures StartAt(s, i) % 4 == 0
  {
    if i > 0 {
      BoundariesAreWords(s, i - 1);
      assert RecSane(s, i - 1);
      WordsAdd(s.recs[i - 1].start, s.recs[i - 1].entry);
    }
  }

  lemma WordsAdd(sq: nat, e: Entry)
    requires sq % 4 == 0
    ensures (sq + Span(e)) % 4 == 0
  {
    assert Span(e) == 4 * (8 + (|e.data| + 3) / 4);
  }

  /** The ordered watermark is at or below every later boundary. */
  lemma WatermarkBelow(s: State, k: nat)
    requires Shape(s) && Layout(s) && Watermarks(s) && s.orderedIdxWatermk <= k <= |s.recs|
    ensures s.orderedWatermk <= StartAt(s, k) <= s.sequencer
  {
    if s.orderedIdxWatermk < k {
      StartsIncrease(s, s.orderedIdxWatermk, k);
    }
    if k < |s.recs| {
      StartsIncrease(s, k, |s.recs|);
    }
  }

  /** Two different records do not overlap and, while both are fresh, are less than one lap apart. */
  lemma RecordsApart(s: State, i: nat, j: nat)
    requires Shape(s) && Layout(s) && i < |s.recs| && j < |s.recs| && i != j
    requires Fresh(s, s.recs[i]) && Fresh(s, s.recs[j])
    ensures var r, x := s.recs[i], s.recs[j];
            || (r.start + Span(r.entry) <= x.start && x.start + Span(x.entry) <= r.start + s.rg)
            || (x.start + Span(x.entry) <= r.start && r.start + Span(r.entry) <= x.start + s.rg)
  {
    var lo, hi := if i < j then i else j, if i < j then j else i;
    StartsIncrease(s, lo, hi);
    StartsIncrease(s, hi, |s.recs|);
  }

  // ---------------------------------------------------------------- space

  lemma {:induction false} AdmittedUpdate(ts: seq<Thread>, t: nat, x: Thread, n: nat)
    requires t < |ts| && n <= |ts|
    ensures AdmittedBytes(ts[t := x], n) + (if t < n && ts[t].Admitted? then Span(ts[t].e) else 0)
         == AdmittedBytes(ts, n) + (if t < n && x.Admitted? then Span(x.e) else 0)
  {
    if n > 0 {
      AdmittedUpdate(ts, t, x, n - 1);
    }
  }

  /** If one appender is idle, the others hold at most `maxSpan` bytes each. */
  lemma {:induction false} AdmittedBound(s: State, t: nat, n: nat)
    requires ThreadsSane(s) && n <= |s.threads|
    requires t < |s.threads| && s.threads[t].Idle?
    ensures AdmittedBytes(s.threads, n) + (if t < n then s.maxSpan else 0) <= Times(n, s.maxSpan)
  {
    if n > 0 {
      AdmittedBound(s, t, n - 1);
    }
  }

  lemma {:induction false} NoneAdmitted(ts: seq<Thread>, n: nat)
    requires n <= |ts| && forall t :: 0 <= t < |ts| ==> ts[t].Idle?
    ensures AdmittedBytes(ts, n) == 0
  {
    if n > 0 {
      NoneAdmitted(ts, n - 1);
    }
  }

  lemma InitKeeps(s: State)
    requires Init(s)
    ensures Inv(s)
  {
    NoneAdmitted(s.threads, |s.threads|);
  }

  lemma OthersFitTheSlack(s: State, t: nat)
    requires Shape(s) && ThreadsSane(s) && t < |s.threads| && s.threads[t].Idle?
    ensures AdmittedBytes(s.threads, |s.threads|) + s.maxSpan <= SLACK
  {
    AdmittedBound(s, t, |s.threads|);
  }

  lemma SmallEntriesDoNotWrap(e: Entry)
    requires Representable(e) && Span(e) <= SAFE_RG_SIZE
    ensures GetSize(e) == Span(e)
  {
    GetSizeAgreesExactly(e);
  }

  /** Admission leaves room for everything admitted so far: that is what the slack is for. */
  lemma AdmitSpace(s: State, t: nat, e: Entry)
    requires Shape(s) && Space(s) && ThreadsSane(s) && Enabled(s, Admit(t, e))
    ensures Space(s.(threads := s.threads[t := Admitted(e)]))
  {
    SmallEntriesDoNotWrap(e);
    AdmittedUpdate(s.threads, t, Admitted(e), |s.threads|);
    OthersFitTheSlack(s, t);
  }

  /** The bytes of the entries from `k` on. */
  function BytesFrom(recs: seq<Rec>, k: nat): nat
    requires k <= |recs|
    decreases |recs| - k
  {
    if k == |recs| then 0 else Span(recs[k].entry) + BytesFrom(recs, k + 1)
  }

  lemma {:induction false} BytesAreDistance(s: State, k: nat)
    requires Shape(s) && Layout(s) && k <= |s.recs|
    ensures StartAt(s, k) + BytesFrom(s.recs, k) == s.sequencer
    decreases |s.recs| - k
  {
    if k < |s.recs| {
      assert RecSane(s, k);
      BytesAreDistance(s, k + 1);
    }
  }

  /** An appender is let through exactly if its entry, the unordered entries and the slack are less than the ring. */
  lemma AdmittedExactly(s: State, t: nat, e: Entry)
    requires Sound(s) && t < |s.threads| && s.threads[t].Idle? && Representable(e) && e.flags == 0 && Span(e) <= s.maxSpan
    ensures Enabled(s, Admit(t, e)) <==> BytesFrom(s.recs, s.orderedIdxWatermk) + Span(e) + SLACK < s.rg
  {
    SmallEntriesDoNotWrap(e);
    BytesAreDistance(s, s.orderedIdxWatermk);
  }

  /** Steps that touch neither the records nor the counters keep everything that speaks only of those. */
  lemma SameRecords(s: State, s': State)
    requires Sound(s) && s' == s.(threads := s'.threads) && |s'.threads| == |s.threads|
    ensures Shape(s') && Layout(s') && Watermarks(s') && IndexMap(s') && (Memory(s) ==> Memory(s'))
  {
    forall i | 0 <= i < |s'.recs|
      ensures RecSane(s', i)
    {
      assert RecSane(s, i);
    }
  }

  lemma AdmitKeeps(s: State, t: nat, e: Entry)
    requires Sound(s) && Enabled(s, Admit(t, e))
    ensures Sound(Apply(s, Admit(t, e))) && (Memory(s) ==> Memory(Apply(s, Admit(t, e))))
  {
    AdmitSpace(s, t, e);
    SameRecords(s, Apply(s, Admit(t, e)));
  }

  // ---------------------------------------------------------------- reserving

  lemma ReserveShape(s: State, t: nat)
    requires Sound(s) && Enabled(s, Reserve(t))
    ensures var s' := Apply(s, Reserve(t)); Shape(s') && Layout(s')
  {
    var s' := Apply(s, Reserve(t));
    var e := s.threads[t].e;
    FinalRepresentable(s, e);
    forall i | 0 <= i < |s'.recs|
      ensures RecSane(s', i)
    {
      if i < |s.recs| {
        assert RecSane(s, i);
      }
    }
  }

  /** What the replica keeps of the entry it was given. */
  predicate Carries(f: Entry, e: Entry) {
    f.clientId == e.clientId && f.clientSeq == e.clientSeq && f.size == e.size && f.data == e.data
  }

  /** A reservation adds one record: the client's entry under the next index, in the replica's view, to be flagged 1. */
  lemma ReserveRecords(s: State, t: nat)
    requires Shape(s) && Enabled(s, Reserve(t))
    ensures var s', n := Apply(s, Reserve(t)), |s.recs|;
            && |s'.recs| == n + 1 && s'.recs[..n] == s.recs
            && s'.recs[n].start == s.sequencer && Carries(s'.recs[n].entry, s.threads[t].e)
            && s'.recs[n].entry.logIdx == s.indexer && s'.recs[n].entry.view == s.view && s'.recs[n].entry.flags == 1
  {
  }

  lemma FinalRepresentable(s: State, e: Entry)
    requires Shape(s) && Representable(e) && s.indexer < TWO_64
    ensures Representable(Final(s, e)) && Span(Final(s, e)) == Span(e)
  {
    assert Pow256(8) == TWO_64;
    forall k | 0 <= k < 6
      ensures Value(Final(s, e), k) < Pow256(Width(k))
    {
      assert Value(e, k) < Pow256(Width(k));
    }
  }

  /** The slot of an index is reused only after as many further reservations as the map has slots. */
  lemma ReserveIndexMap(s: State, t: nat)
    requires Sound(s) && Enabled(s, Reserve(t))
    ensures var s' := Apply(s, Reserve(t)); Shape(s') && IndexMap(s')
  {
    var s' := Apply(s, Reserve(t));
    var n := |s.idxToSeq|;
    forall i | 0 <= i < |s'.recs| && |s'.recs| <= i + n
      ensures s'.idxToSeq[Slot(n, i)] == s'.recs[i].start
    {
      if i < |s.recs| {
        ModStep(i, s.indexer - i, n);
      }
    }
  }

  lemma ReserveMemory(s: State, t: nat)
    requires Inv(s) && Enabled(s, Reserve(t))
    ensures var s' := Apply(s, Reserve(t)); Shape(s') && Memory(s')
  {
    var s' := Apply(s, Reserve(t));
    ReserveShape(s, t);
    var r := s'.recs[|s.recs|];
    var off := Off(s.rg, r);
    assert RecSane(s', |s.recs|);
    FlagCleared(s.mem, off, 0);
    forall i | 0 <= i < |s'.recs| && Fresh(s', s'.recs[i])
      ensures RecOk(s'.rg, s'.mem, s'.recs[i])
    {
      if i < |s.recs| {
        RecordsApart(s', i, |s.recs|);
        assert RecOk(s.rg, s.mem, s.recs[i]);
        OtherRecordsKept(s.rg, s.mem, s'.mem, r, s.recs[i], off + META_DATA_SIZE);
      }
    }
  }

  lemma ReserveSound(s: State, t: nat)
    requires Sound(s) && Enabled(s, Reserve(t))
    ensures Sound(Apply(s, Reserve(t)))
  {
    ReserveShape(s, t);
    ReserveIndexMap(s, t);
    AdmittedUpdate(s.threads, t, Busy(|s.recs|), |s.threads|);
  }

  lemma ReserveKeeps(s: State, t: nat)
    requires Inv(s) && Enabled(s, Reserve(t))
    ensures Inv(Apply(s, Reserve(t)))
  {
    ReserveSound(s, t);
    ReserveMemory(s, t);
  }

  // ---------------------------------------------------------------- writing, publishing, copying

  /** `s'` is `s` after record `i` moved to another stage and some bytes changed. */
  predicate Staged(s: State, s': State, i: nat) {
    && i < |s.recs| && s' == s.(mem := s'.mem, recs := s'.recs) && |s'.mem| == |s.mem|
    && |s'.recs| == |s.recs| && s'.recs == s.recs[i := s.recs[i].(stage := s'.recs[i].stage)]
  }

  lemma StageSound(s: State, s': State, i: nat)
    requires Sound(s) && Staged(s, s', i) && (Shown(s.recs[i]) ==> Shown(s'.recs[i]))
    ensures Sound(s')
  {
    forall j | 0 <= j < |s'.recs|
      ensures RecSane(s', j)
    {
      assert RecSane(s, j);
    }
  }

  /** Only `i`'s own bytes changed, so every other record in memory is as it was. */
  lemma StageMemory(s: State, s': State, i: nat, end: nat)
    requires Inv(s) && Staged(s, s', i) && Fresh(s, s.recs[i])
    requires Off(s.rg, s.recs[i]) <= end <= End(s.rg, s.recs[i])
    requires forall p :: 0 <= p < |s.mem| && !(Off(s.rg, s.recs[i]) <= p < end) && !(p < End(s.rg, s.recs[i]) - s.rg)
                     ==> s'.mem[p] == s.mem[p]
    requires RecOk(s.rg, s'.mem, s'.recs[i])
    ensures Shape(s') && Memory(s')
  {
    forall j | 0 <= j < |s'.recs| && Fresh(s', s'.recs[j])
      ensures RecOk(s'.rg, s'.mem, s'.recs[j])
    {
      if j != i {
        assert RecOk(s.rg, s.mem, s.recs[j]);
        RecordsApart(s, i, j);
        OtherRecordsKept(s.rg, s.mem, s'.mem, s.recs[i], s.recs[j], end);
      }
    }
  }

  /** An entry that is not shown yet lies above the ordered watermark, hence less than one lap behind the sequencer. */
  lemma UnshownIsFresh(s: State, i: nat)
    requires Sound(s) && i < |s.recs| && !Shown(s.recs[i])
    ensures Fresh(s, s.recs[i]) && i >= s.orderedIdxWatermk
  {
    WatermarkBelow(s, i);
  }

  lemma WriteKeeps(s: State, t: nat)
    requires Inv(s) && Enabled(s, Write(t))
    ensures Inv(Apply(s, Write(t)))
  {
    var i := s.threads[t].i;
    UnshownIsFresh(s, i);
    assert RecSane(s, i) && RecOk(s.rg, s.mem, s.recs[i]);
    var off, e := Off(s.rg, s.recs[i]), s.recs[i].entry;
    Unflagged(e);
    WrittenHolds(s.mem, off, e.(flags := 0));
    StageSound(s, Apply(s, Write(t)), i);
    StageMemory(s, Apply(s, Write(t)), i, off + META_DATA_SIZE + |e.data|);
  }

  lemma Unflagged(e: Entry)
    requires Representable(e)
    ensures Representable(e.(flags := 0))
  {
    forall k | 0 <= k < 6
      ensures Value(e.(flags := 0), k) < Pow256(Width(k))
    {
      assert Value(e, k) < Pow256(Width(k));
    }
  }

  lemma PublishKeeps(s: State, t: nat)
    requires Inv(s) && Enabled(s, Publish(t))
    ensures Inv(Apply(s, Publish(t)))
  {
    var i := s.threads[t].i;
    UnshownIsFresh(s, i);
    assert RecSane(s, i) && RecOk(s.rg, s.mem, s.recs[i]);
    var off, e := Off(s.rg, s.recs[i]), s.recs[i].entry;
    FlagSetHolds(s.mem, off, e.(flags := 0), 1);
    assert e.(flags := 0).(flags := 1) == e;
    StageSound(s, Apply(s, Publish(t)), i);
    StageMemory(s, Apply(s, Publish(t)), i, off + META_DATA_SIZE);
  }

  lemma CopyBackCopies(mem: seq<byte>, rg: nat, end: nat)
    requires rg < end <= |mem| && end <= 2 * rg
    ensures var m := CopyBack(mem, rg, end);
            && Mirrored(m, rg, end)
            && forall p :: end - rg <= p < |mem| ==> m[p] == mem[p]
  {
    var m := CopyBack(mem, rg, end);
    forall p | rg <= p < end
      ensures m[p] == m[p - rg]
    {
      assert m[0..end - rg][p - rg] == mem[rg..end][p - rg];
    }
  }

  lemma CopyBackMirrors(mem: seq<byte>, rg: nat, rec: Rec)
    requires 2 * SAFE_RG_SIZE <= rg && |mem| == rg + SAFE_RG_SIZE
    requires RecOk(rg, mem, rec) && rec.stage.Flagged? && Span(rec.entry) <= SAFE_RG_SIZE
    ensures RecOk(rg, CopyBack(mem, rg, End(rg, rec)), rec.(stage := Done))
  {
    var off, end := Off(rg, rec), End(rg, rec);
    if end > rg {
      CopyBackCopies(mem, rg, end);
      assert rec.entry.size == |rec.entry.data|;
      HoldsFrame(mem, CopyBack(mem, rg, end), off, end, 0, rec.entry);
    }
  }

  /** `s'` is `s` after the overflow of record `i`, if it has one, is copied back. */
  predicate Copied(s: State, s': State, i: nat)
    requires s.rg > 0
  {
    && i < |s.recs| && s.recs[i].stage.Flagged?
    && s' == s.(mem := CopyBack(s.mem, s.rg, End(s.rg, s.recs[i])), recs := s.recs[i := s.recs[i].(stage := Done)])
  }

  /** The copy harms no other entry while its own is less than a lap old. */
  lemma CopyMemory(s: State, s': State, i: nat)
    requires Inv(s) && Copied(s, s', i) && Span(s.recs[i].entry) <= SAFE_RG_SIZE
    requires End(s.rg, s.recs[i]) <= s.rg || Fresh(s, s.recs[i])
    ensures Shape(s') && Memory(s')
  {
    if End(s.rg, s.recs[i]) > s.rg {
      assert RecOk(s.rg, s.mem, s.recs[i]);
      CopyBackMirrors(s.mem, s.rg, s.recs[i]);
      CopyBackCopies(s.mem, s.rg, End(s.rg, s.recs[i]));
      StageMemory(s, s', i, Off(s.rg, s.recs[i]));
    } else {
      forall j | 0 <= j < |s'.recs| && Fresh(s', s'.recs[j])
        ensures RecOk(s'.rg, s'.mem, s'.recs[j])
      {
        assert RecOk(s.rg, s.mem, s.recs[j]);
      }
    }
  }

  /** What the last step of an append changes. */
  lemma FinishFields(s: State, p: nat, rec: Rec)
    requires Shape(s) && Owns(s, p) && s.recs[s.threads[p].i] == rec && rec.stage.Flagged?
    ensures Enabled(s, Finish(p))
    ensures Apply(s, Finish(p)) == s.(mem := CopyBack(s.mem, s.rg, End(s.rg, rec)),
                                      recs := s.recs[s.threads[p].i := rec.(stage := Done)],
                                      threads := s.threads[p := Idle])
  {
  }

  lemma FinishSound(s: State, t: nat)
    requires Sound(s) && Enabled(s, Finish(t))
    ensures Sound(Apply(s, Finish(t)))
  {
    var s' := Apply(s, Finish(t));
    var mid := s.(mem := s'.mem, recs := s'.recs);
    StageSound(s, mid, s.threads[t].i);
    AdmittedUpdate(s.threads, t, Idle, |s.threads|);
    SameRecords(mid, s');
  }

  lemma FinishKeeps(s: State, t: nat)
    requires Inv(s) && Enabled(s, Finish(t)) && Timely(s, Finish(t))
    ensures Inv(Apply(s, Finish(t)))
  {
    var s', i := Apply(s, Finish(t)), s.threads[t].i;
    var mid := s.(mem := s'.mem, recs := s'.recs);
    FinishSound(s, t);
    assert RecSane(s, i);
    CopyMemory(s, mid, i);
    StageSound(s, mid, i);
    SameRecords(mid, s');
  }

  lemma AdvanceWatermarks(s: State, s': State, k: nat)
    requires Shape(s) && Layout(s) && Watermarks(s) && Space(s) && Enabled(s, Advance(k))
    requires s' == s.(orderedWatermk := StartAt(s, k), orderedIdxWatermk := k)
    ensures Watermarks(s') && Space(s')
  {
    WatermarkBelow(s, k);
  }

  lemma AdvanceKeeps(s: State, k: nat)
    requires Sound(s) && Enabled(s, Advance(k))
    ensures Sound(Apply(s, Advance(k))) && (Memory(s) ==> Memory(Apply(s, Advance(k))))
  {
    var s' := Apply(s, Advance(k));
    AdvanceWatermarks(s, s', k);
    forall i | 0 <= i < |s'.recs|
      ensures RecSane(s', i)
    {
      assert RecSane(s, i);
    }
  }

  /** Every step of the ring keeps all that does not depend on the bytes. */
  lemma StepSound(s: State, step: Step)
    requires Sound(s) && Enabled(s, step)
    ensures Sound(Apply(s, step))
  {
    match step
    case Admit(t, e) => AdmitKeeps(s, t, e);
    case Reserve(t) => ReserveSound(s, t);
    case Write(t) => StageSound(s, Apply(s, Write(t)), s.threads[t].i);
    case Publish(t) => StageSound(s, Apply(s, Publish(t)), s.threads[t].i);
    case Finish(t) => FinishSound(s, t);
    case Advance(k) => AdvanceKeeps(s, k);
  }

  /** And every step but a late copy keeps the bytes. */
  lemma StepKeeps(s: State, step: Step)
    requires Inv(s) && Enabled(s, step) && Timely(s, step)
    ensures Inv(Apply(s, step))
  {
    match step
    case Admit(t, e) => AdmitKeeps(s, t, e);
    case Reserve(t) => ReserveKeeps(s, t);
    case Write(t) => WriteKeeps(s, t);
    case Publish(t) => PublishKeeps(s, t);
    case Finish(t) => FinishKeeps(s, t);
    case Advance(k) => AdvanceKeeps(s, k);
  }

  // ---------------------------------------------------------------- every run

  predicate StepTo(s: State, step: Step, t: State) {
    Shape(s) && Enabled(s, step) && t == Apply(s, step)
  }

  /**
   * A run of the ring from an empty start in which the watermarks move only to boundaries above shown entries. On a
   * backup the collecting walk sees to that; on the primary it depends on what the fetches decode (`Fetching`).
   */
  predicate GuardedRun(states: seq<State>, steps: seq<Step>) {
    && |states| == |steps| + 1 && Init(states[0])
    && forall k {:trigger steps[k]} :: 0 <= k < |steps| ==> StepTo(states[k], steps[k], states[k + 1])
  }

  lemma {:induction false} RunSound(states: seq<State>, steps: seq<Step>, k: nat)
    requires GuardedRun(states, steps) && k < |states|
    ensures Sound(states[k])
  {
    if k == 0 {
      InitKeeps(states[0]);
    } else {
      RunSound(states, steps, k - 1);
      assert StepTo(states[k - 1], steps[k - 1], states[k]);
      StepSound(states[k - 1], steps[k - 1]);
    }
  }

  /** A run in which no overflow is copied back more than a lap late. */
  predicate TimelyRun(states: seq<State>, steps: seq<Step>) {
    && GuardedRun(states, steps)
    && forall k {:trigger steps[k]} :: 0 <= k < |steps| ==>
                                         StepTo(states[k], steps[k], states[k + 1]) && Timely(states[k], steps[k])
  }

  /** In such a run memory holds every entry that is less than a lap old, however the appenders interleave. */
  lemma {:induction false} RunKeeps(states: seq<State>, steps: seq<Step>, k: nat)
    requires TimelyRun(states, steps) && k < |states|
    ensures Inv(states[k])
  {
    if k == 0 {
      InitKeeps(states[0]);
    } else {
      RunKeeps(states, steps, k - 1);
      assert StepTo(states[k - 1], steps[k - 1], states[k]);
      StepKeeps(states[k - 1], steps[k - 1]);
    }
  }

  /** A run whose watermark steps pass no entry that is still to be copied back. */
  predicate CarefulRun(states: seq<State>, steps: seq<Step>) {
    && GuardedRun(states, steps)
    && forall k {:trigger steps[k]} :: 0 <= k < |steps| ==>
                                         StepTo(states[k], steps[k], states[k + 1]) && Careful(states[k], steps[k])
  }

  predicate CopiedBelow(s: State)
    requires Shape(s)
  {
    forall i {:trigger Settled(s.rg, s.recs[i])} ::
      0 <= i < s.orderedIdxWatermk && i < |s.recs| ==> Settled(s.rg, s.recs[i])
  }

  lemma StepCopiedBelow(s: State, step: Step)
    requires Sound(s) && CopiedBelow(s) && Enabled(s, step) && Careful(s, step)
    ensures CopiedBelow(Apply(s, step)) && Timely(s, step)
  {
    var s' := Apply(s, step);
    StepLater(s, step);
    forall i | 0 <= i < s'.orderedIdxWatermk && i < |s'.recs|
      ensures Settled(s'.rg, s'.recs[i])
    {
      assert Settled(s.rg, s.recs[i]);
    }
    if step.Finish? {
      var i := s.threads[step.t].i;
      if End(s.rg, s.recs[i]) > s.rg {
        assert !Settled(s.rg, s.recs[i]);
        WatermarkBelow(s, i);
      }
    }
  }

  lemma {:induction false} CarefulCopiesBelow(states: seq<State>, steps: seq<Step>, k: nat)
    requires CarefulRun(states, steps) && k < |states|
    ensures Sound(states[k]) && CopiedBelow(states[k])
  {
    RunSound(states, steps, k);
    if k > 0 {
      CarefulCopiesBelow(states, steps, k - 1);
      assert StepTo(states[k - 1], steps[k - 1], states[k]);
      StepCopiedBelow(states[k - 1], steps[k - 1]);
    }
  }

  /** The guard one can check at the watermark rules out every late copy. */
  lemma CarefulIsTimely(states: seq<State>, steps: seq<Step>)
    requires CarefulRun(states, steps)
    ensures TimelyRun(states, steps)
  {
    forall k | 0 <= k < |steps|
      ensures StepTo(states[k], steps[k], states[k + 1]) && Timely(states[k], steps[k])
    {
      CarefulCopiesBelow(states, steps, k);
      StepCopiedBelow(states[k], steps[k]);
    }
  }

  /** An admitted entry is one that some appender was let through with. */
  lemma {:induction false} AdmittedBefore(states: seq<State>, steps: seq<Step>, k: nat, t: nat) returns (j: nat)
    requires GuardedRun(states, steps) && k < |states| && t < |states[k].threads| && states[k].threads[t].Admitted?
    ensures j < k && steps[j] == Admit(t, states[k].threads[t].e)
  {
    assert k > 0 && StepTo(states[k - 1], steps[k - 1], states[k]);
    if steps[k - 1].Admit? && steps[k - 1].t == t {
      j := k - 1;
    } else {
      j := AdmittedBefore(states, steps, k - 1, t);
    }
  }

  /**
   * Every entry of the ring, in every guarded run, carries the client id, client sequence, size and payload of an entry
   * that an appender brought, and the replica's own index and view.
   */
  lemma {:induction false} EntriesAreAppended(states: seq<State>, steps: seq<Step>, k: nat, i: nat) returns (j: nat)
    requires GuardedRun(states, steps) && k < |states| && i < |states[k].recs|
    ensures j < k && steps[j].Admit? && Carries(states[k].recs[i].entry, steps[j].e)
    ensures states[k].recs[i].entry.logIdx == i && states[k].recs[i].entry.view == states[k].view == states[0].view
  {
    assert k > 0 && StepTo(states[k - 1], steps[k - 1], states[k]);
    RunSound(states, steps, k - 1);
    if i < |states[k - 1].recs| {
      j := EntriesAreAppended(states, steps, k - 1, i);
    } else {
      var t := steps[k - 1].t;
      ReserveRecords(states[k - 1], t);
      SameView(states, steps, k - 1);
      j := AdmittedBefore(states, steps, k - 1, t);
    }
  }

  lemma {:induction false} SameView(states: seq<State>, steps: seq<Step>, k: nat)
    requires GuardedRun(states, steps) && k < |states|
    ensures states[k].view == states[0].view
  {
    if k > 0 {
      SameView(states, steps, k - 1);
      assert StepTo(states[k - 1], steps[k - 1], states[k]);
    }
  }

  /** What a timely run guarantees of an entry above the ordered watermark. */
  lemma RunRecord(states: seq<State>, steps: seq<Step>, k: nat, i: nat)
    requires TimelyRun(states, steps) && k < |states|
    requires states[k].orderedIdxWatermk <= i < |states[k].recs|
    ensures var s, rec := states[k], states[k].recs[i];
            && SLACK < s.rg <= |s.mem| && RecOk(s.rg, s.mem, rec)
            && rec.entry.flags == 1 && rec.entry.logIdx == i && Span(rec.entry) <= SAFE_RG_SIZE
  {
    RunKeeps(states, steps, k);
    WatermarkBelow(states[k], i);
    assert RecSane(states[k], i) && RecOk(states[k].rg, states[k].mem, states[k].recs[i]);
  }

  /**
   * Space bound: in a guarded run, however admission, reservation and watermark moves interleave, the unordered bytes
   * and those still to be reserved by admitted appenders are less than one lap, so no reservation reaches an unordered
   * byte.
   */
  lemma SpaceBound(states: seq<State>, steps: seq<Step>, k: nat)
    requires GuardedRun(states, steps) && k < |states|
    ensures var s := states[k];
            && s.sequencer - s.orderedWatermk + AdmittedBytes(s.threads, |s.threads|) < s.rg
            && forall i :: s.orderedIdxWatermk <= i < |s.recs| ==> Fresh(s, s.recs[i])
  {
    RunSound(states, steps, k);
    forall i | states[k].orderedIdxWatermk <= i < |states[k].recs|
      ensures Fresh(states[k], states[k].recs[i])
    {
      WatermarkBelow(states[k], i);
    }
  }

  /** `t` comes after `s`: entries keep their places, no stage is undone, and no watermark goes back. */
  predicate Later(s: State, t: State)
    requires s.rg > 0
  {
    && s.rg == t.rg && |s.recs| <= |t.recs|
    && (forall i :: 0 <= i < |s.recs| ==> s.recs[i].start == t.recs[i].start && s.recs[i].entry == t.recs[i].entry)
    && (forall i {:trigger Settled(s.rg, s.recs[i])} {:trigger Settled(t.rg, t.recs[i])} ::
          0 <= i < |s.recs| && Settled(s.rg, s.recs[i]) ==> Settled(t.rg, t.recs[i]))
    && (forall i {:trigger Shown(s.recs[i])} {:trigger Shown(t.recs[i])} ::
          0 <= i < |s.recs| && Shown(s.recs[i]) ==> Shown(t.recs[i]))
    && s.orderedIdxWatermk <= t.orderedIdxWatermk && s.orderedWatermk <= t.orderedWatermk
  }

  lemma LaterItself(s: State)
    requires s.rg > 0
    ensures Later(s, s)
  {
  }

  lemma LaterLater(s: State, t: State, u: State)
    requires s.rg > 0 && Later(s, t) && Later(t, u)
    ensures Later(s, u)
  {
    forall i | 0 <= i < |s.recs|
      ensures Settled(s.rg, s.recs[i]) ==> Settled(u.rg, u.recs[i])
      ensures Shown(s.recs[i]) ==> Shown(u.recs[i])
    {
      assert Settled(s.rg, s.recs[i]) ==> Settled(t.rg, t.recs[i]);
      assert Shown(s.recs[i]) ==> Shown(t.recs[i]);
    }
  }

  /** A boundary is where it is at all times. */
  lemma SameBoundary(s: State, t: State, k: nat)
    requires Sound(s) && Sound(t) && Later(s, t) && k <= |s.recs|
    ensures StartAt(s, k) == StartAt(t, k)
  {
    if k > 0 {
      assert RecSane(s, k - 1) && RecSane(t, k - 1);
    }
  }

  lemma StepLater(s: State, step: Step)
    requires Sound(s) && Enabled(s, step)
    ensures Later(s, Apply(s, step))
  {
    if step.Advance? {
      WatermarkBelow(s, step.k);
    }
  }

  lemma {:induction false} RunLater(states: seq<State>, steps: seq<Step>, j: nat, k: nat)
    requires GuardedRun(states, steps) && j <= k < |states|
    ensures states[j].rg > 0 && Later(states[j], states[k])
  {
    RunSound(states, steps, j);
    if j == k {
      LaterItself(states[j]);
    } else {
      RunLater(states, steps, j, k - 1);
      RunSound(states, steps, k - 1);
      assert StepTo(states[k - 1], steps[k - 1], states[k]);
      StepLater(states[k - 1], steps[k - 1]);
      LaterLater(states[j], states[k - 1], states[k]);
    }
  }

  /**
   * In a guarded run the two ordered watermarks always name the same boundary: an entry's bytes lie below the byte
   * watermark exactly if its index is below the index watermark. Neither ever moves back or passes what is appended.
   */
  lemma WatermarkPair(states: seq<State>, steps: seq<Step>, j: nat, k: nat)
    requires GuardedRun(states, steps) && j <= k < |states|
    ensures var s, t := states[j], states[k];
            && s.orderedWatermk <= t.orderedWatermk <= t.sequencer
            && s.orderedIdxWatermk <= t.orderedIdxWatermk <= t.indexer == |t.recs|
            && forall i :: 0 <= i < |t.recs| ==>
                             (t.recs[i].start + Span(t.recs[i].entry) <= t.orderedWatermk <==> i < t.orderedIdxWatermk)
  {
    RunLater(states, steps, j, k);
    RunSound(states, steps, k);
    var t := states[k];
    WatermarkBelow(t, t.orderedIdxWatermk);
    forall i | 0 <= i < |t.recs|
      ensures t.recs[i].start + Span(t.recs[i].entry) <= t.orderedWatermk <==> i < t.orderedIdxWatermk
    {
      if i < t.orderedIdxWatermk {
        StartsIncrease(t, i, t.orderedIdxWatermk);
      } else {
        WatermarkBelow(t, i);
      }
    }
  }
}

/**
 * The sequencing replica's byte ring with several appenders at once. Every step that another thread can see is a
 * separate transition, and one invariant covers all their interleavings.
 */
module Ring {
  import opened Arith
  import opened Codec
  import opened Batches

  const PAGE_SIZE: nat := 4096
  /** The overflow region behind the ring: an entry that starts near the end runs on into it. */
  const SAFE_RG_SIZE: nat := 2 * PAGE_SIZE
  /** `PAGE_SIZE << 6`, the space kept free for appenders that were admitted together. */
  const SLACK: nat := 64 * PAGE_SIZE
  const TWO_64: nat := 0x1_0000_0000_0000_0000

  /** How far `AppendEntry` has got with an entry. */
  datatype Stage = Reserved | Written | Flagged | Done

  /** An entry of the ring, in reservation order; `entry` is what it will hold once published. */
  datatype Rec = Rec(start: nat, entry: Entry, stage: Stage)

  datatype Thread = Idle | Admitted(e: Entry) | Busy(i: nat)

  /** `maxSpan` bounds the entries clients send; `view` is the replica's view number. */
  datatype State = State(
    rg: nat, maxSpan: nat, view: nat, mem: seq<byte>, idxToSeq: seq<nat>,
    sequencer: nat, indexer: nat, orderedWatermk: nat, orderedIdxWatermk: nat,
    recs: seq<Rec>, threads: seq<Thread>)

  // ---------------------------------------------------------------- memory operations

  function SetFlag(mem: seq<byte>, off: nat, flag: nat): (m: seq<byte>)
    requires off + META_DATA_SIZE <= |mem|
    ensures |m| == |mem|
  {
    Splice(mem, off + FLAG_POS, LittleEndian(flag, 2))
  }

  /** Writing outside the region has no meaning in the source; it never happens in a reachable state. */
  function WriteEntry(mem: seq<byte>, off: nat, e: Entry): (m: seq<byte>)
    ensures |m| == |mem|
  {
    if off + META_DATA_SIZE + |e.data| <= |mem| then Splice(mem, off, Image(e)) else mem
  }

  /** Copy what ran past the end of the ring to its beginning. */
  function CopyBack(mem: seq<byte>, rg: nat, end: nat): (m: seq<byte>)
    ensures |m| == |mem|
  {
    if rg < end <= |mem| then Splice(mem, 0, mem[rg..end]) else mem
  }

  // ---------------------------------------------------------------- what each record keeps true of memory

  function Off(rg: nat, rec: Rec): nat
    requires rg > 0
  {
    rec.start % rg
  }

  function End(rg: nat, rec: Rec): nat
    requires rg > 0
  {
    Off(rg, rec) + Span(rec.entry)
  }

  /** The bytes that ran past the end of the ring are also at its beginning. */
  predicate Mirrored(mem: seq<byte>, rg: nat, end: nat) {
    end <= |mem| && forall p :: rg <= p < end ==> mem[p] == mem[p - rg]
  }

  /** What memory holds of a record that has been written: the publish flag is still zero until it is set. */
  function Stored(rec: Rec): Entry {
    if rec.stage.Written? then rec.entry.(flags := 0) else rec.entry
  }

  predicate RecOk(rg: nat, mem: seq<byte>, rec: Rec)
    requires rg > 0
  {
    && End(rg, rec) <= |mem|
    && (if rec.stage.Reserved? then GetFlagFromBuf(mem, Off(rg, rec)) == 0
        else Holds(mem, Off(rg, rec), Stored(rec)))
    && (rec.stage.Done? ==> Mirrored(mem, rg, End(rg, rec)))
  }

  /** `m` has the same bytes as `mem` wherever `rec` lives: from its offset on, and mirrored at the beginning. */
  predicate SameFor(mem: seq<byte>, m: seq<byte>, rg: nat, rec: Rec)
    requires rg > 0
  {
    && |m| == |mem| && End(rg, rec) <= |mem|
    && Agree(mem, m, Off(rg, rec), End(rg, rec), 0)
    && forall p :: 0 <= p < End(rg, rec) - rg ==> m[p] == mem[p]
  }

  lemma RecFrame(rg: nat, mem: seq<byte>, m: seq<byte>, rec: Rec)
    requires rg > 0 && RecOk(rg, mem, rec) && SameFor(mem, m, rg, rec)
    ensures RecOk(rg, m, rec)
  {
    var off, end := Off(rg, rec), End(rg, rec);
    if rec.stage.Reserved? {
      AgreeSlice(mem, m, off, end, 0, off + FLAG_POS, off + FLAG_POS + 2);
    } else {
      assert Stored(rec).size == |rec.entry.data|;
      HoldsFrame(mem, m, off, end, 0, Stored(rec));
    }
    if rec.stage.Done? {
      forall p | rg <= p < end
        ensures m[p] == m[p - rg]
      {
        assert mem[p] == mem[p - rg] == m[p - rg];
      }
    }
  }

  /** Two entries less than one lap apart use different bytes, safe region and mirrored part included. */
  lemma Apart(rg: nat, r: Rec, s: Rec)
    requires rg > 0
    requires r.start + Span(r.entry) <= s.start && s.start + Span(s.entry) <= r.start + rg
    ensures || (End(rg, r) <= Off(rg, s) && End(rg, s) - rg <= Off(rg, r))
            || (End(rg, s) <= Off(rg, r) && End(rg, r) - rg <= Off(rg, s))
  {
    ModStep(r.start, s.start - r.start, rg);
  }

  /** A step that writes only inside `r`'s bytes leaves `s` alone. */
  lemma OtherRecordsKept(rg: nat, mem: seq<byte>, m: seq<byte>, r: Rec, s: Rec, end: nat)
    requires rg > 0 && |m| == |mem| && RecOk(rg, mem, s)
    requires || (r.start + Span(r.entry) <= s.start && s.start + Span(s.entry) <= r.start + rg)
             || (s.start + Span(s.entry) <= r.start && r.start + Span(r.entry) <= s.start + rg)
    requires Off(rg, r) <= end <= End(rg, r)
    requires forall p :: 0 <= p < |mem| && !(Off(rg, r) <= p < end) && !(p < End(rg, r) - rg) ==> m[p] == mem[p]
    ensures RecOk(rg, m, s)
  {
    if r.start + Span(r.entry) <= s.start {
      Apart(rg, r, s);
    } else {
      Apart(rg, s, r);
    }
    RecFrame(rg, mem, m, s);
  }

  lemma WrittenHolds(mem: seq<byte>, off: nat, e: Entry)
    requires Representable(e) && off + META_DATA_SIZE + |e.data| <= |mem|
    ensures Holds(WriteEntry(mem, off, e), off, e)
  {
    ImageIsHeld(WriteEntry(mem, off, e), off, e);
  }

  lemma FlagCleared(mem: seq<byte>, off: nat, flag: nat)
    requires off + META_DATA_SIZE <= |mem| && flag < Pow256(2)
    ensures GetFlagFromBuf(SetFlag(mem, off, flag), off) == flag
  {
    IntegerRoundTrip(flag, 2);
  }

  /** Setting the flag changes the flag of the stored entry and nothing else. */
  lemma FlagSetHolds(mem: seq<byte>, off: nat, e: Entry, flag: nat)
    requires Holds(mem, off, e) && flag < Pow256(2)
    ensures Holds(SetFlag(mem, off, flag), off, e.(flags := flag))
  {
    var m, f := SetFlag(mem, off, flag), e.(flags := flag);
    FlagCleared(mem, off, flag);
    forall k | 0 <= k < 6
      ensures Get(m, off, k) == Value(f, k)
    {
      if k != 4 {
        assert Get(mem, off, k) == Value(e, k);
        assert m[off + Pos(k)..off + Pos(k) + Width(k)] == mem[off + Pos(k)..off + Pos(k) + Width(k)];
      }
    }
    assert m[off + 32..off + 32 + e.size] == mem[off + 32..off + 32 + e.size];
  }

  // ---------------------------------------------------------------- transitions

  /** The bytes that admitted appenders are about to reserve. */
  function AdmittedBytes(threads: seq<Thread>, n: nat): nat
    requires n <= |threads|
  {
    if n == 0 then 0
    else AdmittedBytes(threads, n - 1) + if threads[n - 1].Admitted? then Span(threads[n - 1].e) else 0
  }

  /** Where record `k` starts, or where the next one will. */
  function StartAt(s: State, k: nat): nat
    requires k <= |s.recs|
  {
    if k < |s.recs| then s.recs[k].start else s.sequencer
  }

  /** The entry as it will be published: the replica assigns index and view, and the flag becomes 1. */
  function Final(s: State, e: Entry): Entry {
    e.(logIdx := s.indexer, view := s.view, flags := 1)
  }

  datatype Step =
    | Admit(t: nat, e: Entry)   // waitForPlace lets the appender through
    | Reserve(t: nat)           // under idx_lk_: clear the flag, take index and sequence
    | Write(t: nat)             // Serializer
    | Publish(t: nat)           // SetFlag(..., 1)
    | Finish(t: nat)            // memcpy of the overflowed part
    | Advance(k: nat)           // both watermarks move to a boundary above shown entries

  /** The publish flag is set: all that a collecting walk waits for, and that the watermark asks of an entry. */
  predicate Shown(rec: Rec) {
    rec.stage.Flagged? || rec.stage.Done?
  }

  /** A finished append, or one that has nothing left to copy. */
  predicate Settled(rg: nat, rec: Rec)
    requires rg > 0
  {
    rec.stage.Done? || (rec.stage.Flagged? && End(rg, rec) <= rg)
  }

  predicate Enabled(s: State, step: Step)
    requires Shape(s)
  {
    match step
    case Admit(t, e) =>
      && t < |s.threads| && s.threads[t].Idle?
      && Representable(e) && e.flags == 0 && Span(e) <= s.maxSpan
      && s.sequencer + GetSize(e) - s.orderedWatermk < s.rg - SLACK
    case Reserve(t) => t < |s.threads| && s.threads[t].Admitted? && s.indexer < TWO_64
    case Write(t) => Owns(s, t) && s.recs[s.threads[t].i].stage.Reserved?
    case Publish(t) => Owns(s, t) && s.recs[s.threads[t].i].stage.Written?
    case Finish(t) => Owns(s, t) && s.recs[s.threads[t].i].stage.Flagged?
    case Advance(k) =>
      && s.orderedIdxWatermk <= k <= |s.recs|
      && forall i {:trigger Shown(s.recs[i])} :: s.orderedIdxWatermk <= i < k ==> Shown(s.recs[i])
  }

  predicate Owns(s: State, t: nat) {
    t < |s.threads| && s.threads[t].Busy? && s.threads[t].i < |s.recs|
  }

  function Apply(s: State, step: Step): (s': State)
    requires Shape(s) && Enabled(s, step)
    ensures Shape(s')
  {
    match step
    case Admit(t, e) => s.(threads := s.threads[t := Admitted(e)])
    case Reserve(t) =>
      var e := s.threads[t].e;
      var off := s.sequencer % s.rg;
      s.(mem := SetFlag(s.mem, off, 0),
         idxToSeq := s.idxToSeq[Slot(|s.idxToSeq|, s.indexer) := s.sequencer],
         indexer := s.indexer + 1,
         sequencer := s.sequencer + Span(e),
         recs := s.recs + [Rec(s.sequencer, Final(s, e), Reserved)],
         threads := s.threads[t := Busy(|s.recs|)])
    case Write(t) =>
      var i := s.threads[t].i;
      s.(mem := WriteEntry(s.mem, Off(s.rg, s.recs[i]), s.recs[i].entry.(flags := 0)),
         recs := s.recs[i := s.recs[i].(stage := Written)])
    case Publish(t) =>
      var i := s.threads[t].i;
      s.(mem := SetFlag(s.mem, Off(s.rg, s.recs[i]), 1),
         recs := s.recs[i := s.recs[i].(stage := Flagged)])
    case Finish(t) =>
      var i := s.threads[t].i;
      s.(mem := CopyBack(s.mem, s.rg, End(s.rg, s.recs[i])),
         recs := s.recs[i := s.recs[i].(stage := Done)],
         threads := s.threads[t := Idle])
    case Advance(k) => s.(orderedWatermk := StartAt(s, k), orderedIdxWatermk := k)
  }

  // ---------------------------------------------------------------- the invariant

  /** The slot, of `n` in the index map, that serves log index `i`. */
  function Slot(n: nat, i: nat): (r: nat)
    requires n > 0
    ensures r < n
  {
    i % n
  }

  predicate Shape(s: State) {
    && SLACK < s.rg && |s.mem| == s.rg + SAFE_RG_SIZE && s.view < Pow256(2)
    && 0 < s.maxSpan <= SAFE_RG_SIZE && Times(|s.threads|, s.maxSpan) <= SLACK
    && |s.idxToSeq| == s.rg / META_DATA_SIZE
  }

  predicate RecSane(s: State, i: nat)
    requires Shape(s) && i < |s.recs|
  {
    var rec := s.recs[i];
    && Representable(rec.entry) && rec.entry.flags == 1 && rec.entry.logIdx == i && Span(rec.entry) <= s.maxSpan
    && rec.start + Span(rec.entry) == StartAt(s, i + 1)
  }

  /** Entries lie end to end in reservation order, and both counters say where the next one goes. */
  predicate Layout(s: State)
    requires Shape(s)
  {
    && s.indexer == |s.recs| && StartAt(s, 0) == 0
    && (forall i {:trigger RecSane(s, i)} :: 0 <= i < |s.recs| ==> RecSane(s, i))
  }

  /** The watermarks are the same boundary, counted in bytes and in entries, and only shown entries lie below it. */
  predicate Watermarks(s: State)
    requires Shape(s)
  {
    && s.orderedIdxWatermk <= |s.recs| && s.orderedWatermk == StartAt(s, s.orderedIdxWatermk)
    && (forall i {:trigger Shown(s.recs[i])} :: 0 <= i < s.orderedIdxWatermk ==> Shown(s.recs[i]))
  }

  predicate Space(s: State) {
    s.sequencer - s.orderedWatermk + AdmittedBytes(s.threads, |s.threads|) + s.maxSpan <= s.rg
  }

  predicate ThreadsSane(s: State) {
    forall t :: 0 <= t < |s.threads| && s.threads[t].Admitted? ==>
                  var e := s.threads[t].e;
                  Representable(e) && e.flags == 0 && Span(e) <= s.maxSpan
  }

  /** Not yet overwritten: less than one lap behind the sequencer. */
  predicate Fresh(s: State, rec: Rec) {
    s.sequencer <= rec.start + s.rg
  }

  predicate Memory(s: State)
    requires Shape(s)
  {
    forall i {:trigger RecOk(s.rg, s.mem, s.recs[i])} ::
      0 <= i < |s.recs| && Fresh(s, s.recs[i]) ==> RecOk(s.rg, s.mem, s.recs[i])
  }

  predicate IndexMap(s: State)
    requires Shape(s)
  {
    forall i {:trigger Slot(|s.idxToSeq|, i)} :: 0 <= i < |s.recs| && |s.recs| <= i + |s.idxToSeq| ==>
                                        s.idxToSeq[Slot(|s.idxToSeq|, i)] == s.recs[i].start
  }

  /** What holds in every run: the layout, the counters, the watermarks, the space bound and the index map. */
  predicate Sound(s: State) {
    Shape(s) && Layout(s) && Watermarks(s) && Space(s) && ThreadsSane(s) && IndexMap(s)
  }

  /** And memory holds every entry that is less than a lap old. */
  predicate Inv(s: State) {
    Sound(s) && Memory(s)
  }

  /**
   * The copy of an overflow back to the front is late if the sequencer is already more than a lap past its entry. The
   * source does not rule that out: the watermark may pass an entry between its flag and its copy.
   */
  predicate Timely(s: State, step: Step)
    requires Shape(s) && Enabled(s, step)
  {
    step.Finish? ==>
      var rec := s.recs[s.threads[step.t].i];
      End(s.rg, rec) <= s.rg || Fresh(s, rec)
  }

  /** A watermark step that passes no entry whose overflow is still to be copied. */
  predicate Careful(s: State, step: Step)
    requires Shape(s) && Enabled(s, step)
  {
    step.Advance? ==>
      forall i {:trigger Settled(s.rg, s.recs[i])} :: s.orderedIdxWatermk <= i < step.k ==> Settled(s.rg, s.recs[i])
  }

  predicate Init(s: State) {
    && Shape(s) && s.sequencer == s.indexer == s.orderedWatermk == s.orderedIdxWatermk == 0 && s.recs == []
    && forall t :: 0 <= t < |s.threads| ==> s.threads[t].Idle?
  }
}

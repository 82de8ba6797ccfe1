/** Runs of the ring in which the copy of an overflow comes too late, and exactly when none can. */
module RingLimits {
  import opened Arith
  import opened Codec
  import opened Batches
  import opened Ring
  import RingProofs

  // ---------------------------------------------------------------- paths

  /** A step of a guarded run; a careful one also passes no entry whose overflow is still to be copied. */
  predicate StepOk(careful: bool, s: State, step: Step, t: State) {
    RingProofs.StepTo(s, step, t) && (careful ==> Careful(s, step))
  }

  predicate IsPath(careful: bool, states: seq<State>, steps: seq<Step>) {
    && |states| == |steps| + 1
    && forall k {:trigger steps[k]} :: 0 <= k < |steps| ==> StepOk(careful, states[k], steps[k], states[k + 1])
  }

  ghost predicate Reaches(careful: bool, s: State, t: State) {
    exists states, steps :: IsPath(careful, states, steps) && states[0] == s && states[|steps|] == t
  }

  lemma Stay(careful: bool, s: State)
    ensures Reaches(careful, s, s)
  {
    var steps: seq<Step> := [];
    assert IsPath(careful, [s], steps) && [s][0] == s && [s][|steps|] == s;
  }

  lemma Longer(careful: bool, states: seq<State>, steps: seq<Step>, step: Step, t: State)
    requires IsPath(careful, states, steps) && StepOk(careful, states[|steps|], step, t)
    ensures IsPath(careful, states + [t], steps + [step])
  {
    var states', steps' := states + [t], steps + [step];
    forall k | 0 <= k < |steps'|
      ensures StepOk(careful, states'[k], steps'[k], states'[k + 1])
    {
      if k < |steps| {
        assert StepOk(careful, states[k], steps[k], states[k + 1]);
      }
    }
  }

  lemma Next(careful: bool, s: State, t: State, step: Step, u: State)
    requires Reaches(careful, s, t) && StepOk(careful, t, step, u)
    ensures Reaches(careful, s, u)
  {
    var states, steps :| IsPath(careful, states, steps) && states[0] == s && states[|steps|] == t;
    Longer(careful, states, steps, step, u);
    var states', steps' := states + [u], steps + [step];
    assert states'[0] == s && states'[|steps'|] == u;
  }

  /** Paths can be joined, and a careful one is a path. */
  lemma {:induction false} JoinPath(careful: bool, s: State, t: State, states: seq<State>, steps: seq<Step>, n: nat)
    requires Reaches(careful, s, t) && IsPath(careful, states, steps) && states[0] == t && n <= |steps|
    ensures Reaches(careful, s, states[n])
  {
    if n > 0 {
      JoinPath(careful, s, t, states, steps, n - 1);
      assert StepOk(careful, states[n - 1], steps[n - 1], states[n]);
      Next(careful, s, states[n - 1], steps[n - 1], states[n]);
    }
  }

  lemma Join(careful: bool, s: State, t: State, u: State)
    requires Reaches(careful, s, t) && Reaches(careful, t, u)
    ensures Reaches(careful, s, u)
  {
    var states, steps :| IsPath(careful, states, steps) && states[0] == t && states[|steps|] == u;
    JoinPath(careful, s, t, states, steps, |steps|);
  }

  lemma CarefulReaches(s: State, t: State)
    requires Reaches(true, s, t)
    ensures Reaches(false, s, t)
  {
    var states, steps :| IsPath(true, states, steps) && states[0] == s && states[|steps|] == t;
    forall k | 0 <= k < |steps|
      ensures StepOk(false, states[k], steps[k], states[k + 1])
    {
      assert StepOk(true, states[k], steps[k], states[k + 1]);
    }
    assert IsPath(false, states, steps);
  }

  lemma {:induction false} PathSound(careful: bool, states: seq<State>, steps: seq<Step>, n: nat)
    requires IsPath(careful, states, steps) && Sound(states[0]) && n <= |steps|
    ensures Sound(states[n])
  {
    if n > 0 {
      PathSound(careful, states, steps, n - 1);
      assert StepOk(careful, states[n - 1], steps[n - 1], states[n]);
      RingProofs.StepSound(states[n - 1], steps[n - 1]);
    }
  }

  lemma {:induction false} PathLater(careful: bool, states: seq<State>, steps: seq<Step>, n: nat)
    requires IsPath(careful, states, steps) && Sound(states[0]) && n <= |steps|
    ensures RingProofs.Later(states[0], states[n])
  {
    if n == 0 {
      RingProofs.LaterItself(states[0]);
    } else {
      PathLater(careful, states, steps, n - 1);
      PathSound(careful, states, steps, n - 1);
      assert StepOk(careful, states[n - 1], steps[n - 1], states[n]);
      RingProofs.StepLater(states[n - 1], steps[n - 1]);
      RingProofs.LaterLater(states[0], states[n - 1], states[n]);
    }
  }

  lemma ReachesLater(careful: bool, s: State, t: State)
    requires Reaches(careful, s, t) && Sound(s)
    ensures RingProofs.Later(s, t)
  {
    var states, steps :| IsPath(careful, states, steps) && states[0] == s && states[|steps|] == t;
    PathLater(careful, states, steps, |steps|);
  }

  lemma ReachesSound(careful: bool, s: State, t: State)
    requires Reaches(careful, s, t) && Sound(s)
    ensures Sound(t)
  {
    var states, steps :| IsPath(careful, states, steps) && states[0] == s && states[|steps|] == t;
    PathSound(careful, states, steps, |steps|);
  }

  // ---------------------------------------------------------------- one append by an idle appender

  /** Memory once the entry at `off` is written and its flag is set, before anything is copied. */
  function ShownMem(mem: seq<byte>, off: nat, f: Entry): (m: seq<byte>)
    requires off + META_DATA_SIZE <= |mem|
    ensures |m| == |mem|
  {
    SetFlag(WriteEntry(SetFlag(mem, off, 0), off, f.(flags := 0)), off, 1)
  }

  /** Appender `p` has reserved an entry, which is now at the given stage, and memory is `mem`. */
  function Partway(s: State, p: nat, e: Entry, stage: Stage, mem: seq<byte>): State
    requires Shape(s) && p < |s.threads|
  {
    s.(mem := mem,
       idxToSeq := s.idxToSeq[Slot(|s.idxToSeq|, s.indexer) := s.sequencer],
       indexer := s.indexer + 1,
       sequencer := s.sequencer + Span(e),
       recs := s.recs + [Rec(s.sequencer, Final(s, e), stage)],
       threads := s.threads[p := Busy(|s.recs|)])
  }

  predicate CanAppend(s: State, p: nat, e: Entry) {
    Shape(s) && p < |s.threads| && s.threads[p].Idle? && Enabled(s, Admit(p, e)) && s.indexer < TWO_64
  }

  lemma ReservePath(s: State, p: nat, e: Entry)
    requires CanAppend(s, p, e)
    ensures Reaches(true, s, Partway(s, p, e, Reserved, SetFlag(s.mem, s.sequencer % s.rg, 0)))
  {
    Stay(true, s);
    var s1 := Apply(s, Admit(p, e));
    Next(true, s, s, Admit(p, e), s1);
    var s2 := Partway(s, p, e, Reserved, SetFlag(s.mem, s.sequencer % s.rg, 0));
    assert s1.threads[p := Busy(|s.recs|)] == s2.threads;
    assert Apply(s1, Reserve(p)) == s2;
    Next(true, s, s1, Reserve(p), s2);
  }

  /** An appender reserves at `off` and stalls. */
  lemma ReserveAt(s: State, p: nat, e: Entry, off: nat) returns (t: State)
    requires CanAppend(s, p, e) && off == s.sequencer % s.rg
    ensures Reaches(true, s, t) && t == Partway(s, p, e, Reserved, SetFlag(s.mem, off, 0))
  {
    ReservePath(s, p, e);
    t := Partway(s, p, e, Reserved, SetFlag(s.mem, off, 0));
  }

  /** The append up to its flag, and what it leaves of the first byte and of the byte behind the ring. */
  lemma PublishPath(s: State, p: nat, e: Entry, off: nat) returns (shown: seq<byte>)
    requires CanAppend(s, p, e) && off == s.sequencer % s.rg
    ensures |shown| == |s.mem| && Reaches(true, s, Partway(s, p, e, Flagged, shown))
    ensures off > 0 ==> shown[0] == s.mem[0]
    ensures off == 0 && Small(e) ==> shown[s.rg] == s.mem[s.rg]
  {
    shown := ShownBytes(s.rg, s.mem, off, Final(s, e));
    StagesPath(s, p, e, off, shown);
  }

  lemma ShownBytes(rg: nat, mem: seq<byte>, off: nat, f: Entry) returns (shown: seq<byte>)
    requires META_DATA_SIZE <= rg < |mem| && off + META_DATA_SIZE <= |mem|
    ensures shown == ShownMem(mem, off, f)
    ensures off > 0 ==> shown[0] == mem[0]
    ensures off == 0 && f.data == [] && f.size == 0 ==> shown[rg] == mem[rg]
  {
    shown := ShownMem(mem, off, f);
  }

  /** From one stage of the newest record to the next. */
  lemma NextStage(s: State, p: nat, e: Entry, stage: Stage, mem: seq<byte>, stage': Stage, mem': seq<byte>, step: Step)
    requires Shape(s) && p < |s.threads| && |mem| == |s.mem| == |mem'|
    requires Reaches(true, s, Partway(s, p, e, stage, mem))
    requires var off := s.sequencer % s.rg;
             || (step == Write(p) && stage == Reserved && stage' == Written
                 && mem' == WriteEntry(mem, off, Final(s, e).(flags := 0)))
             || (step == Publish(p) && stage == Written && stage' == Flagged && mem' == SetFlag(mem, off, 1))
    ensures Reaches(true, s, Partway(s, p, e, stage', mem'))
  {
    var n, u, u' := |s.recs|, Partway(s, p, e, stage, mem), Partway(s, p, e, stage', mem');
    PartwayIsShaped(s, p, e, stage, mem);
    assert u.recs[n := u.recs[n].(stage := stage')] == u'.recs;
    Next(true, s, u, step, u');
  }

  lemma StagesPath(s: State, p: nat, e: Entry, off: nat, shown: seq<byte>)
    requires CanAppend(s, p, e) && off == s.sequencer % s.rg && shown == ShownMem(s.mem, off, Final(s, e))
    ensures Reaches(true, s, Partway(s, p, e, Flagged, shown))
  {
    ReservePath(s, p, e);
    var mem := SetFlag(s.mem, off, 0);
    var written := WriteEntry(mem, off, Final(s, e).(flags := 0));
    NextStage(s, p, e, Reserved, mem, Written, written, Write(p));
    NextStage(s, p, e, Written, written, Flagged, shown, Publish(p));
  }

  /** The append is over, and memory is `mem`. */
  function Whole(s: State, e: Entry, mem: seq<byte>): State
    requires Shape(s)
  {
    s.(mem := mem,
       idxToSeq := s.idxToSeq[Slot(|s.idxToSeq|, s.indexer) := s.sequencer],
       indexer := s.indexer + 1,
       sequencer := s.sequencer + Span(e),
       recs := s.recs + [Rec(s.sequencer, Final(s, e), Done)])
  }

  lemma PartwayIsShaped(s: State, p: nat, e: Entry, stage: Stage, mem: seq<byte>)
    requires Shape(s) && p < |s.threads| && |mem| == |s.mem|
    ensures var u := Partway(s, p, e, stage, mem);
            && Shape(u) && Owns(u, p) && u.threads[p].i == |s.recs|
            && u.recs[|s.recs|] == Rec(s.sequencer, Final(s, e), stage)
  {
  }

  lemma FinishIsWhole(s: State, p: nat, e: Entry, mem: seq<byte>, left: seq<byte>, s4: State, t: State)
    requires Shape(s) && p < |s.threads| && s.threads[p].Idle? && |mem| == |s.mem|
    requires s4 == Partway(s, p, e, Flagged, mem) && t == Whole(s, e, left)
    requires left == CopyBack(mem, s.rg, s.sequencer % s.rg + Span(e))
    requires Shape(s4) && Owns(s4, p) && s4.threads[p].i == |s.recs|
    requires s4.recs[|s.recs|] == Rec(s.sequencer, Final(s, e), Flagged)
    ensures Enabled(s4, Finish(p)) && t == Apply(s4, Finish(p))
  {
    var n, rec := |s.recs|, Rec(s.sequencer, Final(s, e), Flagged);
    RingProofs.FinishFields(s4, p, rec);
    assert End(s.rg, rec) == s.sequencer % s.rg + Span(e);
    assert s4.recs[n := rec.(stage := Done)] == t.recs;
    assert s4.threads[p := Idle] == t.threads;
  }

  /** `t` is `s` after a whole append of `e`. */
  predicate Grown(s: State, t: State, e: Entry) {
    && Shape(t)
    && t == s.(mem := t.mem, idxToSeq := t.idxToSeq, indexer := s.indexer + 1, sequencer := s.sequencer + Span(e),
               recs := s.recs + [Rec(s.sequencer, Final(s, e), Done)])
  }

  /** An empty entry that the ring admits. */
  predicate Small(e: Entry) {
    e.data == [] && e.size == 0 && e.flags == 0 && Representable(e) && Span(e) == GetSize(e) == META_DATA_SIZE
  }

  lemma LastStep(s: State, p: nat, e: Entry, mem: seq<byte>, left: seq<byte>) returns (t: State)
    requires CanAppend(s, p, e) && |mem| == |s.mem| && Reaches(true, s, Partway(s, p, e, Flagged, mem))
    requires left == CopyBack(mem, s.rg, s.sequencer % s.rg + Span(e))
    ensures Reaches(true, s, t) && Grown(s, t, e) && t.mem == left
  {
    var s4 := Partway(s, p, e, Flagged, mem);
    t := Whole(s, e, left);
    PartwayIsShaped(s, p, e, Flagged, mem);
    FinishIsWhole(s, p, e, mem, left, s4, t);
    Next(true, s, s4, Finish(p), t);
    WholeGrows(s, e, left, t);
  }

  lemma WholeGrows(s: State, e: Entry, mem: seq<byte>, t: State)
    requires Shape(s) && |mem| == |s.mem| && t == Whole(s, e, mem)
    ensures Grown(s, t, e)
  {
  }

  /** The whole append. */
  lemma AppendPath(s: State, p: nat, e: Entry) returns (t: State)
    requires CanAppend(s, p, e)
    ensures Reaches(true, s, t) && Grown(s, t, e)
  {
    var off := s.sequencer % s.rg;
    var shown := PublishPath(s, p, e, off);
    t := LastStep(s, p, e, shown, CopyBack(shown, s.rg, off + Span(e)));
  }

  /** An empty entry at the front of the ring leaves the overflow region alone. */
  lemma FrontPath(s: State, p: nat, e: Entry) returns (t: State)
    requires CanAppend(s, p, e) && s.sequencer % s.rg == 0 && Small(e)
    ensures Reaches(true, s, t) && Grown(s, t, e) && t.mem[s.rg] == s.mem[s.rg]
  {
    var shown := PublishPath(s, p, e, 0);
    t := LastStep(s, p, e, shown, shown);
  }

  // ---------------------------------------------------------------- moving the sequencer on

  /** An entry of `n` zero bytes. */
  function Zeros(n: nat, id: nat): Entry {
    Entry(id, 0, 0, n, 0, 0, seq(n, _ => 0))
  }

  lemma ZerosFit(n: nat, id: nat)
    requires n % 4 == 0 && n <= 64 && id < 256
    ensures Representable(Zeros(n, id)) && Span(Zeros(n, id)) == GetSize(Zeros(n, id)) == META_DATA_SIZE + n
  {
    Plain(Zeros(n, id));
  }

  /** Small numbers fit every field. */
  lemma Plain(e: Entry)
    requires e.clientId < 256 && e.clientSeq == e.logIdx == e.flags == e.view == 0 && e.size == |e.data| <= 64
    ensures Representable(e)
  {
    assert Pow256(2) == 65536 && Pow256(4) == TWO_32 && Pow256(8) == TWO_64;
    forall k | 0 <= k < 6
      ensures Value(e, k) < Pow256(Width(k))
    {
      assert Value(e, k) < 256;
    }
  }

  /** Everything is ordered, and appender `p` is idle. */
  predicate AllOrdered(s: State, p: nat) {
    && Sound(s) && p < |s.threads| && s.threads[p].Idle?
    && s.orderedIdxWatermk == |s.recs| && s.orderedWatermk == s.sequencer
  }

  /** A ring with room for the entries used here; its size is a whole number of words, as the source's is. */
  predicate Roomy(s: State) {
    s.rg % 4 == 0 && SLACK + 128 <= s.rg && 96 <= s.maxSpan
  }

  /** `t` has more entries than `s`, and otherwise only memory, index map and watermarks may differ. */
  predicate More(s: State, t: State) {
    t.rg == s.rg && t.maxSpan == s.maxSpan && t.threads == s.threads && s.recs <= t.recs
  }

  /** An entry that fits the rings used here. */
  predicate Fits(e: Entry) {
    Representable(e) && e.flags == 0 && Span(e) == GetSize(e) <= 96
  }

  lemma AppendAndOrder(s: State, p: nat, e: Entry) returns (t: State)
    requires AllOrdered(s, p) && Roomy(s) && Fits(e) && s.indexer < TWO_64
    ensures Reaches(true, s, t) && AllOrdered(t, p) && More(s, t)
    ensures t.recs == s.recs + [Rec(s.sequencer, Final(s, e), Done)]
    ensures t.sequencer == s.sequencer + Span(e) && t.indexer == s.indexer + 1
  {
    var s1 := AppendPath(s, p, e);
    ReachesSound(true, s, s1);
    t := Apply(s1, Advance(|s1.recs|));
    assert Settled(s1.rg, s1.recs[|s.recs|]);
    Next(true, s, s1, Advance(|s1.recs|), t);
    RingProofs.StepSound(s1, Advance(|s1.recs|));
  }

  /** `t` has `d` more bytes of ordered entries than `s`, as many entries as that allows. */
  ghost predicate PaddedBy(s: State, t: State, d: nat) {
    && Reaches(true, s, t) && More(s, t)
    && t.sequencer == s.sequencer + d && t.indexer == s.indexer + d / META_DATA_SIZE
  }

  lemma PadOnce(s: State, p: nat, d: nat) returns (t: State)
    requires AllOrdered(s, p) && Roomy(s) && d % 4 == 0 && META_DATA_SIZE <= d < 2 * META_DATA_SIZE
    requires s.indexer < TWO_64
    ensures AllOrdered(t, p) && PaddedBy(s, t, d)
  {
    ZerosFit(d - META_DATA_SIZE, 0);
    t := AppendAndOrder(s, p, Zeros(d - META_DATA_SIZE, 0));
  }

  /** The sequencer can be moved on by any multiple of four that is at least one entry. */
  lemma {:induction false} Pad(s: State, p: nat, d: nat) returns (t: State)
    requires AllOrdered(s, p) && Roomy(s) && d % 4 == 0 && (d == 0 || META_DATA_SIZE <= d) && s.indexer + d < TWO_64
    ensures AllOrdered(t, p) && PaddedBy(s, t, d)
    decreases d
  {
    if d == 0 {
      Stay(true, s);
      t := s;
    } else if d < 2 * META_DATA_SIZE {
      t := PadOnce(s, p, d);
    } else {
      var rest := d - META_DATA_SIZE;
      assert rest % 4 == 0;
      var s1 := PadOnce(s, p, META_DATA_SIZE);
      t := Pad(s1, p, rest);
      Join(true, s, s1, t);
    }
  }

  // ---------------------------------------------------------------- a late copy

  /** An unordered, finished entry is not in memory any more. */
  predicate Destroyed(s: State)
    requires s.rg > 0
  {
    exists i :: s.orderedIdxWatermk <= i < |s.recs| && s.recs[i].stage.Done?
                && !Holds(s.mem, Off(s.rg, s.recs[i]), s.recs[i].entry)
  }

  /** Appender `t` has set the flag of record `x`, which crosses the end of the ring, and has not copied it back. */
  predicate Uncopied(s: State, t: nat, x: nat) {
    && s.rg > 0 && t < |s.threads| && s.threads[t] == Busy(x) && x < |s.recs|
    && s.recs[x].stage.Flagged? && End(s.rg, s.recs[x]) > s.rg
  }

  /** How far it is to the beginning of a lap, with no gap too small for an entry. */
  lemma ToFront(sq: nat, rg: nat) returns (d: nat)
    requires rg % 4 == 0 && sq % 4 == 0 && META_DATA_SIZE <= rg
    ensures d % 4 == 0 && (d == 0 || META_DATA_SIZE <= d) && d < 2 * rg && (sq + d) % rg == 0
  {
    WordInLap(sq, rg);
    Lap(sq, rg);
    d := Gap(sq % rg, rg);
  }

  function Gap(off: nat, rg: nat): (d: nat)
    requires rg % 4 == 0 && off % 4 == 0 && off < rg && META_DATA_SIZE <= rg
    ensures d % 4 == 0 && (d == 0 || META_DATA_SIZE <= d) && d < 2 * rg
  {
    if off == 0 then 0 else if META_DATA_SIZE <= rg - off then rg - off else 2 * rg - off
  }

  lemma Lap(sq: nat, rg: nat)
    requires 0 < rg
    ensures sq % rg != 0 ==> (sq + (rg - sq % rg)) % rg == 0 && (sq + (2 * rg - sq % rg)) % rg == 0
  {
    var k, off := sq / rg, sq % rg;
    if off != 0 {
      assert sq + (rg - off) == (k + 1) * rg + 0 && sq + (2 * rg - off) == (k + 2) * rg + 0;
      DivModUnique(sq + (rg - off), rg, k + 1, 0);
      DivModUnique(sq + (2 * rg - off), rg, k + 2, 0);
    }
  }

  /** A client id whose first byte is not `z`. */
  function Other(z: byte): nat {
    if z == 0 then 1 else 0
  }

  lemma FirstByteDiffers(mem: seq<byte>, e: Entry)
    requires META_DATA_SIZE <= |mem| && e.clientId == Other(mem[0])
    ensures !Holds(mem, 0, e)
  {
    var x := mem[0..8];
    assert FromLittleEndian(x) == x[0] + 256 * FromLittleEndian(x[1..]);
    assert Get(mem, 0, 0) == FromLittleEndian(x) && Value(e, 0) == e.clientId;
  }

  /** The copy replaces the first byte of the finished entry at the front. */
  lemma CopyHits(s: State, u: State, t: nat, x: nat, n: nat)
    requires Shape(s) && Uncopied(s, t, x) && u == Apply(s, Finish(t)) && End(s.rg, s.recs[x]) <= |s.mem|
    requires s.orderedIdxWatermk <= n < |s.recs| && n != x && s.recs[n].stage.Done? && Off(s.rg, s.recs[n]) == 0
    requires s.recs[n].entry.clientId == Other(s.mem[s.rg])
    ensures u.rg > 0 && Destroyed(u)
  {
    CopiedByte(s.mem, s.rg, End(s.rg, s.recs[x]));
    FirstByteDiffers(u.mem, s.recs[n].entry);
    assert u.recs[n] == s.recs[n];
  }

  /** After an append at the front: record `n` is there, and record `x` is as it was. */
  predicate FrontTaken(s: State, s1: State, t: nat, x: nat, n: nat) {
    && Uncopied(s1, t, x) && s1.rg == s.rg && x < |s.recs| && s1.recs[x] == s.recs[x]
    && s1.orderedIdxWatermk <= n < |s1.recs| && n != x && s1.recs[n].stage.Done? && Off(s1.rg, s1.recs[n]) == 0
    && s1.rg < |s1.mem| && s1.recs[n].entry.clientId == Other(s1.mem[s1.rg])
  }

  lemma FrontFacts(s: State, s1: State, t: nat, x: nat, e: Entry)
    requires Shape(s) && Uncopied(s, t, x) && s.sequencer % s.rg == 0 && s.orderedIdxWatermk == |s.recs|
    requires Small(e) && e.clientId == Other(s.mem[s.rg])
    requires Grown(s, s1, e) && s1.mem[s.rg] == s.mem[s.rg]
    ensures FrontTaken(s, s1, t, x, |s.recs|)
  {
    assert s1.recs[|s.recs|] == Rec(s.sequencer, Final(s, e), Done);
  }

  /** An entry at the front, unlike what the overflow region holds. */
  lemma FrontAppend(s: State, t: nat, x: nat, p: nat, e: Entry) returns (s1: State)
    requires AllOrdered(s, p) && Roomy(s) && Uncopied(s, t, x) && t != p && s.indexer < TWO_64
    requires s.sequencer % s.rg == 0 && Small(e) && e.clientId == Other(s.mem[s.rg])
    ensures Reaches(true, s, s1) && Shape(s1) && FrontTaken(s, s1, t, x, |s.recs|)
  {
    s1 := FrontPath(s, p, e);
    FrontFacts(s, s1, t, x, e);
  }

  /** The last two steps: an entry at the front, and then the late copy over it. */
  lemma CopyOver(s: State, t: nat, x: nat, p: nat) returns (u: State)
    requires AllOrdered(s, p) && Roomy(s) && Uncopied(s, t, x) && t != p && s.indexer < TWO_64
    requires s.sequencer % s.rg == 0
    ensures Reaches(true, s, u) && u.rg > 0 && Destroyed(u)
  {
    var z := Other(s.mem[s.rg]);
    ZerosFit(0, z);
    var s1 := FrontAppend(s, t, x, p, Zeros(0, z));
    assert RecSane(s, x);
    u := Apply(s1, Finish(t));
    Next(true, s, s1, Finish(t), u);
    CopyHits(s1, u, t, x, |s.recs|);
  }

  lemma CopiedByte(mem: seq<byte>, rg: nat, end: nat)
    requires 0 < rg < end <= |mem| && end <= 2 * rg
    ensures CopyBack(mem, rg, end)[0] == mem[rg]
  {
    var m := CopyBack(mem, rg, end);
    assert m[0..end - rg][0] == mem[rg..end][0];
  }

  /** Once everything is ordered although an entry is still to be copied, a finished entry can be destroyed. */
  lemma LateCopyDestroys(s: State, t: nat, x: nat, p: nat) returns (u: State)
    requires AllOrdered(s, p) && Roomy(s) && Uncopied(s, t, x) && t != p
    requires s.indexer + 2 * s.rg < TWO_64
    ensures Reaches(true, s, u) && u.rg > 0 && Destroyed(u)
  {
    RingProofs.BoundariesAreWords(s, |s.recs|);
    var d := ToFront(s.sequencer, s.rg);
    var s1 := Pad(s, p, d);
    u := CopyOver(s1, t, x, p);
    Join(true, s, s1, u);
  }

  // ---------------------------------------------------------------- who works on what

  /** Every entry that is not finished has one appender, and every busy appender has one such entry. */
  predicate Owned(s: State) {
    && (forall q :: 0 <= q < |s.threads| && s.threads[q].Busy? ==>
          s.threads[q].i < |s.recs| && !s.recs[s.threads[q].i].stage.Done?)
    && (forall q, r :: 0 <= q < r < |s.threads| && s.threads[q].Busy? && s.threads[r].Busy? ==>
          s.threads[q].i != s.threads[r].i)
    && (forall i :: 0 <= i < |s.recs| && !s.recs[i].stage.Done? ==> Busy(i) in s.threads)
  }

  lemma StillBusy(ts: seq<Thread>, q: nat, x: Thread, i: nat)
    requires q < |ts| && Busy(i) in ts && ts[q] != Busy(i)
    ensures Busy(i) in ts[q := x]
  {
    var r :| 0 <= r < |ts| && ts[r] == Busy(i);
    assert ts[q := x][r] == Busy(i);
  }

  lemma ThreadOwned(s: State, u: State, q: nat)
    requires Owned(s) && q < |s.threads| && |u.threads| == |s.threads| && u.threads == s.threads[q := u.threads[q]]
    requires |s.recs| <= |u.recs| && forall i :: 0 <= i < |s.recs| && s.threads[q] != Busy(i) ==> u.recs[i] == s.recs[i]
    requires u.threads[q].Busy? ==> u.threads[q].i < |u.recs| && !u.recs[u.threads[q].i].stage.Done?
    requires u.threads[q].Busy? ==> u.threads[q] == s.threads[q] || u.threads[q].i == |s.recs|
    requires forall i :: 0 <= i < |u.recs| && !u.recs[i].stage.Done? && (i >= |s.recs| || s.threads[q] == Busy(i)) ==>
                           u.threads[q] == Busy(i)
    ensures Owned(u)
  {
    forall i | 0 <= i < |u.recs| && !u.recs[i].stage.Done?
      ensures Busy(i) in u.threads
    {
      if i < |s.recs| && s.threads[q] != Busy(i) {
        StillBusy(s.threads, q, u.threads[q], i);
      } else {
        assert u.threads[q] == Busy(i);
      }
    }
  }

  lemma StepOwned(s: State, step: Step)
    requires Shape(s) && Owned(s) && Enabled(s, step)
    ensures Owned(Apply(s, step))
  {
    var u := Apply(s, step);
    if !step.Advance? {
      ThreadOwned(s, u, step.t);
    }
  }

  lemma {:induction false} PathOwned(careful: bool, states: seq<State>, steps: seq<Step>, n: nat)
    requires IsPath(careful, states, steps) && Owned(states[0]) && n <= |steps|
    ensures Owned(states[n])
  {
    if n > 0 {
      PathOwned(careful, states, steps, n - 1);
      assert StepOk(careful, states[n - 1], steps[n - 1], states[n]);
      StepOwned(states[n - 1], steps[n - 1]);
    }
  }

  /** Appender `q` carries on until it is idle; nobody else moves. */
  predicate Drained(s: State, t: State, q: nat) {
    && q < |s.threads| && t.rg == s.rg && t.maxSpan == s.maxSpan && t.threads == s.threads[q := Idle]
    && t.orderedIdxWatermk == s.orderedIdxWatermk
    && |s.recs| <= |t.recs| && t.indexer <= s.indexer + 1
    && (forall i :: 0 <= i < |s.recs| && s.threads[q] != Busy(i) ==> t.recs[i] == s.recs[i])
  }

  lemma FinishDrains(s: State, q: nat) returns (t: State)
    requires Shape(s) && Owns(s, q) && s.recs[s.threads[q].i].stage.Flagged?
    ensures Reaches(true, s, t) && Drained(s, t, q) && t.indexer == s.indexer
  {
    Stay(true, s);
    t := Apply(s, Finish(q));
    Next(true, s, s, Finish(q), t);
  }

  lemma PublishDrains(s: State, q: nat) returns (t: State)
    requires Shape(s) && Owns(s, q) && s.recs[s.threads[q].i].stage.Written?
    ensures Reaches(true, s, t) && Drained(s, t, q) && t.indexer == s.indexer
  {
    Stay(true, s);
    var s1 := Apply(s, Publish(q));
    Next(true, s, s, Publish(q), s1);
    t := FinishDrains(s1, q);
    Join(true, s, s1, t);
  }

  lemma WriteDrains(s: State, q: nat) returns (t: State)
    requires Shape(s) && Owns(s, q) && s.recs[s.threads[q].i].stage.Reserved?
    ensures Reaches(true, s, t) && Drained(s, t, q) && t.indexer == s.indexer
  {
    Stay(true, s);
    var s1 := Apply(s, Write(q));
    Next(true, s, s, Write(q), s1);
    t := PublishDrains(s1, q);
    Join(true, s, s1, t);
  }

  lemma ReserveDrains(s: State, q: nat) returns (t: State)
    requires Shape(s) && q < |s.threads| && s.threads[q].Admitted? && s.indexer < TWO_64
    ensures Reaches(true, s, t) && Drained(s, t, q)
  {
    Stay(true, s);
    var s1 := Apply(s, Reserve(q));
    Next(true, s, s, Reserve(q), s1);
    t := WriteDrains(s1, q);
    Join(true, s, s1, t);
    assert t.threads == s.threads[q := Idle];
  }

  lemma Drain(s: State, q: nat) returns (t: State)
    requires Shape(s) && Owned(s) && q < |s.threads| && s.indexer < TWO_64
    ensures Reaches(true, s, t) && Drained(s, t, q)
  {
    match s.threads[q]
    case Idle =>
      Stay(true, s);
      t := s;
    case Admitted(e) => t := ReserveDrains(s, q);
    case Busy(i) =>
      match s.recs[i].stage
      case Reserved => t := WriteDrains(s, q);
      case Written => t := PublishDrains(s, q);
      case Flagged => t := FinishDrains(s, q);
  }

  /** All but appender `t`, among the first `n`, are idle; its entry `x` is as it was. */
  predicate AllDrained(s: State, u: State, t: nat, x: nat, n: nat) {
    && u.rg == s.rg && u.maxSpan == s.maxSpan && |u.threads| == |s.threads| && n <= |s.threads|
    && Sound(u) && Owned(u) && u.orderedIdxWatermk == s.orderedIdxWatermk && u.indexer <= s.indexer + n
    && x < |s.recs| <= |u.recs| && u.recs[x] == s.recs[x]
    && (forall q :: 0 <= q < n && q != t ==> u.threads[q].Idle?)
    && (t < |s.threads| ==> u.threads[t] == s.threads[t])
  }

  lemma {:induction false} DrainAll(s: State, t: nat, x: nat, n: nat) returns (u: State)
    requires Sound(s) && Owned(s) && Uncopied(s, t, x) && n <= |s.threads| && s.indexer + n < TWO_64
    ensures Reaches(true, s, u) && AllDrained(s, u, t, x, n)
  {
    if n == 0 {
      Stay(true, s);
      u := s;
    } else {
      var s1 := DrainAll(s, t, x, n - 1);
      if n - 1 == t {
        u := s1;
        DrainSkipped(s, s1, t, x, n);
      } else {
        u := Drain(s1, n - 1);
        DrainKept(s, s1, u, t, x, n);
        Join(true, s, s1, u);
      }
    }
  }

  lemma DrainSkipped(s: State, u: State, t: nat, x: nat, n: nat)
    requires 0 < n <= |s.threads| && n - 1 == t && AllDrained(s, u, t, x, n - 1)
    ensures AllDrained(s, u, t, x, n)
  {
  }

  lemma DrainKept(s: State, s1: State, u: State, t: nat, x: nat, n: nat)
    requires Uncopied(s, t, x) && 0 < n <= |s.threads| && n - 1 != t
    requires AllDrained(s, s1, t, x, n - 1) && Reaches(true, s1, u) && Drained(s1, u, n - 1)
    ensures AllDrained(s, u, t, x, n)
  {
    ReachesSound(true, s1, u);
    ReachesOwned(true, s1, u);
    assert s1.threads[n - 1] != Busy(x);
  }

  lemma ReachesOwned(careful: bool, s: State, t: State)
    requires Reaches(careful, s, t) && Owned(s)
    ensures Owned(t)
  {
    var states, steps :| IsPath(careful, states, steps) && states[0] == s && states[|steps|] == t;
    PathOwned(careful, states, steps, |steps|);
  }

  /** When all others are idle, `x` is the only entry that is not finished, and the watermark can pass the rest. */
  lemma OrderRest(s: State, t: nat, x: nat, p: nat) returns (u: State)
    requires Sound(s) && Owned(s) && Uncopied(s, t, x) && x < s.orderedIdxWatermk && p < |s.threads| && p != t
    requires forall q :: 0 <= q < |s.threads| && q != t ==> s.threads[q].Idle?
    ensures Reaches(true, s, u) && AllOrdered(u, p) && Uncopied(u, t, x) && u.rg == s.rg && u.maxSpan == s.maxSpan
    ensures u.sequencer == s.sequencer && u.indexer == s.indexer
  {
    var n := |s.recs|;
    forall i | s.orderedIdxWatermk <= i < n
      ensures Settled(s.rg, s.recs[i]) && Shown(s.recs[i])
    {
      assert Busy(i) !in s.threads;
    }
    Stay(true, s);
    u := Apply(s, Advance(n));
    Next(true, s, s, Advance(n), u);
    RingProofs.StepSound(s, Advance(n));
  }

  // ---------------------------------------------------------------- exactly when the watermark is safe

  /** After careful steps only, no finished unordered entry is destroyed. */
  lemma CarefulIsSafe(s0: State, u: State)
    requires Init(s0) && Reaches(true, s0, u)
    ensures Inv(u) && !Destroyed(u)
  {
    var states, steps :| IsPath(true, states, steps) && states[0] == s0 && states[|steps|] == u;
    forall k | 0 <= k < |steps|
      ensures RingProofs.StepTo(states[k], steps[k], states[k + 1]) && Careful(states[k], steps[k])
    {
      assert StepOk(true, states[k], steps[k], states[k + 1]);
    }
    assert RingProofs.CarefulRun(states, steps);
    RingProofs.CarefulIsTimely(states, steps);
    RingProofs.RunKeeps(states, steps, |steps|);
    forall i | u.orderedIdxWatermk <= i < |u.recs| && u.recs[i].stage.Done?
      ensures Holds(u.mem, Off(u.rg, u.recs[i]), u.recs[i].entry)
    {
      RingProofs.RunRecord(states, steps, |steps|, i);
    }
  }

  /** If a watermark step passes an entry that is still to be copied, careful steps can follow that destroy another. */
  lemma CarelessIsUnsafe(s: State, k: nat, t: nat, x: nat) returns (u: State)
    requires Sound(s) && Owned(s) && Roomy(s) && Enabled(s, Advance(k))
    requires Uncopied(s, t, x) && x < k && 2 <= |s.threads| && s.indexer + |s.threads| + 2 * s.rg < TWO_64
    ensures Reaches(true, Apply(s, Advance(k)), u) && u.rg > 0 && Destroyed(u)
  {
    var s1 := Apply(s, Advance(k));
    RingProofs.StepSound(s, Advance(k));
    StepOwned(s, Advance(k));
    var p := if t == 0 then 1 else 0;
    var s2 := DrainAll(s1, t, x, |s.threads|);
    var s3 := OrderRest(s2, t, x, p);
    Join(true, s1, s2, s3);
    u := LateCopyDestroys(s3, t, x, p);
    Join(true, s1, s3, u);
  }

  lemma UnsettledIsUncopied(s: State, x: nat) returns (t: nat)
    requires Shape(s) && Owned(s) && x < |s.recs| && Shown(s.recs[x]) && !Settled(s.rg, s.recs[x])
    ensures Uncopied(s, t, x)
  {
    t :| 0 <= t < |s.threads| && s.threads[t] == Busy(x);
  }

  /**
   * Exactly when a watermark step is safe: in any state reached by careful steps, with at least two appenders, no
   * careful continuation destroys a finished unordered entry if and only if the step passes no entry whose overflow is
   * still to be copied back.
   */
  lemma WatermarkSafeExactly(s0: State, s: State, k: nat)
    requires Init(s0) && Reaches(true, s0, s) && Roomy(s) && 2 <= |s.threads|
    requires Shape(s) && Enabled(s, Advance(k)) && s.indexer + |s.threads| + 2 * s.rg < TWO_64
    ensures (forall u :: Reaches(true, Apply(s, Advance(k)), u) ==> u.rg > 0 && !Destroyed(u))
            <==> Careful(s, Advance(k))
  {
    RingProofs.InitKeeps(s0);
    ReachesSound(true, s0, s);
    ReachesOwned(true, s0, s);
    if Careful(s, Advance(k)) {
      var s1 := Apply(s, Advance(k));
      Next(true, s0, s, Advance(k), s1);
      forall u | Reaches(true, s1, u)
        ensures u.rg > 0 && !Destroyed(u)
      {
        Join(true, s0, s1, u);
        CarefulIsSafe(s0, u);
      }
    } else {
      var x :| s.orderedIdxWatermk <= x < k && !Settled(s.rg, s.recs[x]);
      assert Shown(s.recs[x]);
      var t := UnsettledIsUncopied(s, x);
      var u := CarelessIsUnsafe(s, k, t, x);
      assert Reaches(true, Apply(s, Advance(k)), u) && Destroyed(u);
    }
  }

  // ---------------------------------------------------------------- a run into a crossing entry

  /** An empty ring with two appenders. */
  function Fresh0(rg: nat): State {
    State(rg, 96, 0, seq(rg + SAFE_RG_SIZE, _ => 0), seq(rg / META_DATA_SIZE, _ => 0), 0, 0, 0, 0, [], [Idle, Idle])
  }

  lemma Fresh0Starts(rg: nat)
    requires rg % 4 == 0 && SLACK + 128 <= rg
    ensures Init(Fresh0(rg)) && AllOrdered(Fresh0(rg), 1) && Roomy(Fresh0(rg))
  {
    assert Times(1, 96) == 96 && Times(2, 96) == 192;
    assert Pow256(2) == 65536;
    RingProofs.InitKeeps(Fresh0(rg));
  }

  /** An entry of one header's worth of payload, none of it the byte `z`. */
  function Unlike(z: byte): Entry {
    Entry(0, 0, 0, 32, 0, 0, seq(32, _ => Other(z)))
  }

  lemma UnlikeFits(z: byte)
    ensures Representable(Unlike(z)) && Span(Unlike(z)) == 64 && GetSize(Unlike(z)) == 64
  {
    Plain(Unlike(z));
  }

  /** The newest entry starts one header before the end of the ring, is flagged, and is the only unordered one. */
  predicate Crossing(s: State, x: nat) {
    && Uncopied(s, 0, x) && |s.recs| == x + 1 && s.orderedIdxWatermk == x && |s.threads| == 2
    && Off(s.rg, s.recs[x]) + META_DATA_SIZE == s.rg && Span(s.recs[x].entry) == 2 * META_DATA_SIZE
    && |s.recs[x].entry.data| == META_DATA_SIZE && s.recs[x].entry.size == META_DATA_SIZE
  }

  /** For every ring size: a careful run to a crossing entry whose payload differs from what lies at the front. */
  lemma CrossingRun(rg: nat) returns (s: State, x: nat)
    requires rg % 4 == 0 && SLACK + 128 <= rg && 4 * rg < TWO_64
    ensures Reaches(true, Fresh0(rg), s) && Roomy(s) && s.rg == rg && s.indexer <= rg && Crossing(s, x)
    ensures s.mem != [] && s.recs[x].entry.data[0] == Other(s.mem[0])
  {
    var s0 := Fresh0(rg);
    Fresh0Starts(rg);
    var s1 := Pad(s0, 1, rg - META_DATA_SIZE);
    var e := Unlike(s1.mem[0]);
    UnlikeFits(s1.mem[0]);
    x := |s1.recs|;
    DivModUnique(s1.sequencer, rg, 0, rg - META_DATA_SIZE);
    var shown := PublishPath(s1, 0, e, rg - META_DATA_SIZE);
    s := Partway(s1, 0, e, Flagged, shown);
    Join(true, s0, s1, s);
  }

  /** For every ring size: a run of the source's steps that destroys a finished, unordered entry. */
  lemma DestroyedRun(rg: nat) returns (u: State)
    requires rg % 4 == 0 && SLACK + 128 <= rg && 4 * rg < TWO_64
    ensures Init(Fresh0(rg)) && Reaches(false, Fresh0(rg), u) && u.rg > 0 && Destroyed(u)
  {
    var s0 := Fresh0(rg);
    Fresh0Starts(rg);
    var s, x := CrossingRun(rg);
    ReachesSound(true, s0, s);
    ReachesOwned(true, s0, s);
    u := CarelessIsUnsafe(s, x + 1, 0, x);
    CarefulReaches(s0, s);
    Next(false, s0, s, Advance(x + 1), Apply(s, Advance(x + 1)));
    CarefulReaches(Apply(s, Advance(x + 1)), u);
    Join(false, s0, Apply(s, Advance(x + 1)), u);
  }
}

/** The sequencing replica itself, one call at a time: appending to the ring, and what a garbage collection means. */
module DurLog {
  import opened Arith
  import opened Codec
  import opened Batches
  import opened Ring
  import RingProofs

  type ReqId = (nat, nat)

  // ---------------------------------------------------------------- what one garbage collection means

  /** `operator[]` on a missing key: the value is 0. */
  function At<K>(m: map<K, nat>, k: K): nat {
    if k in m then m[k] else 0
  }

  /** `cli_id_max_seq_map`: the last request id of each client in the message wins. */
  function MaxOf(ids: seq<ReqId>, n: nat): map<nat, nat>
    requires n <= |ids|
  {
    if n == 0 then map[] else MaxOf(ids, n - 1)[ids[n - 1].0 := ids[n - 1].1]
  }

  /** A client has the sequence of the last of its ids, and only clients that are named have one. */
  lemma {:induction false} MaxOfIsLast(ids: seq<ReqId>, n: nat, c: nat)
    requires n <= |ids|
    ensures c in MaxOf(ids, n) <==> exists i :: 0 <= i < n && ids[i].0 == c
    ensures c in MaxOf(ids, n) ==> exists i :: 0 <= i < n && ids[i] == (c, MaxOf(ids, n)[c])
                                               && forall k :: i < k < n ==> ids[k].0 != c
  {
    if n > 0 {
      MaxOfIsLast(ids, n - 1, c);
      if c == ids[n - 1].0 {
        assert ids[n - 1] == (c, MaxOf(ids, n)[c]);
      }
    }
  }

  /** The largest byte sequence known for one of the request ids; an unknown id counts as sequence 0. */
  function MaxSeq(ids: seq<ReqId>, known: map<ReqId, nat>, n: nat): nat
    requires n <= |ids|
  {
    if n == 0 then 0
    else
      var m, x := MaxSeq(ids, known, n - 1), At(known, ids[n - 1]);
      if x > m then x else m
  }

  /** Looking an unknown id up inserts it with sequence 0. */
  function LookedUp(ids: seq<ReqId>, known: map<ReqId, nat>, n: nat): map<ReqId, nat>
    requires n <= |ids|
  {
    if n == 0 then known
    else
      var k := LookedUp(ids, known, n - 1);
      if ids[n - 1] in k then k else k[ids[n - 1] := 0]
  }

  /** The test that decides whether an entry counts as ordered. */
  predicate Covered(m: map<nat, nat>, e: Entry) {
    e.clientSeq <= At(m, e.clientId)
  }

  /** Of entries `lo` up to `hi`, those that survive, in order. */
  function Survivors(m: map<nat, nat>, es: seq<Entry>, lo: nat, hi: nat): (r: seq<Entry>)
    requires lo <= hi <= |es|
    ensures |r| <= hi - lo
  {
    if lo == hi then []
    else Survivors(m, es, lo, hi - 1) + if Covered(m, es[hi - 1]) then [] else [es[hi - 1]]
  }

  /** Nothing is invented and nothing uncovered is lost. */
  lemma {:induction false} SurvivorsAreExactlyUncovered(m: map<nat, nat>, es: seq<Entry>, lo: nat, hi: nat, e: Entry)
    requires lo <= hi <= |es|
    ensures e in Survivors(m, es, lo, hi) <==> !Covered(m, e) && exists i :: lo <= i < hi && es[i] == e
  {
    if lo < hi {
      SurvivorsAreExactlyUncovered(m, es, lo, hi - 1, e);
    }
  }

  /** They are kept in order, each once: an uncovered entry comes after the survivors before it. */
  lemma {:induction false} SurvivorPlace(m: map<nat, nat>, es: seq<Entry>, lo: nat, hi: nat, i: nat)
    requires lo <= i < hi <= |es|
    ensures |Survivors(m, es, lo, i)| + (if Covered(m, es[i]) then 0 else 1) <= |Survivors(m, es, lo, hi)|
    ensures !Covered(m, es[i]) ==> Survivors(m, es, lo, hi)[|Survivors(m, es, lo, i)|] == es[i]
  {
    if i < hi - 1 {
      SurvivorPlace(m, es, lo, hi - 1, i);
    }
  }

  /** The request ids of entries `lo` up to `hi`, which a walk over them forgets. */
  function Ids(es: seq<Entry>, lo: nat, hi: nat): set<ReqId>
    requires lo <= hi <= |es|
  {
    if lo == hi then {} else Ids(es, lo, hi - 1) + {(es[hi - 1].clientId, es[hi - 1].clientSeq)}
  }

  /** Where the walk from record `w` stops: at the first record that starts past `top`. */
  function WalkEnd(recs: seq<Rec>, w: nat, top: nat): (r: nat)
    requires w <= |recs|
    ensures w <= r <= |recs|
    ensures forall i :: w <= i < r ==> recs[i].start <= top
    ensures r < |recs| ==> recs[r].start > top
    decreases |recs| - w
  {
    if w == |recs| || recs[w].start > top then w else WalkEnd(recs, w + 1, top)
  }

  /**
   * The test agrees with "the message names this client with a sequence at least as large" on every entry except
   * those with client sequence 0 whose client is absent from the message: those count as ordered although nothing
   * says so.
   */
  lemma CoveredExactly(m: map<nat, nat>, e: Entry)
    ensures Covered(m, e) <==>
            (e.clientId in m && e.clientSeq <= m[e.clientId]) || (e.clientId !in m && e.clientSeq == 0)
  {
  }

  // ---------------------------------------------------------------- a whole append

  /** Memory after publishing the entry at `off` and copying its overflow back. */
  function SealedMem(rg: nat, mem: seq<byte>, off: nat, span: nat): (m: seq<byte>)
    requires off + META_DATA_SIZE <= |mem|
    ensures |m| == |mem|
  {
    CopyBack(SetFlag(mem, off, 1), rg, off + span)
  }

  /** Memory after everything that follows a reservation at `off`; the entry is first written with a zero flag. */
  function FilledMem(rg: nat, mem: seq<byte>, off: nat, e: Entry): (m: seq<byte>)
    requires off + META_DATA_SIZE <= |mem|
    ensures |m| == |mem|
  {
    SealedMem(rg, WriteEntry(mem, off, e.(flags := 0)), off, Span(e))
  }

  /** Memory after all four writes of an append at `off`. */
  function AppendedMem(rg: nat, mem: seq<byte>, off: nat, e: Entry): (m: seq<byte>)
    requires off + META_DATA_SIZE <= |mem|
    ensures |m| == |mem|
  {
    FilledMem(rg, SetFlag(mem, off, 0), off, e)
  }

  /** One append, start to finish, on a ring whose only appender is idle. */
  ghost function Appended(s: State, e: Entry): State
    requires Shape(s)
  {
    var f := Final(s, e);
    s.(mem := AppendedMem(s.rg, s.mem, s.sequencer % s.rg, f),
       idxToSeq := s.idxToSeq[Slot(|s.idxToSeq|, s.indexer) := s.sequencer],
       indexer := s.indexer + 1, sequencer := s.sequencer + Span(e),
       recs := s.recs + [Rec(s.sequencer, f, Done)])
  }

  /** The only appender works on the newest record, which is at the given stage. */
  predicate Midway(s: State, stage: Stage) {
    && Inv(s) && |s.recs| > 0 && s.threads == [Busy(|s.recs| - 1)] && s.recs[|s.recs| - 1].stage == stage
  }

  /** The state once the append in progress is over, if it leaves memory as `m`. */
  ghost function Over(s: State, m: seq<byte>): State
    requires |s.recs| > 0
  {
    var n := |s.recs| - 1;
    s.(mem := m, recs := s.recs[n := s.recs[n].(stage := Done)], threads := [Idle])
  }

  lemma PublishedMidway(s: State, s': State)
    requires Midway(s, Written) && s' == Apply(s, Publish(0))
    ensures Midway(s', Flagged) && StageChange(s, s')
    ensures s'.mem == SetFlag(s.mem, Off(s.rg, s.recs[|s.recs| - 1]), 1)
  {
    RingProofs.PublishKeeps(s, 0);
  }

  lemma WrittenMidway(s: State, s': State)
    requires Midway(s, Reserved) && s' == Apply(s, Write(0))
    ensures Midway(s', Written) && StageChange(s, s')
    ensures var r := s.recs[|s.recs| - 1]; s'.mem == WriteEntry(s.mem, Off(s.rg, r), r.entry.(flags := 0))
  {
    RingProofs.WriteKeeps(s, 0);
  }

  /** Only memory and the stage of the newest record change. */
  predicate StageChange(s: State, s': State) {
    && |s.recs| > 0 && |s'.recs| == |s.recs| && s' == s.(mem := s'.mem, recs := s'.recs)
    && var n := |s.recs| - 1; s'.recs == s.recs[n := s.recs[n].(stage := s'.recs[n].stage)]
  }

  lemma StageOver(s: State, s': State, m: seq<byte>)
    requires StageChange(s, s')
    ensures Over(s', m) == Over(s, m)
  {
    var n := |s.recs| - 1;
    assert s'.recs[n := s'.recs[n].(stage := Done)] == s.recs[n := s.recs[n].(stage := Done)];
  }

  /** Where the newest record lies and what it will hold. */
  predicate Newest(s: State, off: nat, e: Entry) {
    s.rg > 0 && |s.recs| > 0 && Off(s.rg, s.recs[|s.recs| - 1]) == off && s.recs[|s.recs| - 1].entry == e
  }

  lemma FinishOver(s: State, off: nat, e: Entry, m: seq<byte>)
    requires Midway(s, Flagged) && Newest(s, off, e) && m == CopyBack(s.mem, s.rg, off + Span(e))
    ensures Inv(Over(s, m))
  {
    FinishIsOver(s, off, e, m);
    NewestIsFresh(s);
    RingProofs.FinishKeeps(s, 0);
  }

  lemma NewestIsFresh(s: State)
    requires Sound(s) && |s.recs| > 0
    ensures Fresh(s, s.recs[|s.recs| - 1])
  {
    assert RecSane(s, |s.recs| - 1);
  }

  lemma FinishIsOver(s: State, off: nat, e: Entry, m: seq<byte>)
    requires Shape(s) && Newest(s, off, e) && m == CopyBack(s.mem, s.rg, off + Span(e))
    requires s.threads == [Busy(|s.recs| - 1)] && s.recs[|s.recs| - 1].stage == Flagged
    ensures Apply(s, Finish(0)) == Over(s, m)
  {
    var n := |s.recs| - 1;
    RingProofs.FinishFields(s, 0, s.recs[n]);
    EndOf(s.rg, s.recs[n], off, e);
    assert s.threads[0 := Idle] == [Idle];
  }

  lemma EndOf(rg: nat, rec: Rec, off: nat, e: Entry)
    requires rg > 0 && off == Off(rg, rec) && rec.entry == e
    ensures End(rg, rec) == off + Span(e)
  {
  }

  lemma PublishOver(s: State, off: nat, e: Entry, m: seq<byte>)
    requires Midway(s, Written) && Newest(s, off, e) && off + META_DATA_SIZE <= |s.mem|
    requires m == SealedMem(s.rg, s.mem, off, Span(e))
    ensures Inv(Over(s, m))
  {
    var s' := Apply(s, Publish(0));
    PublishedMidway(s, s');
    StageOver(s, s', m);
    FinishOver(s', off, e, m);
  }

  lemma WriteOver(s: State, off: nat, e: Entry, m: seq<byte>)
    requires Midway(s, Reserved) && Newest(s, off, e) && off + META_DATA_SIZE <= |s.mem|
    requires m == FilledMem(s.rg, s.mem, off, e)
    ensures Inv(Over(s, m))
  {
    var s' := Apply(s, Write(0));
    WrittenMidway(s, s');
    StageOver(s, s', m);
    PublishOver(s', off, e, m);
  }

  lemma ReservedMidway(s: State, e: Entry)
    requires Inv(s) && s.threads == [Admitted(e)] && s.indexer < TWO_64
    ensures var s', off, f := Apply(s, Reserve(0)), s.sequencer % s.rg, Final(s, e);
            && Midway(s', Reserved) && s'.rg == s.rg && s'.mem == SetFlag(s.mem, off, 0)
            && Off(s.rg, s'.recs[|s.recs|]) == off && s'.recs[|s.recs|].entry == f && |s'.recs| == |s.recs| + 1
  {
    RingProofs.ReserveKeeps(s, 0);
    assert [Admitted(e)][0 := Busy(|s.recs|)] == [Busy(|s.recs|)];
  }

  lemma ReserveThenOver(s: State, e: Entry, m: seq<byte>)
    requires Shape(s) && s.threads == [Admitted(e)] && s.indexer < TWO_64
    requires m == AppendedMem(s.rg, s.mem, s.sequencer % s.rg, Final(s, e))
    ensures Over(Apply(s, Reserve(0)), m) == Appended(s, e).(threads := [Idle])
  {
    var s', r := Apply(s, Reserve(0)), Rec(s.sequencer, Final(s, e), Done);
    assert s'.recs[|s.recs| := r] == s.recs + [r];
  }

  lemma ReserveOver(s: State, e: Entry)
    requires Inv(s) && s.threads == [Admitted(e)] && s.indexer < TWO_64
    ensures Inv(Appended(s, e).(threads := [Idle]))
  {
    var m := AppendedMem(s.rg, s.mem, s.sequencer % s.rg, Final(s, e));
    ReserveThenOver(s, e, m);
    ReservedMidway(s, e);
    WriteOver(Apply(s, Reserve(0)), s.sequencer % s.rg, Final(s, e), m);
  }

  /** The sequential append is the five steps of the ring taken by one appender, so it keeps the ring's invariant. */
  lemma AppendKeeps(s: State, e: Entry)
    requires Inv(s) && s.threads == [Idle] && Enabled(s, Admit(0, e)) && s.indexer < TWO_64
    ensures Inv(Appended(s, e))
  {
    var s' := s.(threads := [Admitted(e)]);
    assert Appended(s', e).(threads := [Idle]) == Appended(s, e);
    assert [Idle][0 := Admitted(e)] == [Admitted(e)];
    assert s' == Apply(s, Admit(0, e));
    RingProofs.AdmitKeeps(s, 0, e);
    ReserveOver(s', e);
  }

  /** Everything after the reservation, in place: write, publish, copy the overflow back. */
  method WriteAndPublish(mem: array<byte>, rg: nat, offset: nat, e: Entry, ghost before: seq<byte>, ghost m: seq<byte>)
    requires offset + Span(e) <= mem.Length == |before| && offset + Span(e) <= 2 * rg
    requires mem[..] == SetFlag(before, offset, 0) && m == AppendedMem(rg, before, offset, e)
    modifies mem
    ensures mem[..] == m
  {
    WriteShowCopy(mem, rg, offset, e);
  }

  method WriteShowCopy(mem: array<byte>, rg: nat, offset: nat, e: Entry)
    requires offset + Span(e) <= mem.Length && offset + Span(e) <= 2 * rg
    modifies mem
    ensures mem[..] == FilledMem(rg, old(mem[..]), offset, e)
  {
    var size := Serializer(e.(flags := 0), mem, offset);
    ghost var written := WriteEntry(old(mem[..]), offset, e.(flags := 0));
    assert mem[..] == written;
    PutBytes(mem, offset + FLAG_POS, LittleEndian(1, 2));
    ghost var shown := SetFlag(written, offset, 1);
    assert mem[..] == shown;
    if offset + size > rg {
      assert mem[rg..offset + size] == shown[rg..offset + size];
      PutBytes(mem, 0, mem[rg..offset + size]);
    }
    assert mem[..] == CopyBack(shown, rg, offset + Span(e));
  }

  // ---------------------------------------------------------------- the replica

  function RecordEntries(recs: seq<Rec>): (es: seq<Entry>)
    ensures |es| == |recs| && forall i :: 0 <= i < |recs| ==> es[i] == recs[i].entry
  {
    seq(|recs|, i requires 0 <= i < |recs| => recs[i].entry)
  }

  predicate AllDone(recs: seq<Rec>) {
    forall i :: 0 <= i < |recs| ==> recs[i].stage.Done?
  }

  /** A sequence the request-id map may hold: 0, or where a record starts. */
  predicate IsBoundary(recs: seq<Rec>, sq: nat) {
    sq == 0 || exists i :: 0 <= i < |recs| && recs[i].start == sq
  }

  predicate MapSane(recs: seq<Rec>, known: map<ReqId, nat>) {
    forall id :: id in known ==> IsBoundary(recs, known[id])
  }

  lemma BoundariesKept(recs: seq<Rec>, recs': seq<Rec>, known: map<ReqId, nat>, known': map<ReqId, nat>, added: ReqId)
    requires MapSane(recs, known) && |recs'| == |recs| + 1 && recs'[..|recs|] == recs
    requires known' == known || known' == known[added := recs'[|recs|].start]
    ensures MapSane(recs', known')
  {
    forall id | id in known'
      ensures IsBoundary(recs', known'[id])
    {
      assert recs'[|recs|].start == recs'[|recs|].start;
      if id in known && known'[id] == known[id] && known[id] != 0 {
        var i :| 0 <= i < |recs| && recs[i].start == known[id];
        assert recs'[i] == recs[i];
      }
    }
  }

  /** What memory will be once the append, whose record is already counted in `t`, is over. */
  lemma Foreseen(s: State, t: State, e: Entry, f: Entry) returns (m: seq<byte>)
    requires Shape(s) && f == Final(s, e)
    requires t == s.(mem := t.mem, idxToSeq := s.idxToSeq[Slot(|s.idxToSeq|, s.indexer) := s.sequencer],
                     indexer := s.indexer + 1, sequencer := s.sequencer + Span(e),
                     recs := s.recs + [Rec(s.sequencer, f, Done)])
    ensures m == AppendedMem(s.rg, s.mem, s.sequencer % s.rg, f) && t.(mem := m) == Appended(s, e)
  {
    m := AppendedMem(s.rg, s.mem, s.sequencer % s.rg, f);
  }

  /** What an append leaves behind is a valid replica again. */
  lemma AppendValid(s: State, e: Entry, known: map<ReqId, nat>, id: ReqId, primary: bool)
    requires Inv(s) && s.threads == [Idle] && Enabled(s, Admit(0, e)) && s.indexer < TWO_64
    requires AllDone(s.recs) && MapSane(s.recs, known)
    ensures GetSize(e) == Span(e) <= SAFE_RG_SIZE
    ensures var t := Appended(s, e);
            Inv(t) && AllDone(t.recs) && MapSane(t.recs, if primary then known else known[id := s.sequencer])
  {
    AppendKeeps(s, e);
    RingProofs.SmallEntriesDoNotWrap(e);
    BoundariesKept(s.recs, Appended(s, e).recs, known, if primary then known else known[id := s.sequencer], id);
  }

  /** `recs'` is `recs` and a finished record of `e` at `sq`, under index `idx` and view `view`. */
  ghost predicate AddsRecord(recs: seq<Rec>, recs': seq<Rec>, e: Entry, idx: nat, view: nat, sq: nat) {
    && |recs'| == |recs| + 1 && recs'[..|recs|] == recs
    && var r := recs'[|recs|];
       && r.start == sq && r.stage.Done? && RingProofs.Carries(r.entry, e)
       && r.entry.logIdx == idx && r.entry.view == view && r.entry.flags == 1
  }

  lemma AppendedAdds(s: State, e: Entry)
    requires Shape(s)
    ensures AddsRecord(s.recs, Appended(s, e).recs, e, s.indexer, s.view, s.sequencer)
  {
  }

  class DurabilityLogFlat {
    const rg: nat
    const maxSpan: nat
    const view: nat
    const isPrimary: bool
    const mem: array<byte>
    const idxToSeq: array<nat>
    var sequencer: nat
    var indexer: nat
    var orderedWatermk: nat
    var orderedIdxWatermk: nat
    var reqidToSeq: map<ReqId, nat>
    ghost var recs: seq<Rec>
    /** Where the latest entries start, by slot; only the primary keeps this in `idxToSeq`. */
    ghost var slots: seq<nat>

    /** This replica as a state of the ring in which its one appender is idle. */
    ghost function Abs(): State
      reads this, mem
    {
      State(rg, maxSpan, view, mem[..], slots, sequencer, indexer, orderedWatermk, orderedIdxWatermk, recs, [Idle])
    }

    ghost predicate Valid()
      reads this, mem, idxToSeq
    {
      && Inv(Abs()) && AllDone(recs) && MapSane(recs, reqidToSeq)
      && idxToSeq.Length == |slots| && (isPrimary ==> idxToSeq[..] == slots)
    }

    constructor (rgSize: nat, maxEntrySpan: nat, currentView: nat, primary: bool)
      requires SLACK < rgSize && 0 < maxEntrySpan <= SAFE_RG_SIZE && currentView < Pow256(2)
      ensures Valid() && recs == [] && reqidToSeq == map[] && sequencer == 0
      ensures rg == rgSize && maxSpan == maxEntrySpan && view == currentView && isPrimary == primary
    {
      rg, maxSpan, view, isPrimary := rgSize, maxEntrySpan, currentView, primary;
      mem := new byte[rgSize + SAFE_RG_SIZE];
      idxToSeq := new nat[rgSize / META_DATA_SIZE];
      sequencer, indexer, orderedWatermk, orderedIdxWatermk := 0, 0, 0, 0;
      reqidToSeq, recs := map[], [];
      new;
      slots := idxToSeq[..];
      assert Times(1, maxSpan) == maxSpan;
      RingProofs.InitKeeps(Abs());
    }

    /**
     * `AppendEntry`; `ok` is false while the wait for space goes on, which is exactly while the entry, the unordered
     * entries and the slack do not fit the ring. Afterwards the ring holds the entry as it was given, with its index,
     * view and flag, after the others, and a backup knows its byte sequence by request id.
     */
    method AppendEntry(e: Entry) returns (ok: bool, sq: nat)
      requires Valid() && Representable(e) && e.flags == 0 && Span(e) <= maxSpan && indexer < TWO_64
      modifies this, mem, idxToSeq
      ensures Valid() && sq == old(sequencer)
      ensures ok <==> RingProofs.BytesFrom(old(recs), old(orderedIdxWatermk)) + Span(e) + SLACK < rg
      ensures !ok ==> Abs() == old(Abs()) && reqidToSeq == old(reqidToSeq)
      ensures ok ==> Abs() == Appended(old(Abs()), e) && AddsRecord(old(recs), recs, e, old(indexer), view, sq)
      ensures ok ==> reqidToSeq == if isPrimary then old(reqidToSeq)
                                   else old(reqidToSeq)[(e.clientId, e.clientSeq) := sq]
    {
      sq := sequencer;
      RingProofs.AdmittedExactly(Abs(), 0, e);
      ok := sequencer + GetSize(e) - orderedWatermk < rg - SLACK;
      if ok {
        AppendedAdds(Abs(), e);
        AppendAdmitted(e);
      }
    }

    /** An append that has got past the wait. */
    method AppendAdmitted(e: Entry)
      requires Valid() && Enabled(Abs(), Admit(0, e)) && indexer < TWO_64
      modifies this`indexer, this`sequencer, this`recs, this`slots, this`reqidToSeq, mem, idxToSeq
      ensures Valid() && Abs() == Appended(old(Abs()), e)
      ensures reqidToSeq == if isPrimary then old(reqidToSeq)
                            else old(reqidToSeq)[(e.clientId, e.clientSeq) := old(sequencer)]
    {
      var sq := sequencer;
      AppendValid(Abs(), e, reqidToSeq, (e.clientId, e.clientSeq), isPrimary);
      AppendInPlace(e);
      if !isPrimary {
        reqidToSeq := reqidToSeq[(e.clientId, e.clientSeq) := sq];
      }
    }

    /** Under the index lock: clear the flag, remember the sequence by index, take index and sequence. */
    method ReserveInPlace(size: nat) returns (sq: nat, idx: nat)
      requires Shape(Abs()) && idxToSeq.Length == |slots| && (isPrimary ==> idxToSeq[..] == slots)
      modifies this`indexer, this`sequencer, this`slots, mem, idxToSeq
      ensures sq == old(sequencer) && idx == old(indexer) && indexer == idx + 1 && sequencer == sq + size
      ensures mem[..] == SetFlag(old(mem[..]), sq % rg, 0)
      ensures slots == old(slots)[Slot(|old(slots)|, idx) := sq]
      ensures idxToSeq[..] == if isPrimary then slots else old(idxToSeq[..])
    {
      sq, idx := sequencer, indexer;
      PutBytes(mem, sq % rg + FLAG_POS, LittleEndian(0, 2));
      if isPrimary {
        idxToSeq[Slot(idxToSeq.Length, idx)] := sq;
      }
      slots := slots[Slot(|slots|, idx) := sq];
      indexer := indexer + 1;
      sequencer := sequencer + size;
    }

    /** The writes of an append once there is space, in the order of the source. */
    method AppendInPlace(e: Entry)
      requires Shape(Abs()) && e.flags == 0 && GetSize(e) == Span(e) <= SAFE_RG_SIZE
      requires idxToSeq.Length == |slots| && (isPrimary ==> idxToSeq[..] == slots)
      modifies this`indexer, this`sequencer, this`recs, this`slots, mem, idxToSeq
      ensures Abs() == Appended(old(Abs()), e)
      ensures idxToSeq.Length == |slots| && (isPrimary ==> idxToSeq[..] == slots)
    {
      ghost var s := Abs();
      var sq, idx := ReserveInPlace(GetSize(e));
      FillInPlace(e, sq, idx, s);
    }

    /** The rest of the append, outside the lock. */
    method FillInPlace(e: Entry, sq: nat, idx: nat, ghost s: State)
      requires Shape(s) && Span(e) <= SAFE_RG_SIZE && sq == s.sequencer && idx == s.indexer
      requires Abs() == s.(mem := SetFlag(s.mem, sq % s.rg, 0), indexer := idx + 1, sequencer := sq + Span(e),
                           idxToSeq := s.idxToSeq[Slot(|s.idxToSeq|, idx) := sq])
      modifies this`recs, mem
      ensures Abs() == Appended(s, e)
    {
      var f, offset := e.(logIdx := idx, view := view, flags := 1), sq % rg;
      recs := recs + [Rec(sq, f, Done)];
      ghost var m := Foreseen(s, Abs(), e, f);
      WriteAndPublish(mem, rg, offset, f, s.mem, m);
    }
  }

  /** Walking one entry further, as a change of what is kept and what is forgotten. */
  lemma OneMore(m: map<nat, nat>, es: seq<Entry>, lo: nat, w: nat, pending: seq<Entry>, known: map<ReqId, nat>)
    requires lo <= w < |es|
    ensures pending + Survivors(m, es, lo, w + 1)
         == pending + Survivors(m, es, lo, w) + (if Covered(m, es[w]) then [] else [es[w]])
    ensures known - Ids(es, lo, w + 1) == known - Ids(es, lo, w) - {(es[w].clientId, es[w].clientSeq)}
  {
  }

  lemma {:induction false} LookupKeepsValues(ids: seq<ReqId>, known: map<ReqId, nat>, n: nat, id: ReqId)
    requires n <= |ids|
    ensures At(LookedUp(ids, known, n), id) == At(known, id)
  {
    if n > 0 {
      LookupKeepsValues(ids, known, n - 1, id);
    }
  }

  /** After the look-up the map has the ids it had, with their values, and those looked up in vain, with 0. */
  lemma {:induction false} LookedUpExactly(ids: seq<ReqId>, known: map<ReqId, nat>, n: nat, id: ReqId)
    requires n <= |ids|
    ensures id in LookedUp(ids, known, n) <==> id in known || exists i :: 0 <= i < n && ids[i] == id
    ensures id in LookedUp(ids, known, n) ==> LookedUp(ids, known, n)[id] == At(known, id)
  {
    if n > 0 {
      LookedUpExactly(ids, known, n - 1, id);
    }
  }

  lemma {:induction false} MaxSeqIsBoundary(recs: seq<Rec>, ids: seq<ReqId>, known: map<ReqId, nat>, n: nat)
    requires n <= |ids| && MapSane(recs, known)
    ensures IsBoundary(recs, MaxSeq(ids, known, n))
  {
    if n > 0 {
      MaxSeqIsBoundary(recs, ids, known, n - 1);
    }
  }

  lemma {:induction false} LookedUpSane(recs: seq<Rec>, ids: seq<ReqId>, known: map<ReqId, nat>, n: nat)
    requires n <= |ids| && MapSane(recs, known)
    ensures MapSane(recs, LookedUp(ids, known, n))
  {
    if n > 0 {
      LookedUpSane(recs, ids, known, n - 1);
    }
  }

  /** The largest byte sequence known for one of the ids is known for one of them, or 0, and none is larger. */
  lemma {:induction false} MaxSeqIsLargest(ids: seq<ReqId>, known: map<ReqId, nat>, n: nat)
    requires n <= |ids|
    ensures forall i :: 0 <= i < n ==> At(known, ids[i]) <= MaxSeq(ids, known, n)
    ensures MaxSeq(ids, known, n) == 0 || exists i :: 0 <= i < n && At(known, ids[i]) == MaxSeq(ids, known, n)
  {
    if n > 0 {
      MaxSeqIsLargest(ids, known, n - 1);
      if MaxSeq(ids, known, n) != At(known, ids[n - 1]) && MaxSeq(ids, known, n) != 0 {
        var i :| 0 <= i < n - 1 && At(known, ids[i]) == MaxSeq(ids, known, n - 1);
      }
    }
  }
}

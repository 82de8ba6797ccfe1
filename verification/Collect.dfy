/** A backup's garbage collection, on its own thread beside the appenders. */
module Collect {
  import opened Codec
  import opened Batches
  import opened Ring
  import opened DurLog
  import RingProofs

  // ---------------------------------------------------------------- the ring while the collection goes on

  /** The states of the ring during a collection, in order; only the collection moves this replica's watermarks. */
  ghost predicate Period(run: seq<State>, rg: nat, lo: nat) {
    && |run| > 0
    && (forall k :: 0 <= k < |run| ==> Inv(run[k]) && run[k].rg == rg && run[k].orderedIdxWatermk == lo)
    && (forall j, k :: 0 <= j <= k < |run| ==> run[j].rg > 0 && RingProofs.Later(run[j], run[k]))
  }

  /** Any stretch of a timely run in which the watermarks stay is such a period. */
  lemma StretchIsPeriod(states: seq<State>, steps: seq<Step>, j: nat, n: nat)
    requires RingProofs.TimelyRun(states, steps) && j < n <= |states|
    requires forall k :: j <= k < n ==> states[k].orderedIdxWatermk == states[j].orderedIdxWatermk
    ensures Period(states[j..n], states[j].rg, states[j].orderedIdxWatermk)
  {
    var run := states[j..n];
    forall k | 0 <= k < |run|
      ensures Inv(run[k]) && run[k].rg == states[j].rg && run[k].orderedIdxWatermk == states[j].orderedIdxWatermk
    {
      RingProofs.RunKeeps(states, steps, j + k);
      RingProofs.RunLater(states, steps, j, j + k);
    }
    forall i, k | 0 <= i <= k < |run|
      ensures run[i].rg > 0 && RingProofs.Later(run[i], run[k])
    {
      RingProofs.RunLater(states, steps, j + i, j + k);
    }
  }

  /** The wait for the flag ends exactly when the entry is shown. */
  lemma FlagMeansShown(s: State, w: nat)
    requires Inv(s) && s.orderedIdxWatermk <= w < |s.recs|
    ensures Off(s.rg, s.recs[w]) + META_DATA_SIZE <= |s.mem| && RecOk(s.rg, s.mem, s.recs[w])
    ensures GetFlagFromBuf(s.mem, Off(s.rg, s.recs[w])) == 1 <==> Shown(s.recs[w])
  {
    RingProofs.WatermarkBelow(s, w);
    assert RecSane(s, w) && RecOk(s.rg, s.mem, s.recs[w]);
    if !s.recs[w].stage.Reserved? {
      HeldSize(s.mem, Off(s.rg, s.recs[w]), Stored(s.recs[w]));
    }
  }

  /** A shown entry is in memory at its offset, and its size is the distance to the next one. */
  lemma ReadsRecord(s: State, w: nat)
    requires Inv(s) && s.orderedIdxWatermk <= w < |s.recs| && Shown(s.recs[w])
    ensures var off, e := s.recs[w].start % s.rg, s.recs[w].entry;
            && Readable(s.mem, off) && Holds(s.mem, off, e) && e.flags == 1 && e.logIdx == w
            && GetSize(e) == Span(e) && s.recs[w].start + Span(e) == StartAt(s, w + 1)
  {
    FlagMeansShown(s, w);
    assert RecSane(s, w);
    HeldSize(s.mem, s.recs[w].start % s.rg, s.recs[w].entry);
    RingProofs.SmallEntriesDoNotWrap(s.recs[w].entry);
  }

  /** While the walk is at or below a boundary, there is an entry to visit. */
  lemma BoundaryInside(s: State, top: nat, w: nat)
    requires Sound(s) && s.recs != [] && IsBoundary(s.recs, top) && w <= |s.recs| && StartAt(s, w) <= top
    ensures w < |s.recs|
  {
    RingProofs.StartsIncrease(s, 0, |s.recs|);
    if top != 0 {
      var i :| 0 <= i < |s.recs| && s.recs[i].start == top;
      RingProofs.StartsIncrease(s, i, |s.recs|);
    }
  }

  /** Entries at or below a boundary that existed at the beginning existed then too; entry 0 is the one exception. */
  lemma VisitedExists(s: State, t: State, top: nat, w: nat)
    requires Sound(s) && Sound(t) && RingProofs.Later(s, t) && IsBoundary(s.recs, top)
    requires w < |t.recs| && t.recs[w].start <= top
    ensures w < |s.recs| || (w == 0 && s.recs == [])
  {
    if w >= |s.recs| {
      if top != 0 {
        var i :| 0 <= i < |s.recs| && s.recs[i].start == top;
        RingProofs.StartsIncrease(t, i, w);
      } else if w > 0 {
        RingProofs.StartsIncrease(t, 0, w);
      }
    }
  }

  /** What the walk up to `top` counts on: in the end every entry there is shown, and nothing reads as one before. */
  ghost predicate Patient(run: seq<State>, lo: nat, top: nat)
    requires |run| > 0 && lo <= |run[|run| - 1].recs|
  {
    var fin := run[|run| - 1];
    && fin.recs != []
    && (forall w :: lo <= w < WalkEnd(fin.recs, lo, top) ==> Shown(fin.recs[w]))
    && (forall k :: 0 <= k < |run| && run[k].recs == [] && META_DATA_SIZE <= |run[k].mem| ==>
          GetFlagFromBuf(run[k].mem, 0) != 1)
  }

  /** At moment `k`, a set flag at `ofst` means that entry `w` is shown; in the end it is set. */
  predicate FlagTells(run: seq<State>, ofst: nat, w: nat, k: nat)
    requires k < |run|
  {
    && ofst + META_DATA_SIZE <= |run[k].mem|
    && (GetFlagFromBuf(run[k].mem, ofst) == 1 ==> w < |run[k].recs| && Shown(run[k].recs[w]))
    && (k == |run| - 1 ==> GetFlagFromBuf(run[k].mem, ofst) == 1)
  }

  /** The busy wait: time passes until the flag at the entry's offset is set. */
  method WaitForFlag(run: seq<State>, now: nat, ofst: nat, ghost w: nat) returns (at: nat)
    requires now < |run|
    requires forall k {:trigger FlagTells(run, ofst, w, k)} :: 0 <= k < |run| ==> FlagTells(run, ofst, w, k)
    ensures now <= at < |run| && w < |run[at].recs| && Shown(run[at].recs[w])
  {
    at := now;
    assert FlagTells(run, ofst, w, at);
    while GetFlagFromBuf(run[at].mem, ofst) != 1
      invariant now <= at < |run| && FlagTells(run, ofst, w, at)
      decreases |run| - at
    {
      at := at + 1;
      assert FlagTells(run, ofst, w, at);
    }
  }

  lemma WaitFacts(run: seq<State>, rg: nat, lo: nat, top: nat, w: nat, k: nat)
    requires Period(run, rg, lo) && lo <= |run[|run| - 1].recs| && Patient(run, lo, top)
    requires IsBoundary(run[0].recs, top) && k < |run|
    requires lo <= w < WalkEnd(run[|run| - 1].recs, lo, top)
    ensures FlagTells(run, Off(rg, run[|run| - 1].recs[w]), w, k)
  {
    var s, fin := run[k], run[|run| - 1];
    assert RingProofs.Later(s, fin) && RingProofs.Later(run[0], s) && RingProofs.Later(run[0], fin);
    assert Inv(s) && Inv(fin) && Inv(run[0]);
    if w < |s.recs| {
      FlagMeansShown(s, w);
    } else {
      VisitedExists(run[0], fin, top, w);
    }
    assert Shown(fin.recs[w]);
  }

  // ---------------------------------------------------------------- the collector

  /** Entries up to `w` have been visited by moment `now`, the last of them then. */
  ghost predicate Reached(run: seq<State>, lo: nat, w: nat, now: nat) {
    && now < |run| && lo <= w <= |run[now].recs|
    && forall i {:trigger Shown(run[now].recs[i])} :: lo <= i < w ==> Shown(run[now].recs[i])
  }

  class Collector {
    const rg: nat
    var orderedWatermk: nat
    var orderedIdxWatermk: nat
    var reqidToSeq: map<ReqId, nat>
    var pending: seq<Entry>

    /** The collector's watermarks are those of ring `s`, and every sequence it knows is where an entry starts. */
    ghost predicate Fits(s: State)
      reads this
    {
      && s.rg == rg && s.orderedWatermk == orderedWatermk && s.orderedIdxWatermk == orderedIdxWatermk
      && MapSane(s.recs, reqidToSeq)
    }

    constructor (rgSize: nat)
      ensures rg == rgSize && orderedWatermk == orderedIdxWatermk == 0 && reqidToSeq == map[] && pending == []
      ensures forall s :: Init(s) && s.rg == rgSize ==> Fits(s)
    {
      rg := rgSize;
      orderedWatermk, orderedIdxWatermk, reqidToSeq, pending := 0, 0, map[], [];
    }

    /** The largest client sequence per client, and the largest byte sequence, that a message names. */
    method CollectMax(ids: seq<ReqId>) returns (m: map<nat, nat>, top: nat)
      modifies this`reqidToSeq
      ensures m == MaxOf(ids, |ids|) && top == MaxSeq(ids, old(reqidToSeq), |ids|)
      ensures forall i :: 0 <= i < |ids| ==> At(old(reqidToSeq), ids[i]) <= top
      ensures top == 0 || exists i :: 0 <= i < |ids| && At(old(reqidToSeq), ids[i]) == top
      ensures reqidToSeq == LookedUp(ids, old(reqidToSeq), |ids|)
    {
      m, top := map[], 0;
      for i := 0 to |ids|
        invariant m == MaxOf(ids, i) && top == MaxSeq(ids, old(reqidToSeq), i)
        invariant reqidToSeq == LookedUp(ids, old(reqidToSeq), i)
      {
        m := m[ids[i].0 := ids[i].1];
        LookupKeepsValues(ids, old(reqidToSeq), i, ids[i]);
        if ids[i] !in reqidToSeq {
          reqidToSeq := reqidToSeq[ids[i] := 0];
        }
        top := if reqidToSeq[ids[i]] > top then reqidToSeq[ids[i]] else top;
      }
      MaxSeqIsLargest(ids, old(reqidToSeq), |ids|);
    }

    method PrunePending(m: map<nat, nat>) returns (nDel: nat)
      modifies this`pending
      ensures pending == Survivors(m, old(pending), 0, |old(pending)|)
      ensures nDel + |pending| == |old(pending)|
    {
      var kept := [];
      nDel := 0;
      for i := 0 to |pending|
        invariant pending == old(pending) && kept == Survivors(m, pending, 0, i) && nDel + |kept| == i
      {
        if pending[i].clientSeq <= At(m, pending[i].clientId) {
          nDel := nDel + 1;
        } else {
          kept := kept + [pending[i]];
        }
      }
      pending := kept;
    }

    /** One entry of the walk: it is dropped or kept for later, and its request id is forgotten. */
    method VisitEntry(m: map<nat, nat>, mem: seq<byte>, s: nat, ghost held: Entry) returns (next: nat, removed: nat)
      requires rg > 0 && Readable(mem, s % rg) && Holds(mem, s % rg, held) && held.flags != 0
      requires GetSize(held) == Span(held)
      modifies this`orderedIdxWatermk, this`reqidToSeq, this`pending
      ensures next == s + Span(held) && orderedIdxWatermk == held.logIdx + 1
      ensures pending == old(pending) + (if Covered(m, held) then [] else [held])
      ensures removed == if Covered(m, held) then 1 else 0
      ensures reqidToSeq == old(reqidToSeq) - {(held.clientId, held.clientSeq)}
    {
      var ofst := s % rg;
      HeldSize(mem, ofst, held);
      assert forall k :: 0 <= k < 3 ==> Get(mem, ofst, k) == Value(held, k);
      var clientId, clientSeq := GetClientId(mem, ofst), GetClientSeq(mem, ofst);
      removed := 0;
      if clientSeq > At(m, clientId) {
        var e, _ := Deserializer(mem, ofst);
        HeldEntryIsUnique(mem, ofst, e, held);
        pending := pending + [e];
      } else {
        removed := 1;
      }
      reqidToSeq := reqidToSeq - {(clientId, clientSeq)};
      next := s + GetSizeFromBuf(mem, ofst);
      orderedIdxWatermk := GetIdx(mem, ofst) + 1;
    }

    /** The walk has come to entry `w`, with `nDel` of the visited ones removed. */
    ghost predicate WalkedTo(es: seq<Entry>, m: map<nat, nat>, lo: nat, w: nat, was: seq<Entry>, knew: map<ReqId, nat>,
                             nDel: nat)
      reads this
    {
      && lo <= w <= |es| && orderedIdxWatermk == w
      && pending == was + Survivors(m, es, lo, w) && nDel + |pending| == |was| + (w - lo)
      && reqidToSeq == knew - Ids(es, lo, w)
    }

    /** The visit of entry `w`, which `mem` shows. */
    method Visit(m: map<nat, nat>, mem: seq<byte>, s: nat, nDel: nat, ghost fin: State, ghost lo: nat, ghost w: nat,
                 ghost was: seq<Entry>, ghost knew: map<ReqId, nat>)
      returns (next: nat, removed: nat)
      requires w < |fin.recs| && fin.rg == rg && s == fin.recs[w].start && InView(fin, w, mem)
      requires WalkedTo(RecordEntries(fin.recs), m, lo, w, was, knew, nDel)
      modifies this`orderedIdxWatermk, this`reqidToSeq, this`pending
      ensures WalkedTo(RecordEntries(fin.recs), m, lo, w + 1, was, knew, removed) && next == StartAt(fin, w + 1)
    {
      var gone;
      next, gone := VisitEntry(m, mem, s, fin.recs[w].entry);
      OneMore(m, RecordEntries(fin.recs), lo, w, was, knew);
      removed := nDel + gone;
    }

    /** Wait for entry `w` and visit it in the state in which it is found shown. */
    method WaitAndVisit(m: map<nat, nat>, run: seq<State>, time: nat, s: nat, nDel: nat, ghost lo: nat, ghost top: nat,
                        ghost w: nat, ghost was: seq<Entry>, ghost knew: map<ReqId, nat>)
      returns (next: nat, removed: nat, at: nat)
      requires Period(run, rg, lo) && lo <= |run[|run| - 1].recs| && Patient(run, lo, top)
      requires IsBoundary(run[0].recs, top)
      requires lo <= w <= WalkEnd(run[|run| - 1].recs, lo, top) && s == StartAt(run[|run| - 1], w) <= top
      requires Reached(run, lo, w, time) && WalkedTo(RecordEntries(run[|run| - 1].recs), m, lo, w, was, knew, nDel)
      modifies this`orderedIdxWatermk, this`reqidToSeq, this`pending
      ensures w < WalkEnd(run[|run| - 1].recs, lo, top) && next == StartAt(run[|run| - 1], w + 1)
      ensures Reached(run, lo, w + 1, at)
      ensures WalkedTo(RecordEntries(run[|run| - 1].recs), m, lo, w + 1, was, knew, removed)
    {
      ghost var fin := run[|run| - 1];
      WalkGoesOn(run, rg, lo, top, w);
      assert fin.rg == rg;
      var later :| time <= later < |run|;
      at := WaitFor(run, rg, later, s, lo, top, w, time);
      next, removed := Visit(m, run[at].mem, s, nDel, fin, lo, w, was, knew);
    }

    /**
     * The walk from the ordered watermark up to `top`, each entry read when the wait for it ends. It visits whole
     * entries only and leaves the index watermark at the boundary where it stops; `s` is that boundary in bytes.
     */
    method WalkLoop(m: map<nat, nat>, top: nat, run: seq<State>, ghost lo: nat, ghost was: seq<Entry>,
                    ghost knew: map<ReqId, nat>)
      returns (s: nat, nDel: nat, ghost w: nat, ghost now: nat)
      requires Period(run, rg, lo) && lo <= |run[|run| - 1].recs| && Patient(run, lo, top)
      requires IsBoundary(run[0].recs, top) && orderedWatermk == StartAt(run[|run| - 1], lo)
      requires Reached(run, lo, lo, 0) && WalkedTo(RecordEntries(run[|run| - 1].recs), m, lo, lo, was, knew, 0)
      modifies this`orderedIdxWatermk, this`reqidToSeq, this`pending
      ensures lo <= w <= WalkEnd(run[|run| - 1].recs, lo, top) && s == StartAt(run[|run| - 1], w) > top
      ensures WalkedTo(RecordEntries(run[|run| - 1].recs), m, lo, w, was, knew, nDel) && Reached(run, lo, w, now)
    {
      ghost var fin := run[|run| - 1];
      w := lo;
      var time := 0;
      s, nDel := orderedWatermk, 0;
      while s <= top
        invariant lo <= w <= WalkEnd(fin.recs, lo, top) && s == StartAt(fin, w)
        invariant WalkedTo(RecordEntries(fin.recs), m, lo, w, was, knew, nDel)
        invariant Reached(run, lo, w, time)
        decreases |fin.recs| - w
      {
        s, nDel, time := WaitAndVisit(m, run, time, s, nDel, lo, top, w, was, knew);
        w := w + 1;
      }
      now := time;
    }

    /** The walk, and then the byte watermark: at the moment `now` this is the ring's own watermark step. */
    method Walk(m: map<nat, nat>, top: nat, run: seq<State>) returns (nDel: nat, ghost now: nat)
      requires Period(run, rg, orderedIdxWatermk) && orderedIdxWatermk <= |run[|run| - 1].recs|
      requires Patient(run, orderedIdxWatermk, top) && orderedWatermk == StartAt(run[0], orderedIdxWatermk)
      requires IsBoundary(run[0].recs, top)
      modifies this`orderedWatermk, this`orderedIdxWatermk, this`reqidToSeq, this`pending
      ensures var fin, lo := run[|run| - 1], old(orderedIdxWatermk);
              var hi := WalkEnd(fin.recs, lo, top);
              && WalkedTo(RecordEntries(fin.recs), m, lo, hi, old(pending), old(reqidToSeq), nDel)
              && now < |run| && Advanced(run[now], hi, orderedWatermk)
    {
      ghost var lo := orderedIdxWatermk;
      WalkBegins(run, rg, lo);
      var s: nat;
      ghost var w;
      s, nDel, w, now := WalkLoop(m, top, run, lo, pending, reqidToSeq);
      WalkStops(run[|run| - 1], lo, top, w);
      orderedWatermk := s;
      WalkAdvances(run, rg, lo, w, now);
    }

    /**
     * `delEntriesBackup` beside the appenders. The ids say, per client, how far its entries are ordered; appenders may
     * register further ids between the two locked parts. Covered entries leave the pending list and the walked part of
     * the ring; the others of that part join the pending list. The result is the number of entries that left the two
     * together, and the watermarks move to the first boundary past the largest sequence named.
     */
    method DelEntriesBackup(ids: seq<ReqId>, registered: map<ReqId, nat>, run: seq<State>)
      returns (nDel: nat, ghost now: nat)
      requires Period(run, rg, orderedIdxWatermk) && orderedIdxWatermk <= |run[|run| - 1].recs|
      requires Fits(run[0]) && Patient(run, orderedIdxWatermk, MaxSeq(ids, reqidToSeq, |ids|))
      modifies this`orderedWatermk, this`orderedIdxWatermk, this`reqidToSeq, this`pending
      ensures var fin, m, lo := run[|run| - 1], MaxOf(ids, |ids|), old(orderedIdxWatermk);
              var es, hi := RecordEntries(fin.recs), WalkEnd(fin.recs, lo, MaxSeq(ids, old(reqidToSeq), |ids|));
              && orderedIdxWatermk == hi && now < |run| && Advanced(run[now], hi, orderedWatermk)
              && pending == Survivors(m, old(pending), 0, |old(pending)|) + Survivors(m, es, lo, hi)
              && nDel + |pending| == |old(pending)| + (hi - lo)
              && reqidToSeq == LookedUp(ids, old(reqidToSeq), |ids|) + registered - Ids(es, lo, hi)
      ensures var fin := run[|run| - 1];
              MapSane(fin.recs, registered) ==>
                Fits(fin.(orderedWatermk := orderedWatermk, orderedIdxWatermk := orderedIdxWatermk))
    {
      MaxSeqIsBoundary(run[0].recs, ids, reqidToSeq, |ids|);
      StillKnown(run, rg, orderedIdxWatermk, ids, reqidToSeq, registered);
      var m, top := CollectMax(ids);
      nDel := PrunePending(m);
      reqidToSeq := reqidToSeq + registered;
      var walked;
      walked, now := Walk(m, top, run);
      nDel := nDel + walked;
    }
  }

  /** What is known of the ring at the beginning, or found missing, or registered meanwhile, is known of it at the end. */
  lemma StillKnown(run: seq<State>, rg: nat, lo: nat, ids: seq<ReqId>, known: map<ReqId, nat>, registered: map<ReqId, nat>)
    requires Period(run, rg, lo) && MapSane(run[0].recs, known)
    ensures var fin := run[|run| - 1];
            run[0].orderedWatermk == StartAt(run[0], lo)
            && (MapSane(fin.recs, registered) ==> MapSane(fin.recs, LookedUp(ids, known, |ids|) + registered))
  {
    var fin, m := run[|run| - 1], LookedUp(ids, known, |ids|);
    assert Inv(run[0]) && RingProofs.Later(run[0], fin);
    LookedUpSane(run[0].recs, ids, known, |ids|);
    forall id | id in m
      ensures IsBoundary(fin.recs, m[id])
    {
      if m[id] != 0 {
        var i :| 0 <= i < |run[0].recs| && run[0].recs[i].start == m[id];
        assert fin.recs[i].start == m[id];
      }
    }
  }

  /** Moving both watermarks to entry `hi`, at byte `wm`, is a step that the ring takes in state `s`. */
  ghost predicate Advanced(s: State, hi: nat, wm: nat) {
    && Sound(s) && Enabled(s, Advance(hi))
    && Apply(s, Advance(hi)) == s.(orderedWatermk := wm, orderedIdxWatermk := hi)
  }

  lemma WalkAdvances(run: seq<State>, rg: nat, lo: nat, hi: nat, now: nat)
    requires Period(run, rg, lo) && Reached(run, lo, hi, now)
    ensures hi <= |run[|run| - 1].recs| && Advanced(run[now], hi, StartAt(run[|run| - 1], hi))
  {
    var s, fin := run[now], run[|run| - 1];
    assert Inv(s) && Inv(fin) && RingProofs.Later(s, fin);
    RingProofs.SameBoundary(s, fin, hi);
  }

  /** `mem` shows entry `w` at its place. */
  ghost predicate InView(fin: State, w: nat, mem: seq<byte>)
    requires w < |fin.recs|
  {
    && fin.rg > 0
    && var off, e := fin.recs[w].start % fin.rg, fin.recs[w].entry;
       && Readable(mem, off) && Holds(mem, off, e) && e.flags == 1 && e.logIdx == w && GetSize(e) == Span(e)
       && fin.recs[w].start + Span(e) == StartAt(fin, w + 1)
  }

  /** What the walk finds at the moment it visits entry `w`. */
  lemma VisitFacts(run: seq<State>, rg: nat, lo: nat, w: nat, now: nat, at: nat)
    requires Period(run, rg, lo) && Reached(run, lo, w, now) && now <= at < |run|
    requires w < |run[at].recs| && Shown(run[at].recs[w]) && w < |run[|run| - 1].recs|
    ensures InView(run[|run| - 1], w, run[at].mem) && Reached(run, lo, w + 1, at)
  {
    var s, fin := run[at], run[|run| - 1];
    assert Inv(s) && Inv(fin) && RingProofs.Later(s, fin) && RingProofs.Later(run[now], s);
    ReadsRecord(s, w);
    RingProofs.SameBoundary(s, fin, w + 1);
    forall i | lo <= i < w + 1
      ensures Shown(s.recs[i])
    {
      assert i < w ==> Shown(run[now].recs[i]);
    }
  }

  lemma AllTell(run: seq<State>, rg: nat, lo: nat, top: nat, w: nat, ofst: nat)
    requires Period(run, rg, lo) && lo <= |run[|run| - 1].recs| && Patient(run, lo, top)
    requires IsBoundary(run[0].recs, top)
    requires lo <= w < WalkEnd(run[|run| - 1].recs, lo, top) && ofst == Off(rg, run[|run| - 1].recs[w])
    ensures forall k {:trigger FlagTells(run, ofst, w, k)} :: 0 <= k < |run| ==> FlagTells(run, ofst, w, k)
  {
    forall k | 0 <= k < |run|
      ensures FlagTells(run, ofst, w, k)
    {
      WaitFacts(run, rg, lo, top, w, k);
    }
  }

  /** Wait for one entry; it is then in view. `seen` is when the entry before it was visited. */
  method WaitFor(run: seq<State>, rg: nat, now: nat, s: nat, ghost lo: nat, ghost top: nat, ghost w: nat, ghost seen: nat)
    returns (at: nat)
    requires Period(run, rg, lo) && lo <= |run[|run| - 1].recs| && Patient(run, lo, top) && rg > 0
    requires IsBoundary(run[0].recs, top)
    requires lo <= w < WalkEnd(run[|run| - 1].recs, lo, top) && s == run[|run| - 1].recs[w].start
    requires Reached(run, lo, w, seen) && seen <= now < |run|
    ensures now <= at < |run| && InView(run[|run| - 1], w, run[at].mem) && Reached(run, lo, w + 1, at)
  {
    AllTell(run, rg, lo, top, w, s % rg);
    at := WaitForFlag(run, now, s % rg, w);
    VisitFacts(run, rg, lo, w, seen, at);
  }

  lemma WalkBegins(run: seq<State>, rg: nat, lo: nat)
    requires Period(run, rg, lo)
    ensures Reached(run, lo, lo, 0) && StartAt(run[0], lo) == StartAt(run[|run| - 1], lo)
  {
    assert Inv(run[0]) && Inv(run[|run| - 1]) && RingProofs.Later(run[0], run[|run| - 1]);
    RingProofs.SameBoundary(run[0], run[|run| - 1], lo);
  }

  /** As long as the walk is at or below `top`, there is an entry that it has to visit. */
  lemma WalkGoesOn(run: seq<State>, rg: nat, lo: nat, top: nat, w: nat)
    requires Period(run, rg, lo) && lo <= |run[|run| - 1].recs| && Patient(run, lo, top)
    requires IsBoundary(run[0].recs, top)
    requires lo <= w <= WalkEnd(run[|run| - 1].recs, lo, top) && StartAt(run[|run| - 1], w) <= top
    ensures rg > 0 && w < WalkEnd(run[|run| - 1].recs, lo, top)
  {
    var fin := run[|run| - 1];
    assert Inv(fin) && RingProofs.Later(run[0], fin);
    if top != 0 {
      var i :| 0 <= i < |run[0].recs| && run[0].recs[i].start == top;
      assert fin.recs[i].start == top;
    }
    BoundaryInside(fin, top, w);
  }

  lemma WalkStops(fin: State, lo: nat, top: nat, w: nat)
    requires lo <= |fin.recs| && lo <= w <= WalkEnd(fin.recs, lo, top) && StartAt(fin, w) > top
    ensures w == WalkEnd(fin.recs, lo, top)
  {
  }
}

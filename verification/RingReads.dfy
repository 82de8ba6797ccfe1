/** Reading the ring while appenders are at work: the remote two-piece fetch and the speculative read. */
module RingReads {
  import opened Arith
  import opened Codec
  import opened Batches
  import opened Ring
  import RingProofs

  // ---------------------------------------------------------------- the two-piece read

  /** The bytes of sequences `begin` up to `end`, each from where it lies in the ring. */
  function TwoPieces(rg: nat, mem: seq<byte>, begin: nat, end: nat): (b: seq<byte>)
    requires 0 < rg <= |mem| && begin <= end
    ensures |b| == end - begin
    decreases end
  {
    if begin == end then [] else TwoPieces(rg, mem, begin, end - 1) + [mem[(end - 1) % rg]]
  }

  lemma {:induction false} TwoPiecesAt(rg: nat, mem: seq<byte>, begin: nat, end: nat, x: nat)
    requires 0 < rg <= |mem| && begin <= x < end
    ensures TwoPieces(rg, mem, begin, end)[x - begin] == mem[x % rg]
    decreases end
  {
    if x < end - 1 {
      TwoPiecesAt(rg, mem, begin, end - 1, x);
    }
  }

  /** The remote read: one piece, or around the end of the ring two; for less than a lap these are exactly those bytes. */
  method ReadPieces(rg: nat, mem: seq<byte>, begin: nat, end: nat) returns (b: seq<byte>)
    requires 0 < rg <= |mem| && begin <= end < begin + rg
    ensures b == TwoPieces(rg, mem, begin, end)
  {
    var lo, hi := begin % rg, end % rg;
    ModStep(begin, end - begin, rg);
    b := if lo < hi then mem[lo..hi] else if lo > hi then mem[lo..rg] + mem[..hi] else [];
    forall i | 0 <= i < end - begin
      ensures b[i] == TwoPieces(rg, mem, begin, end)[i]
    {
      TwoPiecesAt(rg, mem, begin, end, begin + i);
      ModStep(begin, i, rg);
    }
  }

  /** A stretch of a record whose overflow is mirrored, or that has none, shows up in the buffer. */
  lemma StretchIsVisible(rg: nat, mem: seq<byte>, begin: nat, end: nat, rec: Rec, from: nat, to: nat)
    requires 0 < rg && End(rg, rec) <= |mem| && rg <= |mem| && begin <= end < begin + rg
    requires begin <= rec.start && from <= to <= Span(rec.entry) < rg && rec.start + to <= end
    requires Off(rg, rec) + to <= rg || Mirrored(mem, rg, End(rg, rec))
    ensures Agree(mem, TwoPieces(rg, mem, begin, end), Off(rg, rec) + from, Off(rg, rec) + to,
                  rec.start - begin - Off(rg, rec))
  {
    var b, off := TwoPieces(rg, mem, begin, end), Off(rg, rec);
    forall p | off + from <= p < off + to
      ensures mem[p] == b[p + (rec.start - begin - off)]
    {
      ModStep(rec.start, p - off, rg);
      TwoPiecesAt(rg, mem, begin, end, rec.start + (p - off));
    }
  }

  /** In flight, with its cleared flag where the fetch looks for it. */
  predicate Hidden(rg: nat, rec: Rec)
    requires rg > 0
  {
    (rec.stage.Reserved? || rec.stage.Written?) && Off(rg, rec) + FLAG_POS + 2 <= rg
  }

  /** A settled entry inside the range shows up whole in the two-piece buffer. */
  lemma SettledIsVisible(rg: nat, mem: seq<byte>, begin: nat, end: nat, rec: Rec)
    requires 0 < rg <= |mem| && begin <= end < begin + rg
    requires RecOk(rg, mem, rec) && Settled(rg, rec) && Span(rec.entry) < rg
    requires begin <= rec.start && rec.start + Span(rec.entry) <= end
    ensures Holds(TwoPieces(rg, mem, begin, end), rec.start - begin, rec.entry)
  {
    assert rec.entry.size == |rec.entry.data|;
    StretchIsVisible(rg, mem, begin, end, rec, 0, Span(rec.entry));
    HoldsFrame(mem, TwoPieces(rg, mem, begin, end), Off(rg, rec), End(rg, rec), rec.start - begin - Off(rg, rec),
               rec.entry);
  }

  /** A hidden entry reads as unpublished. */
  lemma HiddenIsInvisible(rg: nat, mem: seq<byte>, begin: nat, end: nat, rec: Rec)
    requires 0 < rg <= |mem| && begin <= end < begin + rg
    requires RecOk(rg, mem, rec) && Hidden(rg, rec) && Span(rec.entry) < rg
    requires begin <= rec.start && rec.start + META_DATA_SIZE <= end
    ensures GetFlagFromBuf(TwoPieces(rg, mem, begin, end), rec.start - begin) == 0
  {
    var b, off, at := TwoPieces(rg, mem, begin, end), Off(rg, rec), rec.start - begin;
    assert GetFlagFromBuf(mem, off) == 0 by {
      if rec.stage.Written? { HeldSize(mem, off, Stored(rec)); }
    }
    StretchIsVisible(rg, mem, begin, end, rec, FLAG_POS, FLAG_POS + 2);
    AgreeSlice(mem, b, off + FLAG_POS, off + FLAG_POS + 2, at - off, off + FLAG_POS, off + FLAG_POS + 2);
  }

  /**
   * Dual view: in every timely run, a finished entry that is still unordered decodes both contiguously from its offset,
   * through the safe region, and from the two-piece read of its bytes, flag included.
   */
  lemma DualView(states: seq<State>, steps: seq<Step>, k: nat, i: nat)
    requires RingProofs.TimelyRun(states, steps) && k < |states|
    requires states[k].orderedIdxWatermk <= i < |states[k].recs| && states[k].recs[i].stage.Done?
    ensures var s, rec := states[k], states[k].recs[i];
            && rec.entry.flags == 1 && rec.entry.logIdx == i && 0 < s.rg <= |s.mem| && Span(rec.entry) < s.rg
            && Holds(s.mem, Off(s.rg, rec), rec.entry)
            && Holds(TwoPieces(s.rg, s.mem, rec.start, rec.start + Span(rec.entry)), 0, rec.entry)
  {
    RingProofs.RunRecord(states, steps, k, i);
    BothViews(states[k].rg, states[k].mem, states[k].recs[i]);
  }

  lemma BothViews(rg: nat, mem: seq<byte>, rec: Rec)
    requires 0 < rg <= |mem| && RecOk(rg, mem, rec) && rec.stage.Done? && Span(rec.entry) < rg
    ensures Holds(mem, Off(rg, rec), rec.entry)
    ensures Holds(TwoPieces(rg, mem, rec.start, rec.start + Span(rec.entry)), 0, rec.entry)
  {
    VisibleAt(rg, mem, rec.start, rec.start + Span(rec.entry), rec, 0);
  }

  // ---------------------------------------------------------------- reading around the end of the ring

  /** In the two-piece read, the part of a record past the end of the ring comes from the beginning of the ring. */
  lemma OverflowIsReadFromTheFront(rg: nat, mem: seq<byte>, rec: Rec, p: nat)
    requires 0 < rg <= |mem| && Span(rec.entry) < rg && Off(rg, rec) <= p < End(rg, rec) <= |mem|
    ensures TwoPieces(rg, mem, rec.start, rec.start + Span(rec.entry))[p - Off(rg, rec)]
         == if p < rg then mem[p] else mem[p - rg]
  {
    ModStep(rec.start, p - Off(rg, rec), rg);
    TwoPiecesAt(rg, mem, rec.start, rec.start + Span(rec.entry), rec.start + (p - Off(rg, rec)));
  }

  // ---------------------------------------------------------------- the fetch

  /** The first entry from `a` on that is in flight or does not end within `limit`. */
  function FetchEnd(s: State, a: nat, limit: nat): (m: nat)
    requires Shape(s) && a <= |s.recs|
    ensures a <= m <= |s.recs|
    ensures forall i :: a <= i < m ==> Settled(s.rg, s.recs[i]) && s.recs[i].start + Span(s.recs[i].entry) <= limit
    ensures m < |s.recs| ==> !Settled(s.rg, s.recs[m]) || s.recs[m].start + Span(s.recs[m].entry) > limit
    decreases |s.recs| - a
  {
    if a == |s.recs| || !Settled(s.rg, s.recs[a]) || s.recs[a].start + Span(s.recs[a].entry) > limit then a
    else FetchEnd(s, a + 1, limit)
  }

  function Entries(s: State, a: nat, m: nat): (es: seq<Entry>)
    requires a <= m <= |s.recs|
    ensures |es| == m - a && forall k :: 0 <= k < |es| ==> es[k] == s.recs[a + k].entry
  {
    seq(m - a, k requires 0 <= k < m - a => s.recs[a + k].entry)
  }

  lemma {:induction false} StartOfEntries(s: State, a: nat, m: nat, n: nat)
    requires Shape(s) && Layout(s) && a <= m <= |s.recs| && n <= m - a
    ensures Start(Entries(s, a, m), n) == StartAt(s, a + n) - StartAt(s, a)
  {
    if n > 0 {
      StartOfEntries(s, a, m, n - 1);
      assert RecSane(s, a + n - 1);
    }
  }

  /**
   * The fetch stops at an unsettled entry whatever lies at the front of the ring: its cleared flag is in view, or its
   * size is in view and too large.
   */
  predicate Masked(rg: nat, rec: Rec, limit: nat)
    requires rg > 0
  {
    || Hidden(rg, rec)
    || (!rec.stage.Reserved? && Off(rg, rec) + FLAG_POS <= rg && rec.start + Span(rec.entry) > limit)
  }

  /** Where the settled entries stop, the fetch stops too. */
  predicate Ends(s: State, m: nat, limit: nat)
    requires Shape(s)
  {
    m < |s.recs| && !Settled(s.rg, s.recs[m]) && s.recs[m].start + META_DATA_SIZE <= limit ==>
      Masked(s.rg, s.recs[m], limit)
  }

  /** The arguments of a fetch that reads bytes up to `limit`, starting with entry `a`. */
  predicate InRange(s: State, a: nat, limit: nat) {
    Inv(s) && s.orderedIdxWatermk <= a <= |s.recs| && StartAt(s, a) <= limit <= s.sequencer
  }

  predicate FetchArgs(s: State, a: nat, limit: nat) {
    InRange(s, a, limit) && Ends(s, FetchEnd(s, a, limit), limit)
  }

  lemma BeginAboveWatermark(s: State, a: nat)
    requires Inv(s) && s.orderedIdxWatermk <= a <= |s.recs|
    ensures s.orderedWatermk <= StartAt(s, a) <= s.sequencer < StartAt(s, a) + s.rg
  {
    RingProofs.WatermarkBelow(s, a);
  }

  lemma FetchedRecord(s: State, a: nat, limit: nat, k: nat, begin: nat, es: seq<Entry>, rec: Rec)
    requires InRange(s, a, limit) && begin == StartAt(s, a) && es == Entries(s, a, FetchEnd(s, a, limit)) && k < |es|
    requires rec == s.recs[a + k]
    ensures limit < begin + s.rg && s.rg <= |s.mem| && RecOk(s.rg, s.mem, rec) && Settled(s.rg, rec)
    ensures Span(rec.entry) < s.rg && rec.start + Span(rec.entry) <= limit
    ensures rec.start == begin + Start(es, k) && es[k] == rec.entry
  {
    BeginAboveWatermark(s, a);
    StartOfEntries(s, a, FetchEnd(s, a, limit), k);
    RingProofs.WatermarkBelow(s, a + k);
    assert RecSane(s, a + k) && RecOk(s.rg, s.mem, s.recs[a + k]);
  }

  lemma FetchedEntry(s: State, a: nat, limit: nat, k: nat, begin: nat, es: seq<Entry>, at: nat)
    requires InRange(s, a, limit) && begin == StartAt(s, a) && es == Entries(s, a, FetchEnd(s, a, limit)) && k < |es|
    requires at == Start(es, k)
    ensures limit < begin + s.rg && at + Span(es[k]) <= limit - begin
    ensures Holds(TwoPieces(s.rg, s.mem, begin, limit), at, es[k])
  {
    var rec := s.recs[a + k];
    FetchedRecord(s, a, limit, k, begin, es, rec);
    VisibleAt(s.rg, s.mem, begin, limit, rec, at);
  }

  lemma VisibleAt(rg: nat, mem: seq<byte>, begin: nat, end: nat, rec: Rec, at: nat)
    requires 0 < rg <= |mem| && begin <= end < begin + rg && rec.start == begin + at
    requires RecOk(rg, mem, rec) && Settled(rg, rec) && Span(rec.entry) < rg && at + Span(rec.entry) <= end - begin
    ensures Holds(TwoPieces(rg, mem, begin, end), at, rec.entry)
  {
    SettledIsVisible(rg, mem, begin, end, rec);
  }

  lemma {:induction false} FetchedHold(s: State, a: nat, limit: nat, b: seq<byte>, es: seq<Entry>, n: nat)
    requires InRange(s, a, limit) && limit < StartAt(s, a) + s.rg
    requires b == TwoPieces(s.rg, s.mem, StartAt(s, a), limit) && es == Entries(s, a, FetchEnd(s, a, limit))
    requires n <= |es|
    ensures HoldsFirst(b, 0, es, n)
  {
    if n > 0 {
      FetchedHold(s, a, limit, b, es, n - 1);
      FetchedEntry(s, a, limit, n - 1, StartAt(s, a), es, Start(es, n - 1));
    }
  }

  /** Copying the size field of an entry copies its size. */
  lemma SizeIsCopied(mem: seq<byte>, off: nat, b: seq<byte>, at: nat, e: Entry)
    requires Holds(mem, off, e) && at + META_DATA_SIZE <= |b|
    requires Agree(mem, b, off + Pos(3), off + Pos(4), at - off)
    ensures GetSizeFromBuf(b, at) == GetSize(e)
  {
    HeldSize(mem, off, e);
    AgreeSlice(mem, b, off + Pos(3), off + Pos(4), at - off, off + Pos(3), off + Pos(4));
    assert Get(b, at, 3) == Get(mem, off, 3);
  }

  lemma HeldSmallEntry(mem: seq<byte>, off: nat, e: Entry)
    requires Holds(mem, off, e) && Span(e) <= SAFE_RG_SIZE
    ensures GetSize(e) == Span(e)
  {
    HeldIsRepresentable(mem, off, e);
    RingProofs.SmallEntriesDoNotWrap(e);
  }

  /** An entry that is written, and whose size field is in the ring or mirrored, shows its size to the fetch. */
  lemma SizeShows(rg: nat, mem: seq<byte>, begin: nat, end: nat, rec: Rec)
    requires 0 < rg <= |mem| && begin <= end < begin + rg
    requires RecOk(rg, mem, rec) && !rec.stage.Reserved? && Span(rec.entry) <= SAFE_RG_SIZE < rg
    requires Settled(rg, rec) || Off(rg, rec) + FLAG_POS <= rg
    requires begin <= rec.start && rec.start + META_DATA_SIZE <= end
    ensures GetSizeFromBuf(TwoPieces(rg, mem, begin, end), rec.start - begin) == Span(rec.entry)
  {
    var b, off, at := TwoPieces(rg, mem, begin, end), Off(rg, rec), rec.start - begin;
    HeldSmallEntry(mem, off, Stored(rec));
    StretchIsVisible(rg, mem, begin, end, rec, Pos(3), Pos(4));
    assert Agree(mem, b, off + Pos(3), off + Pos(4), at - off);
    SizeIsCopied(mem, off, b, at, Stored(rec));
  }

  /** What makes the fetch stop at an entry whose header it can see. */
  lemma StopsAtRecord(rg: nat, mem: seq<byte>, begin: nat, limit: nat, rec: Rec, b: seq<byte>)
    requires 0 < rg <= |mem| && begin <= limit < begin + rg && b == TwoPieces(rg, mem, begin, limit)
    requires RecOk(rg, mem, rec) && Span(rec.entry) <= SAFE_RG_SIZE < rg
    requires begin <= rec.start && rec.start + META_DATA_SIZE <= limit
    requires if Settled(rg, rec) then rec.start + Span(rec.entry) > limit else Masked(rg, rec, limit)
    ensures Stops(b, rec.start - begin, limit - begin)
  {
    if !Settled(rg, rec) && Hidden(rg, rec) {
      HiddenIsInvisible(rg, mem, begin, limit, rec);
    } else {
      SizeShows(rg, mem, begin, limit, rec);
    }
  }

  lemma InMemory(s: State, m: nat)
    requires Inv(s) && s.orderedIdxWatermk <= m < |s.recs|
    ensures s.rg <= |s.mem| && RecOk(s.rg, s.mem, s.recs[m]) && Span(s.recs[m].entry) <= SAFE_RG_SIZE < s.rg
  {
    RingProofs.WatermarkBelow(s, m);
    assert RecSane(s, m) && Fresh(s, s.recs[m]) && RecOk(s.rg, s.mem, s.recs[m]);
  }

  /** The first entry that is not fetched is one at which the fetch stops. */
  predicate StopsThere(s: State, m: nat, limit: nat)
    requires s.rg > 0
  {
    m < |s.recs| && s.recs[m].start + META_DATA_SIZE <= limit ==>
      if Settled(s.rg, s.recs[m]) then s.recs[m].start + Span(s.recs[m].entry) > limit
      else Masked(s.rg, s.recs[m], limit)
  }

  lemma FetchStops(s: State, limit: nat, m: nat, begin: nat, b: seq<byte>)
    requires Inv(s) && s.orderedIdxWatermk <= m <= |s.recs| && StopsThere(s, m, limit)
    requires begin <= StartAt(s, m) && begin <= limit <= s.sequencer && limit < begin + s.rg
    requires b == TwoPieces(s.rg, s.mem, begin, limit)
    ensures Stops(b, StartAt(s, m) - begin, limit - begin)
  {
    if m < |s.recs| && s.recs[m].start + META_DATA_SIZE <= limit {
      InMemory(s, m);
      StopsAtRecord(s.rg, s.mem, begin, limit, s.recs[m], b);
    }
  }

  lemma FetchedAreLive(s: State, a: nat, m: nat)
    requires Inv(s) && a <= m <= |s.recs|
    ensures var run := Entries(s, a, m); AllLive(run) && forall k :: 0 <= k < |run| ==> run[k].size <= TWO_32 - 4
  {
    var run := Entries(s, a, m);
    forall k | 0 <= k < |run|
      ensures run[k].flags != 0 && run[k].size <= TWO_32 - 4
    {
      assert RecSane(s, a + k);
    }
  }

  lemma FetchedSpan(s: State, a: nat, m: nat)
    requires Shape(s) && Layout(s) && a <= m <= |s.recs|
    ensures StartAt(s, a) + TotalSpan(Entries(s, a, m)) == StartAt(s, m)
  {
    StartOfEntries(s, a, m, m - a);
  }

  lemma IsWhole(b: seq<byte>, max: nat, run: seq<Entry>)
    requires max <= |b| && HoldsFirst(b, 0, run, |run|) && AllLive(run) && TotalSpan(run) <= max
    requires forall k :: 0 <= k < |run| ==> run[k].size <= TWO_32 - 4
    ensures WholeRun(b, max, run)
  {
  }

  /** The settled entries are whole and published in the two-piece buffer, whatever comes after them. */
  lemma FetchedFront(s: State, a: nat, limit: nat, m: nat, begin: nat, b: seq<byte>, run: seq<Entry>)
    requires InRange(s, a, limit) && m == FetchEnd(s, a, limit) && begin == StartAt(s, a) && limit < begin + s.rg
    requires b == TwoPieces(s.rg, s.mem, begin, limit) && run == Entries(s, a, m) && TotalSpan(run) <= limit - begin
    ensures WholeRun(b, limit - begin, run)
  {
    FetchedHold(s, a, limit, b, run, |run|);
    FetchedAreLive(s, a, m);
    IsWhole(b, limit - begin, run);
  }

  lemma FetchEnds(s: State, a: nat, limit: nat, m: nat, begin: nat, b: seq<byte>, at: nat)
    requires FetchArgs(s, a, limit) && m == FetchEnd(s, a, limit) && begin <= limit < begin + s.rg && s.rg <= |s.mem|
    requires b == TwoPieces(s.rg, s.mem, begin, limit) && begin + at == StartAt(s, m)
    ensures Stops(b, at, limit - begin)
  {
    assert StopsThere(s, m, limit);
    FetchStops(s, limit, m, begin, b);
  }

  lemma IsLongest(b: seq<byte>, max: nat, run: seq<Entry>, at: nat)
    requires WholeRun(b, max, run) && TotalSpan(run) == at && Stops(b, at, max)
    ensures LongestRun(b, max, run)
  {
  }

  lemma FetchRun(s: State, a: nat, limit: nat, m: nat, begin: nat, b: seq<byte>, run: seq<Entry>, at: nat)
    requires FetchArgs(s, a, limit) && m == FetchEnd(s, a, limit) && begin == StartAt(s, a) && limit < begin + s.rg
    requires b == TwoPieces(s.rg, s.mem, begin, limit) && run == Entries(s, a, m)
    requires begin + at == StartAt(s, m) && TotalSpan(run) == at <= limit - begin
    ensures LongestRun(b, limit - begin, run)
  {
    FetchEnds(s, a, limit, m, begin, b, at);
    FetchedFront(s, a, limit, m, begin, b, run);
    IsLongest(b, limit - begin, run, at);
  }

  /** What is fetched ends within the limit. */
  lemma FetchedWithin(s: State, a: nat, limit: nat, m: nat)
    requires InRange(s, a, limit) && m == FetchEnd(s, a, limit)
    ensures StartAt(s, a) <= StartAt(s, m) <= limit
  {
    if a < m {
      RingProofs.StartsIncrease(s, a, m);
      assert RecSane(s, m - 1);
      assert s.recs[m - 1].start + Span(s.recs[m - 1].entry) <= limit;
    }
  }

  /** The two-piece buffer's longest published run is exactly the settled entries that end within the limit. */
  lemma FetchIsLongestRun(s: State, a: nat, limit: nat)
    requires FetchArgs(s, a, limit)
    ensures var begin, m := StartAt(s, a), FetchEnd(s, a, limit);
            && limit < begin + s.rg && TotalSpan(Entries(s, a, m)) == StartAt(s, m) - begin
            && LongestRun(TwoPieces(s.rg, s.mem, begin, limit), limit - begin, Entries(s, a, m))
  {
    var m, begin := FetchEnd(s, a, limit), StartAt(s, a);
    BeginAboveWatermark(s, a);
    FetchedWithin(s, a, limit, m);
    FetchedSpan(s, a, m);
    FetchRun(s, a, limit, m, begin, TwoPieces(s.rg, s.mem, begin, limit), Entries(s, a, m), StartAt(s, m) - begin);
  }

  /** The end of the range, or where the fetch size ends if that comes first; 0 is no bound. */
  function Limit(begin: nat, end: nat, maxFetch: nat): (r: nat)
    ensures r <= end && (r == end || (maxFetch > 0 && r == begin + maxFetch)) && (maxFetch > 0 ==> r <= begin + maxFetch)
  {
    if maxFetch > 0 && begin + maxFetch < end then begin + maxFetch else end
  }

  /** What ends a fetched batch: a blank entry whose client sequence is the sequence number to continue from. */
  function Sentinel(next: nat): Entry {
    BLANK.(clientSeq := next)
  }

  /**
   * `FetchUnorderedEntries` on the consensus side. `ordered` and `end` are what the range read returned; the bytes
   * are read later, in state `s`, while appenders go on. The result is exactly the settled entries from `begin` on
   * that end within the limit, followed by the sentinel, and their total size.
   */
  method FetchUnorderedEntries(s: State, ordered: nat, end: nat, from: nat, maxFetch: nat, ghost a: nat)
    returns (es: seq<Entry>, fetched: nat)
    requires ordered <= end <= s.sequencer
    requires from < end ==>
               a <= |s.recs| && StartAt(s, a) == (if from > ordered then from else ordered)
               && FetchArgs(s, a, Limit(StartAt(s, a), end, maxFetch))
    ensures from >= end ==> es == [] && fetched == 0
    ensures from < end ==>
              var begin := StartAt(s, a);
              var m := FetchEnd(s, a, Limit(begin, end, maxFetch));
              && begin + fetched == StartAt(s, m)
              && es == if m == a then [] else Entries(s, a, m) + [Sentinel(StartAt(s, m))]
    ensures maxFetch > 0 ==> fetched <= maxFetch
    ensures from < end ==> exists m :: TakenUpTo(s, a, m, end, maxFetch) && StartAt(s, a) + fetched == StartAt(s, m)
  {
    if from >= end {
      return [], 0;
    }
    var begin := if from > ordered then from else ordered;
    var limit := Limit(begin, end, maxFetch);
    ghost var m := FetchEnd(s, a, limit);
    FetchTakes(s, a, end, maxFetch);
    RangeToFetch(s, begin, limit, a, m, Entries(s, a, m));
    es, fetched := FetchRange(s.rg, s.mem, begin, limit, Entries(s, a, m), StartAt(s, m));
  }

  /**
   * A fetch of at most `maxFetch` bytes takes the settled entries `a` up to `m` and no more, because there are no more,
   * or the next one is in flight, or it ends past `end`, or past the bound.
   */
  predicate TakenUpTo(s: State, a: nat, m: nat, end: nat, maxFetch: nat) {
    && s.rg > 0 && a <= m <= |s.recs|
    && (forall i :: a <= i < m ==> Settled(s.rg, s.recs[i]) && s.recs[i].start + Span(s.recs[i].entry) <= end)
    && (maxFetch > 0 ==> StartAt(s, m) <= StartAt(s, a) + maxFetch)
    && (m < |s.recs| ==>
          var after := s.recs[m].start + Span(s.recs[m].entry);
          !Settled(s.rg, s.recs[m]) || after > end || (maxFetch > 0 && after > StartAt(s, a) + maxFetch))
  }

  lemma FetchTakes(s: State, a: nat, end: nat, maxFetch: nat)
    requires a <= |s.recs| && InRange(s, a, Limit(StartAt(s, a), end, maxFetch))
    ensures TakenUpTo(s, a, FetchEnd(s, a, Limit(StartAt(s, a), end, maxFetch)), end, maxFetch)
  {
    var limit := Limit(StartAt(s, a), end, maxFetch);
    FetchedWithin(s, a, limit, FetchEnd(s, a, limit));
  }

  /** The bytes from `begin` up to `limit`, as the entries `run` that they hold, which end at `stop`. */
  method FetchRange(rg: nat, mem: seq<byte>, begin: nat, limit: nat, ghost run: seq<Entry>, ghost stop: nat)
    returns (es: seq<Entry>, fetched: nat)
    requires 0 < rg <= |mem| && begin <= limit < begin + rg
    requires LongestRun(TwoPieces(rg, mem, begin, limit), limit - begin, run)
    requires begin + TotalSpan(run) == stop && (stop == begin <==> run == [])
    ensures begin + fetched == stop
    ensures es == if run == [] then [] else run + [Sentinel(stop)]
  {
    es, fetched := ReadAndDecode(rg, mem, begin, limit, run);
  }

  lemma RangeToFetch(s: State, begin: nat, limit: nat, a: nat, m: nat, run: seq<Entry>)
    requires FetchArgs(s, a, limit) && begin == StartAt(s, a) && m == FetchEnd(s, a, limit) && run == Entries(s, a, m)
    ensures 0 < s.rg <= |s.mem| && begin <= limit < begin + s.rg
    ensures LongestRun(TwoPieces(s.rg, s.mem, begin, limit), limit - begin, run)
    ensures begin + TotalSpan(run) == StartAt(s, m) && (TotalSpan(run) == 0 <==> m == a)
  {
    FetchIsLongestRun(s, a, limit);
    EmptyFetch(s, a, limit);
  }

  /** The two reads and the decoding: equal offsets of begin and limit mean an empty range, since it is under a lap. */
  method ReadAndDecode(rg: nat, mem: seq<byte>, begin: nat, limit: nat, ghost run: seq<Entry>)
    returns (es: seq<Entry>, fetched: nat)
    requires 0 < rg <= |mem| && begin <= limit < begin + rg
    requires LongestRun(TwoPieces(rg, mem, begin, limit), limit - begin, run)
    ensures fetched == TotalSpan(run)
    ensures es == if fetched == 0 then [] else run + [Sentinel(begin + fetched)]
  {
    ModStep(begin, limit - begin, rg);
    if begin % rg == limit % rg {
      return [], 0;
    }
    var b := ReadPieces(rg, mem, begin, limit);
    es, fetched := MultiDeserializerMaxSize([], b, limit - begin, run);
    es := if fetched == 0 then [] else es + [Sentinel(begin + fetched)];
  }

  /** Nothing is fetched exactly when no entry is; in particular when the range is empty. */
  lemma EmptyFetch(s: State, a: nat, limit: nat)
    requires InRange(s, a, limit)
    ensures var m := FetchEnd(s, a, limit);
            (m == a <==> StartAt(s, m) == StartAt(s, a)) && (limit == StartAt(s, a) ==> m == a)
  {
    var m := FetchEnd(s, a, limit);
    if m > a {
      RingProofs.StartsIncrease(s, a, m);
    }
  }

  // ---------------------------------------------------------------- the speculative read

  /** When a speculative read of `idx` succeeds. */
  predicate SpecReadable(s: State, idx: nat)
    requires Shape(s)
  {
    && s.indexer + 64 >= |s.idxToSeq| && s.indexer + 64 < idx + |s.idxToSeq|
    && idx < |s.recs| && (s.recs[idx].stage.Flagged? || s.recs[idx].stage.Done?)
    && (s.sequencer <= s.rg || s.sequencer + SLACK < s.recs[idx].start + s.rg)
  }

  /**
   * `SpecReadEntry` with its 64-bit unsigned comparisons. A positive result is the entry that was appended with that
   * index: neither its slot in the index map nor its bytes can have been reused. It also says when there is one: the
   * first comparison wraps while fewer than `|idxToSeq| - 64` entries exist, and then every read fails.
   */
  method SpecReadEntry(s: State, idx: nat) returns (ret: int, e: Entry)
    requires Inv(s) && idx < TWO_64 && s.indexer < TWO_64 && s.sequencer + s.rg < TWO_64
    ensures ret > 0 <==> SpecReadable(s, idx)
    ensures ret > 0 ==> e == s.recs[idx].entry && ret == Span(e)
  {
    var count := |s.idxToSeq|;
    e := BLANK;
    WrappingComparison(idx, s.indexer, count);
    if idx <= (s.indexer - count + 64) % TWO_64 {
      return -1, e;
    } else if idx >= s.indexer {
      return -2, e;
    }
    var sq := s.idxToSeq[Slot(count, idx)];
    if s.sequencer > s.rg && sq <= s.sequencer - s.rg + SLACK {
      return -1, e;
    }
    RingProofs.StartsIncrease(s, idx, |s.recs|);
    assert RecSane(s, idx) && RecOk(s.rg, s.mem, s.recs[idx]);
    SpecReadableRecord(s.rg, s.mem, s.recs[idx]);
    ret, e := SpecDecode(s.rg, s.mem, sq, idx);
    if ret > 0 { HeldEntryIsUnique(s.mem, sq % s.rg, e, s.recs[idx].entry); }
  }

  /** What the index map says of `idx`. */
  function LookedUp(s: State, idx: nat): nat
    requires |s.idxToSeq| > 0
  {
    s.idxToSeq[Slot(|s.idxToSeq|, idx)]
  }

  /** What the counters admit: the index counter looked at in `s1`, and the sequencer in `s3` against sequence `sq`. */
  predicate SpecWindow(s1: State, s3: State, idx: nat, sq: nat) {
    && s1.indexer + 64 >= |s1.idxToSeq| && s1.indexer + 64 < idx + |s1.idxToSeq| && idx < s1.indexer
    && (s3.sequencer <= s3.rg || s3.sequencer + SLACK < sq + s3.rg)
  }

  /** With the bytes looked at in `s4`, at sequence `sq`, the read delivers `e`. */
  predicate SpecDelivers(s1: State, s3: State, s4: State, idx: nat, sq: nat, e: Entry) {
    && SpecWindow(s1, s3, idx, sq)
    && s4.rg > 0 && Holds(s4.mem, sq % s4.rg, e) && e.flags != 0 && e.logIdx == idx
  }

  /**
   * The same read while appenders go on, any number of them between its looks: the index counter is looked at in `s1`,
   * the index map in `s2`, the sequencer in `s3` and the bytes in `s4`. It says exactly when there is a result and what
   * it is. The result is the entry with that index if what the map named is less than a lap old at the last look, even
   * if its slot had been reused. The byte margin sees to that once the ring has wrapped, as long as less than the slack
   * is reserved between the last two looks. Before, the result may be another (`SpecLimits.StaleSpecRead`).
   */
  method SpecReadInterleaved(s1: State, s2: State, s3: State, s4: State, idx: nat) returns (ret: int, e: Entry)
    requires Sound(s1) && Sound(s2) && Sound(s3) && Inv(s4)
    requires RingProofs.Later(s1, s2) && RingProofs.Later(s2, s3) && RingProofs.Later(s3, s4)
    requires idx < TWO_64 && s1.indexer < TWO_64 && s1.rg < TWO_64
    requires s4.sequencer > LookedUp(s2, idx) + s4.rg ==> Readable(s4.mem, LookedUp(s2, idx) % s4.rg)
    ensures ret > 0 ==> SpecDelivers(s1, s3, s4, idx, LookedUp(s2, idx), e) && ret == Span(e)
    ensures ret <= 0 ==> forall x :: !SpecDelivers(s1, s3, s4, idx, LookedUp(s2, idx), x)
    ensures ret > 0 && s4.sequencer <= LookedUp(s2, idx) + s4.rg ==> idx < |s4.recs| && e == s4.recs[idx].entry
    ensures ret > 0 && s3.sequencer > s3.rg && s4.sequencer <= s3.sequencer + SLACK ==>
              idx < |s4.recs| && e == s4.recs[idx].entry
  {
    var count := |s1.idxToSeq|;
    e := BLANK;
    WrappingComparison(idx, s1.indexer, count);
    if idx <= (s1.indexer - count + 64) % TWO_64 {
      return -1, e;
    } else if idx >= s1.indexer {
      return -2, e;
    }
    var sq := LookedUp(s2, idx);
    if s3.sequencer > s3.rg && sq <= s3.sequencer - s3.rg + SLACK {
      return -1, e;
    }
    ghost var j := SlotOwner(s2, idx);
    ret, e := SpecDecodeIn(s4, sq, idx, j);
  }

  /** Within the window an index names its own entry, which is still in memory. */
  lemma InWindow(s: State, idx: nat)
    requires Inv(s) && s.indexer + 64 < idx + |s.idxToSeq| && idx < s.indexer
    requires s.sequencer <= s.rg || s.sequencer + SLACK < s.recs[idx].start + s.rg
    ensures LookedUp(s, idx) == s.recs[idx].start && RecOk(s.rg, s.mem, s.recs[idx]) && RecSane(s, idx)
  {
    assert s.idxToSeq[Slot(|s.idxToSeq|, idx)] == s.recs[idx].start;
    assert Fresh(s, s.recs[idx]) && RecSane(s, idx) && RecOk(s.rg, s.mem, s.recs[idx]);
  }

  /** Read in one step, an index is readable exactly if the four looks deliver something, and then its own entry. */
  lemma SpecReadsAgree(s: State, idx: nat)
    requires Inv(s) && |s.idxToSeq| > 0
    ensures SpecReadable(s, idx) <==> exists e :: SpecDelivers(s, s, s, idx, LookedUp(s, idx), e)
    ensures SpecReadable(s, idx) ==> SpecDelivers(s, s, s, idx, LookedUp(s, idx), s.recs[idx].entry)
  {
    if SpecReadable(s, idx) {
      IsDelivered(s, idx, LookedUp(s, idx));
    } else {
      forall e
        ensures !SpecDelivers(s, s, s, idx, LookedUp(s, idx), e)
      {
        if SpecDelivers(s, s, s, idx, LookedUp(s, idx), e) {
          DeliveredIsReadable(s, idx, e);
        }
      }
    }
  }

  lemma IsDelivered(s: State, idx: nat, sq: nat)
    requires Inv(s) && |s.idxToSeq| > 0 && SpecReadable(s, idx) && sq == LookedUp(s, idx)
    ensures SpecDelivers(s, s, s, idx, sq, s.recs[idx].entry)
  {
    InWindow(s, idx);
    assert Stored(s.recs[idx]) == s.recs[idx].entry && sq % s.rg == Off(s.rg, s.recs[idx]);
  }

  lemma DeliveredIsReadable(s: State, idx: nat, e: Entry)
    requires Inv(s) && |s.idxToSeq| > 0 && SpecDelivers(s, s, s, idx, LookedUp(s, idx), e)
    ensures SpecReadable(s, idx)
  {
    var count := |s.idxToSeq|;
    assert s.idxToSeq[Slot(count, idx)] == s.recs[idx].start;
    InWindow(s, idx);
    SpecReadableRecord(s.rg, s.mem, s.recs[idx]);
    HeldSize(s.mem, Off(s.rg, s.recs[idx]), e);
  }

  /** The last look: the bytes where entry `j` lies. */
  method SpecDecodeIn(s: State, sq: nat, idx: nat, ghost j: nat) returns (ret: int, e: Entry)
    requires Inv(s) && j < |s.recs| && s.recs[j].start == sq && (!Fresh(s, s.recs[j]) ==> Readable(s.mem, sq % s.rg))
    ensures ret > 0 ==> Holds(s.mem, sq % s.rg, e) && e.flags != 0 && e.logIdx == idx && ret == Span(e)
    ensures ret <= 0 ==> forall x :: !(Holds(s.mem, sq % s.rg, x) && x.flags != 0 && x.logIdx == idx)
    ensures ret > 0 && Fresh(s, s.recs[j]) ==> j == idx && e == s.recs[idx].entry
  {
    if Fresh(s, s.recs[j]) {
      assert RecSane(s, j) && RecOk(s.rg, s.mem, s.recs[j]);
      SpecReadableRecord(s.rg, s.mem, s.recs[j]);
    }
    ret, e := SpecDecode(s.rg, s.mem, sq, idx);
    if ret > 0 && Fresh(s, s.recs[j]) { HeldEntryIsUnique(s.mem, sq % s.rg, e, Stored(s.recs[j])); }
  }

  /** The index map names where an entry starts: that of the newest one with the slot of `idx`. */
  lemma SlotOwner(s: State, idx: nat) returns (j: nat)
    requires Sound(s) && idx < |s.recs|
    ensures j < |s.recs| && s.recs[j].start == LookedUp(s, idx)
    decreases |s.recs| - idx
  {
    var count := |s.idxToSeq|;
    if |s.recs| <= idx + count {
      j := idx;
    } else {
      ModPeriod(idx, count, count);
      j := SlotOwner(s, idx + count);
    }
  }

  /** The 64-bit comparison excludes too-old indices, and every index while it wraps. */
  lemma WrappingComparison(idx: nat, indexer: nat, count: nat)
    requires idx < TWO_64 && indexer < TWO_64 && 64 <= count < TWO_64
    ensures idx > (indexer - count + 64) % TWO_64 && idx < indexer
       <==> indexer + 64 >= count && indexer + 64 < idx + count && idx < indexer
  {
    if indexer + 64 < count {
      assert (indexer - count + 64) % TWO_64 == indexer - count + 64 + TWO_64;
    } else {
      assert (indexer - count + 64) % TWO_64 == indexer - count + 64;
    }
  }

  method SpecDecode(rg: nat, mem: seq<byte>, sq: nat, idx: nat) returns (ret: int, e: Entry)
    requires rg > 0 && Readable(mem, sq % rg)
    ensures ret > 0 <==> GetIdx(mem, sq % rg) == idx && GetFlagFromBuf(mem, sq % rg) != 0
    ensures ret > 0 ==> Holds(mem, sq % rg, e) && e.flags != 0 && e.logIdx == idx && ret == Span(e)
    ensures ret <= 0 ==> forall x :: !(Holds(mem, sq % rg, x) && x.flags != 0 && x.logIdx == idx)
  {
    var off := sq % rg;
    forall x | Holds(mem, off, x)
      ensures x.logIdx == GetIdx(mem, off) && x.flags == GetFlagFromBuf(mem, off)
    {
      assert Get(mem, off, 2) == Value(x, 2) && Get(mem, off, 4) == Value(x, 4);
    }
    if GetIdx(mem, off) != idx {
      return 0, BLANK;
    }
    e, ret := Deserializer(mem, off);
  }

  /** What the speculative read finds at the offset of a record that has not been overwritten. */
  lemma SpecReadableRecord(rg: nat, mem: seq<byte>, rec: Rec)
    requires rg > 0 && RecOk(rg, mem, rec)
    ensures Readable(mem, Off(rg, rec))
    ensures GetFlagFromBuf(mem, Off(rg, rec)) != 0 ==> !rec.stage.Reserved? && Holds(mem, Off(rg, rec), Stored(rec))
    ensures !rec.stage.Reserved? ==> GetIdx(mem, Off(rg, rec)) == rec.entry.logIdx
    ensures rec.stage.Written? ==> GetFlagFromBuf(mem, Off(rg, rec)) == 0
    ensures rec.stage.Flagged? || rec.stage.Done? ==> GetFlagFromBuf(mem, Off(rg, rec)) == rec.entry.flags
  {
    if !rec.stage.Reserved? {
      HeldSize(mem, Off(rg, rec), Stored(rec));
      assert Get(mem, Off(rg, rec), 2) == Value(Stored(rec), 2);
    }
  }
}

/**
 * What a fetch beside appenders decodes: exactly when it is the settled entries and nothing else, exactly when it at
 * least ends at an entry boundary, and a run in which it delivers a torn entry.
 */
module FetchExact {
  import opened Arith
  import opened Codec
  import opened Batches
  import opened Ring
  import opened RingReads
  import RingProofs
  import RingLimits

  /** The fetch of bytes `begin` up to `limit` decodes exactly `run`. */
  predicate Decodes(s: State, begin: nat, limit: nat, run: seq<Entry>) {
    && 0 < s.rg <= |s.mem| && begin <= limit < begin + s.rg
    && LongestRun(TwoPieces(s.rg, s.mem, begin, limit), limit - begin, run)
  }

  /** The fetch from entry `a` up to byte `limit` finds exactly the settled entries there. */
  predicate FetchRight(s: State, a: nat, limit: nat) {
    Shape(s) && a <= |s.recs| && Decodes(s, StartAt(s, a), limit, Entries(s, a, FetchEnd(s, a, limit)))
  }

  /** And does so whatever else memory holds, for instance what earlier laps left at the front of the ring. */
  ghost predicate RightForEveryContent(s: State, a: nat, limit: nat) {
    forall mem :: Inv(s.(mem := mem)) ==> FetchRight(s.(mem := mem), a, limit)
  }

  /** Entries decoded from `a` on that end at a boundary, have only shown entries below it, and carry their indices. */
  predicate Lands(s: State, a: nat, run: seq<Entry>) {
    && a + |run| <= |s.recs| && StartAt(s, a) + TotalSpan(run) == StartAt(s, a + |run|)
    && forall i {:trigger Shown(s.recs[i])} :: a <= i < a + |run| ==> Shown(s.recs[i]) && run[i - a].logIdx == i
  }

  ghost predicate FetchLands(s: State, a: nat, limit: nat) {
    a <= |s.recs| && exists run :: Decodes(s, StartAt(s, a), limit, run) && Lands(s, a, run)
  }

  ghost predicate LandsForEveryContent(s: State, a: nat, limit: nat) {
    forall mem :: Inv(s.(mem := mem)) ==> FetchLands(s.(mem := mem), a, limit)
  }

  // ---------------------------------------------------------------- other contents of memory

  lemma {:induction false} SameEnd(s: State, t: State, a: nat, limit: nat)
    requires Shape(s) && Shape(t) && s.recs == t.recs && s.rg == t.rg && a <= |s.recs|
    ensures FetchEnd(s, a, limit) == FetchEnd(t, a, limit)
    decreases |s.recs| - a
  {
    if a < |s.recs| && Settled(s.rg, s.recs[a]) && s.recs[a].start + Span(s.recs[a].entry) <= limit {
      SameEnd(s, t, a + 1, limit);
    }
  }

  lemma OtherContent(s: State, mem: seq<byte>)
    requires Sound(s) && |mem| == |s.mem|
    ensures Sound(s.(mem := mem))
  {
    var t := s.(mem := mem);
    forall i | 0 <= i < |t.recs|
      ensures RecSane(t, i)
    {
      assert RecSane(s, i);
    }
  }

  /** Bytes that an unsettled crossing entry does not own yet: the front and, until it is written, its place. */
  predicate Loose(s: State, m: nat, p: nat)
    requires s.rg > 0 && m < |s.recs|
  {
    var rec := s.recs[m];
    (rec.stage.Reserved? && Off(s.rg, rec) <= p < s.rg) || p < End(s.rg, rec) - s.rg
  }

  lemma LooseRecord(s: State, m: nat, mem: seq<byte>)
    requires Inv(s) && m < |s.recs| && Fresh(s, s.recs[m]) && !s.recs[m].stage.Done?
    requires |mem| == |s.mem| && s.rg <= Off(s.rg, s.recs[m]) + FLAG_POS
    requires forall p :: 0 <= p < |mem| && !Loose(s, m, p) ==> mem[p] == s.mem[p]
    ensures RecOk(s.rg, mem, s.recs[m])
  {
    var rec, off, end := s.recs[m], Off(s.rg, s.recs[m]), End(s.rg, s.recs[m]);
    assert RecSane(s, m) && RecOk(s.rg, s.mem, rec);
    if rec.stage.Reserved? {
      StillCleared(s.rg, s.mem, mem, rec, off);
    } else {
      StillStored(s.rg, s.mem, mem, rec, off, end);
    }
  }

  lemma StillCleared(rg: nat, was: seq<byte>, mem: seq<byte>, rec: Rec, off: nat)
    requires rg > 0 && RecOk(rg, was, rec) && rec.stage.Reserved? && off == Off(rg, rec) && |mem| == |was|
    requires mem[off + FLAG_POS] == was[off + FLAG_POS] && mem[off + FLAG_POS + 1] == was[off + FLAG_POS + 1]
    ensures RecOk(rg, mem, rec)
  {
    assert mem[off + FLAG_POS..off + FLAG_POS + 2] == was[off + FLAG_POS..off + FLAG_POS + 2];
  }

  lemma StillStored(rg: nat, was: seq<byte>, mem: seq<byte>, rec: Rec, off: nat, end: nat)
    requires rg > 0 && RecOk(rg, was, rec) && !rec.stage.Reserved? && !rec.stage.Done?
    requires off == Off(rg, rec) && end == End(rg, rec) && |mem| == |was| && Agree(was, mem, off, end, 0)
    ensures RecOk(rg, mem, rec)
  {
    assert Stored(rec).size == |rec.entry.data|;
    HoldsFrame(was, mem, off, end, 0, Stored(rec));
  }

  /** Whatever lies in loose bytes, the ring is in a state it may be in. */
  lemma LooseContent(s: State, m: nat, mem: seq<byte>)
    requires Inv(s) && m < |s.recs| && Fresh(s, s.recs[m]) && !s.recs[m].stage.Done?
    requires |mem| == |s.mem| && s.rg <= Off(s.rg, s.recs[m]) + FLAG_POS
    requires forall p :: 0 <= p < |mem| && !Loose(s, m, p) ==> mem[p] == s.mem[p]
    ensures Inv(s.(mem := mem))
  {
    var t, rec, off := s.(mem := mem), s.recs[m], Off(s.rg, s.recs[m]);
    assert RecSane(s, m);
    OtherContent(s, mem);
    LooseRecord(s, m, mem);
    forall j | 0 <= j < |t.recs| && Fresh(t, t.recs[j])
      ensures RecOk(t.rg, t.mem, t.recs[j])
    {
      if j != m {
        assert RecOk(s.rg, s.mem, s.recs[j]);
        RingProofs.RecordsApart(s, m, j);
        OtherRecordsKept(s.rg, s.mem, mem, rec, s.recs[j], if rec.stage.Reserved? then s.rg else off);
      }
    }
  }

  // ---------------------------------------------------------------- what the fetch sees of a header field

  lemma ByteSeen(rg: nat, mem: seq<byte>, begin: nat, end: nat, sq: nat, off: nat, i: nat)
    requires 0 < rg <= |mem| && begin <= sq && sq + i < end < begin + rg && off == sq % rg && i < rg
    ensures TwoPieces(rg, mem, begin, end)[sq - begin + i] == mem[if off + i < rg then off + i else off + i - rg]
  {
    ModStep(sq, i, rg);
    TwoPiecesAt(rg, mem, begin, end, sq + i);
  }

  lemma FieldInRing(rg: nat, mem: seq<byte>, begin: nat, end: nat, sq: nat, off: nat, q: nat, w: nat)
    requires 0 < rg <= |mem| && begin <= sq && sq + q + w <= end < begin + rg && off == sq % rg && off + q + w <= rg
    ensures TwoPieces(rg, mem, begin, end)[sq - begin + q..sq - begin + q + w] == mem[off + q..off + q + w]
  {
    var b := TwoPieces(rg, mem, begin, end);
    var x, y := b[sq - begin + q..sq - begin + q + w], mem[off + q..off + q + w];
    forall i | 0 <= i < w
      ensures x[i] == y[i]
    {
      ByteSeen(rg, mem, begin, end, sq, off, q + i);
    }
  }

  lemma FieldAtFront(rg: nat, mem: seq<byte>, begin: nat, end: nat, sq: nat, off: nat, q: nat, w: nat)
    requires 0 < rg <= |mem| && begin <= sq && sq + q + w <= end < begin + rg
    requires off == sq % rg && q + w < rg <= off + q
    ensures TwoPieces(rg, mem, begin, end)[sq - begin + q..sq - begin + q + w] == mem[off + q - rg..off + q - rg + w]
  {
    var b, at := TwoPieces(rg, mem, begin, end), off + q - rg;
    var x, y := b[sq - begin + q..sq - begin + q + w], mem[at..at + w];
    forall i | 0 <= i < w
      ensures x[i] == y[i]
    {
      ByteSeen(rg, mem, begin, end, sq, off, q + i);
    }
  }

  /** The fetch does not stop at sequence `sq`. */
  predicate ReadsOn(s: State, begin: nat, limit: nat, sq: nat) {
    && 0 < s.rg <= |s.mem| && begin <= sq <= limit < begin + s.rg
    && !Stops(TwoPieces(s.rg, s.mem, begin, limit), sq - begin, limit - begin)
  }

  /** If the fetch reads on where `run` ends, it does not decode exactly `run`. */
  lemma NotOver(s: State, begin: nat, limit: nat, run: seq<Entry>, sq: nat)
    requires ReadsOn(s, begin, limit, sq) && begin + TotalSpan(run) == sq
    ensures !Decodes(s, begin, limit, run)
  {
  }

  lemma NotRight(s: State, a: nat, limit: nat, m: nat)
    requires Shape(s) && Layout(s) && a <= |s.recs| && m == FetchEnd(s, a, limit)
    requires ReadsOn(s, StartAt(s, a), limit, StartAt(s, m))
    ensures !FetchRight(s, a, limit)
  {
    FetchedSpan(s, a, m);
    NotOver(s, StartAt(s, a), limit, Entries(s, a, m), StartAt(s, m));
  }

  // ---------------------------------------------------------------- contents that mislead it

  /** The first entry past the settled ones is unsettled, and its header is within the limit. */
  predicate Facing(s: State, a: nat, limit: nat, m: nat) {
    && InRange(s, a, limit) && m == FetchEnd(s, a, limit) && m < |s.recs| && !Settled(s.rg, s.recs[m])
    && s.recs[m].start + META_DATA_SIZE <= limit
  }

  lemma FacingFacts(s: State, a: nat, limit: nat, m: nat)
    requires Facing(s, a, limit, m)
    ensures s.rg <= |s.mem| && StartAt(s, a) <= s.recs[m].start && limit < StartAt(s, a) + s.rg
    ensures Fresh(s, s.recs[m]) && RecOk(s.rg, s.mem, s.recs[m]) && Span(s.recs[m].entry) <= SAFE_RG_SIZE < s.rg
  {
    BeginAboveWatermark(s, a);
    if a < m { RingProofs.StartsIncrease(s, a, m); }
    RingProofs.WatermarkBelow(s, m);
    assert RecSane(s, m) && RecOk(s.rg, s.mem, s.recs[m]);
  }

  /** A flag that lies in the ring is seen as it is. */
  lemma FlagInView(rg: nat, mem: seq<byte>, begin: nat, end: nat, rec: Rec, off: nat)
    requires META_DATA_SIZE < rg <= |mem| && begin <= rec.start && rec.start + META_DATA_SIZE <= end < begin + rg
    requires off == Off(rg, rec) && off + FLAG_POS + 2 <= rg && RecOk(rg, mem, rec) && rec.stage.Flagged?
    ensures GetFlagFromBuf(TwoPieces(rg, mem, begin, end), rec.start - begin) == rec.entry.flags
  {
    HeldSize(mem, off, rec.entry);
    FieldInRing(rg, mem, begin, end, rec.start, off, FLAG_POS, 2);
  }

  /** Flagged, not copied, the whole header in the ring, and the entry within the limit: it is read, torn or not. */
  lemma FlaggedIsRead(s: State, a: nat, limit: nat, m: nat)
    requires Facing(s, a, limit, m) && s.recs[m].stage.Flagged? && Off(s.rg, s.recs[m]) + FLAG_POS + 2 <= s.rg
    requires s.recs[m].start + Span(s.recs[m].entry) <= limit
    ensures ReadsOn(s, StartAt(s, a), limit, s.recs[m].start) && !FetchRight(s, a, limit)
  {
    FacingFacts(s, a, limit, m);
    var rec, begin := s.recs[m], StartAt(s, a);
    assert RecSane(s, m);
    FlagInView(s.rg, s.mem, begin, limit, rec, Off(s.rg, rec));
    SizeShows(s.rg, s.mem, begin, limit, rec);
    NotRight(s, a, limit, m);
  }

  /** Where the fetch looks for the size of the entry at `off`. */
  function SizeAt(off: nat, rg: nat): nat
    requires rg <= off + Pos(3) || off + FLAG_POS <= rg
  {
    if off + FLAG_POS <= rg then off + Pos(3) else off + Pos(3) - rg
  }

  /** The flag lies past the end, and the size does too or lies all in the ring. */
  predicate Split(off: nat, rg: nat) {
    off < rg <= off + FLAG_POS && (rg <= off + Pos(3) || off + FLAG_POS <= rg) && META_DATA_SIZE < rg
  }

  /** A size that reads as an empty entry: 0, or one whose 32-bit sum wraps, which the reader follows past its buffer. */
  predicate Misleading(z: nat) {
    z == 0 || z == TWO_32 - 1
  }

  /** `mem` has a set flag and size `z` where the fetch looks for those of the entry at `off`. */
  predicate Forges(mem: seq<byte>, off: nat, rg: nat, z: nat) {
    && Split(off, rg) && rg <= |mem|
    && mem[SizeAt(off, rg)..SizeAt(off, rg) + 4] == LittleEndian(z, 4)
    && mem[off + FLAG_POS - rg..off + FLAG_POS - rg + 2] == LittleEndian(1, 2)
  }

  /** A set flag at the front is what the fetch takes for the flag of an entry whose flag lies past the end. */
  lemma FlagSeen(rg: nat, mem: seq<byte>, begin: nat, end: nat, sq: nat, off: nat)
    requires META_DATA_SIZE < rg <= |mem| && begin <= sq && sq + META_DATA_SIZE <= end < begin + rg
    requires off == sq % rg && rg <= off + FLAG_POS
    requires mem[off + FLAG_POS - rg..off + FLAG_POS - rg + 2] == LittleEndian(1, 2)
    ensures GetFlagFromBuf(TwoPieces(rg, mem, begin, end), sq - begin) == 1
  {
    FieldAtFront(rg, mem, begin, end, sq, off, FLAG_POS, 2);
    IntegerRoundTrip(1, 2);
  }

  lemma MisleadingSize(b: seq<byte>, at: nat, z: nat)
    requires at + META_DATA_SIZE <= |b| && b[at + Pos(3)..at + Pos(3) + 4] == LittleEndian(z, 4) && Misleading(z)
    ensures GetSizeFromBuf(b, at) == META_DATA_SIZE && Get(b, at, 3) == z
  {
    assert Pow256(4) == TWO_32;
    IntegerRoundTrip(z, 4);
    assert Get(b, at, 3) == z;
  }

  lemma SizeSeen(rg: nat, mem: seq<byte>, begin: nat, end: nat, sq: nat, off: nat, z: nat)
    requires rg <= |mem| && begin <= sq && sq + META_DATA_SIZE <= end < begin + rg && Misleading(z)
    requires Split(off, rg) && off == sq % rg && mem[SizeAt(off, rg)..SizeAt(off, rg) + 4] == LittleEndian(z, 4)
    ensures var b := TwoPieces(rg, mem, begin, end);
            GetSizeFromBuf(b, sq - begin) == META_DATA_SIZE && Get(b, sq - begin, 3) == z
  {
    if off + FLAG_POS <= rg {
      FieldInRing(rg, mem, begin, end, sq, off, Pos(3), 4);
    } else {
      FieldAtFront(rg, mem, begin, end, sq, off, Pos(3), 4);
    }
    MisleadingSize(TwoPieces(rg, mem, begin, end), sq - begin, z);
  }

  /** The flag lies at the front, the size in the ring: with a set flag there, the entry is read. */
  lemma StaleFlag(s: State, a: nat, limit: nat, m: nat) returns (t: State)
    requires Facing(s, a, limit, m) && !s.recs[m].stage.Reserved? && Off(s.rg, s.recs[m]) + FLAG_POS == s.rg
    requires s.recs[m].start + Span(s.recs[m].entry) <= limit
    ensures t == s.(mem := t.mem) && Inv(t) && ReadsOn(t, StartAt(s, a), limit, s.recs[m].start)
  {
    FacingFacts(s, a, limit, m);
    var mem := Splice(s.mem, 0, LittleEndian(1, 2));
    t := s.(mem := mem);
    LooseContent(s, m, mem);
    LooseRecord(s, m, mem);
    StaleFlagIsRead(t, limit, s.recs[m], StartAt(s, a), Off(s.rg, s.recs[m]));
  }

  lemma StaleFlagIsRead(t: State, limit: nat, rec: Rec, begin: nat, off: nat)
    requires 2 <= t.rg <= |t.mem| && t.mem[0..2] == LittleEndian(1, 2) && !rec.stage.Reserved?
    requires off == Off(t.rg, rec) && off + FLAG_POS == t.rg && RecOk(t.rg, t.mem, rec)
    requires begin <= rec.start && rec.start + Span(rec.entry) <= limit < begin + t.rg
    requires Span(rec.entry) <= SAFE_RG_SIZE < t.rg
    ensures ReadsOn(t, begin, limit, rec.start)
  {
    FlagSeen(t.rg, t.mem, begin, limit, rec.start, off);
    SizeShows(t.rg, t.mem, begin, limit, rec);
  }

  /** The bytes where the fetch looks for size and flag. */
  predicate InFields(off: nat, rg: nat, p: nat)
    requires Split(off, rg)
  {
    SizeAt(off, rg) <= p < SizeAt(off, rg) + 4 || off + FLAG_POS - rg <= p < off + FLAG_POS - rg + 2
  }

  /** `r` is `mem` but for those bytes. */
  predicate OnlyFields(mem: seq<byte>, r: seq<byte>, off: nat, rg: nat) {
    && Split(off, rg) && |r| == |mem|
    && forall p {:trigger InFields(off, rg, p)} :: 0 <= p < |mem| && !InFields(off, rg, p) ==> r[p] == mem[p]
  }

  lemma Forge(mem: seq<byte>, off: nat, rg: nat, z: nat) returns (r: seq<byte>)
    requires Split(off, rg) && rg <= |mem|
    ensures OnlyFields(mem, r, off, rg) && Forges(r, off, rg, z)
  {
    var sized := Splice(mem, SizeAt(off, rg), LittleEndian(z, 4));
    r := Splice(sized, off + FLAG_POS - rg, LittleEndian(1, 2));
    assert r[SizeAt(off, rg)..SizeAt(off, rg) + 4] == sized[SizeAt(off, rg)..SizeAt(off, rg) + 4];
  }

  /** Neither flag nor size of record `m`, which lies at `off`, is settled. */
  predicate Open(rg: nat, rec: Rec, off: nat)
    requires rg > 0
  {
    off == Off(rg, rec) && Split(off, rg) && (rec.stage.Reserved? || rg <= off + Pos(3))
  }

  lemma ForgedIsPossible(s: State, m: nat, off: nat, mem: seq<byte>)
    requires Inv(s) && m < |s.recs| && Fresh(s, s.recs[m]) && !s.recs[m].stage.Done? && Open(s.rg, s.recs[m], off)
    requires OnlyFields(s.mem, mem, off, s.rg)
    ensures Inv(s.(mem := mem))
  {
    forall p | 0 <= p < |mem| && !Loose(s, m, p)
      ensures mem[p] == s.mem[p]
    {
      assert !InFields(off, s.rg, p);
    }
    LooseContent(s, m, mem);
  }

  lemma ForgedSeen(rg: nat, mem: seq<byte>, begin: nat, end: nat, sq: nat, off: nat, b: seq<byte>, z: nat)
    requires begin <= sq && sq + META_DATA_SIZE <= end < begin + rg && Forges(mem, off, rg, z) && off == sq % rg
    requires b == TwoPieces(rg, mem, begin, end) && Misleading(z)
    ensures GetFlagFromBuf(b, sq - begin) == 1 && GetSizeFromBuf(b, sq - begin) == META_DATA_SIZE
    ensures Get(b, sq - begin, 3) == z
  {
    FlagSeen(rg, mem, begin, end, sq, off);
    SizeSeen(rg, mem, begin, end, sq, off, z);
  }

  /** The fetch reads on at `sq`, and finds size `z` there. */
  predicate SeesSize(s: State, begin: nat, limit: nat, sq: nat, z: nat) {
    && ReadsOn(s, begin, limit, sq) && sq + META_DATA_SIZE <= limit
    && Get(TwoPieces(s.rg, s.mem, begin, limit), sq - begin, 3) == z
  }

  lemma ForgedIsRead(t: State, rec: Rec, off: nat, begin: nat, limit: nat, z: nat)
    requires begin <= rec.start && rec.start + META_DATA_SIZE <= limit < begin + t.rg
    requires Forges(t.mem, off, t.rg, z) && off == rec.start % t.rg && Misleading(z)
    ensures SeesSize(t, begin, limit, rec.start, z)
  {
    ForgedSeen(t.rg, t.mem, begin, limit, rec.start, off, TwoPieces(t.rg, t.mem, begin, limit), z);
  }

  /**
   * Neither flag nor size is settled yet: with a set flag and a misleading size there, the fetch goes on with an entry
   * that was never appended.
   */
  lemma StaleHeader(s: State, a: nat, limit: nat, m: nat, off: nat, z: nat) returns (t: State)
    requires Facing(s, a, limit, m) && Open(s.rg, s.recs[m], off) && Misleading(z)
    ensures t == s.(mem := t.mem) && Inv(t) && SeesSize(t, StartAt(s, a), limit, s.recs[m].start, z)
  {
    FacingFacts(s, a, limit, m);
    var mem := Forge(s.mem, off, s.rg, z);
    t := s.(mem := mem);
    ForgedIsPossible(s, m, off, mem);
    ForgedIsRead(t, s.recs[m], off, StartAt(s, a), limit, z);
  }

  // ---------------------------------------------------------------- the exact condition

  /** In whole words, flag and size do not straddle the end of the ring. */
  lemma WordSplit(off: nat, rg: nat)
    requires off % 4 == 0 && rg % 4 == 0 && META_DATA_SIZE < rg && off < rg < off + FLAG_POS + 2
    ensures Split(off, rg) && (off + FLAG_POS == rg || rg <= off + Pos(3))
  {
  }

  /** Where the first unsettled entry lies that has its flag at the front. */
  lemma FlagAtFront(s: State, a: nat, limit: nat, m: nat)
    requires Facing(s, a, limit, m) && s.rg % 4 == 0 && s.rg < Off(s.rg, s.recs[m]) + FLAG_POS + 2
    ensures var off := Off(s.rg, s.recs[m]); Split(off, s.rg) && (off + FLAG_POS == s.rg || s.rg <= off + Pos(3))
  {
    RingProofs.BoundariesAreWords(s, m);
    WordInLap(s.recs[m].start, s.rg);
    WordSplit(Off(s.rg, s.recs[m]), s.rg);
  }

  lemma Misled(s: State, a: nat, limit: nat, m: nat) returns (t: State)
    requires Facing(s, a, limit, m) && s.rg % 4 == 0 && !Masked(s.rg, s.recs[m], limit)
    ensures t == s.(mem := t.mem) && Inv(t) && ReadsOn(t, StartAt(s, a), limit, s.recs[m].start)
  {
    var off := Off(s.rg, s.recs[m]);
    if off + FLAG_POS + 2 <= s.rg {
      FlaggedIsRead(s, a, limit, m);
      t := s;
    } else {
      FlagAtFront(s, a, limit, m);
      if s.recs[m].stage.Reserved? || s.rg <= off + Pos(3) {
        t := StaleHeader(s, a, limit, m, off, 0);
      } else {
        t := StaleFlag(s, a, limit, m);
      }
    }
  }

  /**
   * The exact condition, on stages and offsets alone: whatever earlier laps left in memory, the fetch returns exactly
   * the settled entries if and only if the first entry past them is masked, or its header is past the limit.
   */
  lemma FetchExactly(s: State, a: nat, limit: nat)
    requires InRange(s, a, limit) && s.rg % 4 == 0
    ensures RightForEveryContent(s, a, limit) <==> Ends(s, FetchEnd(s, a, limit), limit)
  {
    var m := FetchEnd(s, a, limit);
    if Ends(s, m, limit) {
      forall mem | Inv(s.(mem := mem))
        ensures FetchRight(s.(mem := mem), a, limit)
      {
        var t := s.(mem := mem);
        SameEnd(s, t, a, limit);
        FetchIsLongestRun(t, a, limit);
      }
    } else {
      var t := Misled(s, a, limit, m);
      SameEnd(s, t, a, limit);
      NotRight(t, a, limit, m);
      assert Inv(s.(mem := t.mem)) && !FetchRight(s.(mem := t.mem), a, limit);
    }
  }

  // ---------------------------------------------------------------- fetches that end at a boundary

  /**
   * Where the settled entries stop, the fetch stops, or it reads on in step with the entries: the unsettled one is
   * flagged, and what says how long it is lies in the ring.
   */
  predicate Steady(s: State, m: nat, limit: nat)
    requires Shape(s)
  {
    m < |s.recs| && !Settled(s.rg, s.recs[m]) && s.recs[m].start + META_DATA_SIZE <= limit ==>
      || Masked(s.rg, s.recs[m], limit)
      || (s.recs[m].stage.Flagged? && Off(s.rg, s.recs[m]) + FLAG_POS <= s.rg)
  }

  lemma IsLanding(s: State, a: nat, j: nat, run: seq<Entry>)
    requires a <= j <= |s.recs| && |run| == j - a && StartAt(s, a) + TotalSpan(run) == StartAt(s, j)
    requires forall k :: 0 <= k < |run| ==> run[k].logIdx == a + k
    requires forall i :: a <= i < j ==> Shown(s.recs[i])
    ensures Lands(s, a, run)
  {
  }

  lemma EntriesLand(s: State, a: nat, m: nat, es: seq<Entry>)
    requires Sound(s) && a <= m <= |s.recs| && es == Entries(s, a, m)
    requires forall i :: a <= i < m ==> Shown(s.recs[i])
    ensures Lands(s, a, es)
  {
    FetchedSpan(s, a, m);
    forall k | 0 <= k < |es|
      ensures es[k].logIdx == a + k
    {
      assert RecSane(s, a + k);
    }
    IsLanding(s, a, m, es);
  }

  /** Less than a lap holds only one entry that crosses the end of the ring. */
  lemma PastCrossing(s: State, m: nat, j: nat)
    requires Sound(s) && s.orderedIdxWatermk <= m < j < |s.recs| && End(s.rg, s.recs[m]) > s.rg
    ensures End(s.rg, s.recs[j]) <= s.rg
  {
    RingProofs.StartsIncrease(s, m, j);
    RingProofs.StartsIncrease(s, j, |s.recs|);
    RingProofs.WatermarkBelow(s, m);
    ModStep(s.recs[m].start, s.recs[j].start - s.recs[m].start, s.rg);
  }

  /** So the settled entries past it end where the fetch stops. */
  lemma PastCrossingEnds(s: State, m: nat, limit: nat)
    requires Sound(s) && s.orderedIdxWatermk <= m < |s.recs| && End(s.rg, s.recs[m]) > s.rg
    ensures Ends(s, FetchEnd(s, m + 1, limit), limit)
  {
    var j := FetchEnd(s, m + 1, limit);
    if j < |s.recs| {
      PastCrossing(s, m, j);
    }
  }

  lemma SizeAndIndexSeen(rg: nat, mem: seq<byte>, begin: nat, limit: nat, rec: Rec, b: seq<byte>, at: nat)
    requires 0 < rg <= |mem| && begin <= rec.start && rec.start + Span(rec.entry) <= limit < begin + rg
    requires RecOk(rg, mem, rec) && rec.stage.Flagged? && Off(rg, rec) + FLAG_POS <= rg && Span(rec.entry) < rg
    requires b == TwoPieces(rg, mem, begin, limit) && at == rec.start - begin
    ensures Get(b, at, 2) == rec.entry.logIdx && Get(b, at, 3) == rec.entry.size == |rec.entry.data|
  {
    var off := Off(rg, rec);
    FieldInRing(rg, mem, begin, limit, rec.start, off, Pos(2), Width(2));
    FieldInRing(rg, mem, begin, limit, rec.start, off, Pos(3), Width(3));
    assert Get(mem, off, 2) == Value(rec.entry, 2) && Get(mem, off, 3) == Value(rec.entry, 3);
  }

  /** What a reader decodes where it finds a flag and an entry that fits. */
  lemma Decoded(b: seq<byte>, at: nat, idx: nat, size: nat) returns (got: Entry)
    requires at + META_DATA_SIZE + size <= |b| && Get(b, at, 2) == idx && Get(b, at, 3) == size
    ensures Holds(b, at, got) && got.logIdx == idx && got.size == size && got.flags == GetFlagFromBuf(b, at)
    ensures Span(got) == META_DATA_SIZE + Padded(size)
  {
    got := Entry(Get(b, at, 0), Get(b, at, 1), idx, size, Get(b, at, 4), Get(b, at, 5),
                 b[at + META_DATA_SIZE..at + META_DATA_SIZE + size]);
    DecodedIsHeld(b, at, got);
  }

  lemma DecodedIsHeld(b: seq<byte>, at: nat, got: Entry)
    requires at + META_DATA_SIZE + got.size <= |b| && got.data == b[at + META_DATA_SIZE..at + META_DATA_SIZE + got.size]
    requires got == Entry(Get(b, at, 0), Get(b, at, 1), Get(b, at, 2), Get(b, at, 3), Get(b, at, 4), Get(b, at, 5), got.data)
    ensures Holds(b, at, got)
  {
  }

  /** The end of a fetched range is itself a fetched range. */
  lemma RestAgrees(rg: nat, mem: seq<byte>, begin: nat, mid: nat, limit: nat)
    requires 0 < rg <= |mem| && begin <= mid <= limit
    ensures Agree(TwoPieces(rg, mem, mid, limit), TwoPieces(rg, mem, begin, limit), 0, limit - mid, mid - begin)
  {
    var b, c := TwoPieces(rg, mem, begin, limit), TwoPieces(rg, mem, mid, limit);
    forall k | 0 <= k < limit - mid
      ensures c[k] == b[k + (mid - begin)]
    {
      TwoPiecesAt(rg, mem, mid, limit, mid + k);
      TwoPiecesAt(rg, mem, begin, limit, mid + k);
    }
  }

  /** One more entry after a run. */
  lemma WholeNext(b: seq<byte>, max: nat, run: seq<Entry>, e: Entry, at: nat)
    requires WholeRun(b, max, run) && at == TotalSpan(run) && Holds(b, at, e) && e.flags != 0 && e.size <= TWO_32 - 4
    requires at + Span(e) <= max
    ensures WholeRun(b, max, run + [e]) && TotalSpan(run + [e]) == at + Span(e)
  {
    assert Start([e], 1) == Start([e], 0) + Span(e);
    HoldsNext(b, at, [e], 0);
    HoldsAllConcat(b, run, [e]);
  }

  lemma SpansJoin(x: seq<Entry>, got: Entry, y: seq<Entry>)
    ensures TotalSpan(x + [got] + y) == TotalSpan(x) + Span(got) + TotalSpan(y)
  {
    StartOfConcat(x, [got], 1);
    assert Start([got], 1) == Start([got], 0) + Span(got);
    StartOfConcat(x + [got], y, |y|);
  }

  lemma StepIndex(s: State, a: nat, m: nat, j: nat, got: Entry, x: seq<Entry>, y: seq<Entry>, i: nat)
    requires Sound(s) && a <= m < j <= |s.recs| && a <= i < j
    requires got.logIdx == m && x == Entries(s, a, m) && y == Entries(s, m + 1, j)
    ensures (x + [got] + y)[i - a].logIdx == i
  {
    assert RecSane(s, i);
    assert i < m ==> (x + [got] + y)[i - a] == x[i - a];
    assert i > m ==> (x + [got] + y)[i - a] == y[i - m - 1];
  }

  /** Decoded in step with the entries: up to `m`, something of the same length and index as `m`, and on to `j`. */
  lemma StepsLand(s: State, a: nat, m: nat, j: nat, got: Entry, x: seq<Entry>, y: seq<Entry>, run: seq<Entry>)
    requires Sound(s) && a <= m < j <= |s.recs| && forall i :: a <= i < j ==> Shown(s.recs[i])
    requires got.logIdx == m && Span(got) == Span(s.recs[m].entry) && x == Entries(s, a, m) && y == Entries(s, m + 1, j)
    requires run == x + [got] + y
    ensures Lands(s, a, run)
  {
    StepsSpan(s, a, m, j, got, x, y);
    forall k | 0 <= k < |run|
      ensures run[k].logIdx == a + k
    {
      StepIndex(s, a, m, j, got, x, y, a + k);
    }
    IsLanding(s, a, j, run);
  }

  lemma StepsSpan(s: State, a: nat, m: nat, j: nat, got: Entry, x: seq<Entry>, y: seq<Entry>)
    requires Sound(s) && a <= m < j <= |s.recs| && Span(got) == Span(s.recs[m].entry)
    requires x == Entries(s, a, m) && y == Entries(s, m + 1, j)
    ensures StartAt(s, a) + TotalSpan(x + [got] + y) == StartAt(s, j)
  {
    FetchedSpan(s, a, m);
    FetchedSpan(s, m + 1, j);
    assert RecSane(s, m);
    SpansJoin(x, got, y);
  }

  /** The settled entries reach up to entry `m`. */
  lemma FrontWhole(s: State, a: nat, limit: nat, m: nat, begin: nat, b: seq<byte>, front: seq<Entry>, at: nat)
    requires InRange(s, a, limit) && m == FetchEnd(s, a, limit) && begin == StartAt(s, a) && limit < begin + s.rg
    requires begin + at == StartAt(s, m) <= limit
    requires b == TwoPieces(s.rg, s.mem, begin, limit) && front == Entries(s, a, m)
    ensures WholeRun(b, limit - begin, front) && TotalSpan(front) == at
  {
    FetchedSpan(s, a, m);
    FetchedFront(s, a, limit, m, begin, b, front);
  }

  /** The settled entries and what is decoded of the crossing entry `m`. */
  lemma FrontAcross(s: State, a: nat, limit: nat, m: nat, begin: nat, b: seq<byte>, got: Entry, front: seq<Entry>, at: nat)
    requires InRange(s, a, limit) && m == FetchEnd(s, a, limit) && begin == StartAt(s, a) && limit < begin + s.rg
    requires begin + at == StartAt(s, m) && begin + at + Span(got) <= limit
    requires b == TwoPieces(s.rg, s.mem, begin, limit) && front == Entries(s, a, m)
    requires Holds(b, at, got) && got.flags != 0 && got.size <= TWO_32 - 4
    ensures WholeRun(b, limit - begin, front + [got]) && TotalSpan(front + [got]) == at + Span(got)
  {
    FrontWhole(s, a, limit, m, begin, b, front, at);
    WholeNext(b, limit - begin, front, got, at);
  }

  /** What the fetch decodes from the entry after `m` on. */
  lemma RestDecodes(s: State, limit: nat, m: nat, mid: nat, rest: seq<Entry>)
    requires Inv(s) && s.orderedIdxWatermk <= m < |s.recs| && limit <= s.sequencer && End(s.rg, s.recs[m]) > s.rg
    requires mid == s.recs[m].start + Span(s.recs[m].entry) <= limit
    requires rest == Entries(s, m + 1, FetchEnd(s, m + 1, limit))
    ensures Decodes(s, mid, limit, rest)
  {
    assert RecSane(s, m);
    PastCrossingEnds(s, m, limit);
    FetchIsLongestRun(s, m + 1, limit);
  }

  /** Entries at the front and what a fetch of the rest decodes are what the fetch of all decodes. */
  lemma DecodesJoin(s: State, begin: nat, mid: nat, limit: nat, b: seq<byte>, front: seq<Entry>, rest: seq<Entry>)
    requires Decodes(s, mid, limit, rest) && begin <= mid && limit < begin + s.rg
    requires b == TwoPieces(s.rg, s.mem, begin, limit)
    requires WholeRun(b, limit - begin, front) && begin + TotalSpan(front) == mid
    ensures Decodes(s, begin, limit, front + rest)
  {
    RestAgrees(s.rg, s.mem, begin, mid, limit);
    RunsJoin(b, front, TwoPieces(s.rg, s.mem, mid, limit), rest);
  }

  lemma AcrossDecodes(s: State, a: nat, limit: nat, m: nat, begin: nat, b: seq<byte>, got: Entry, front: seq<Entry>,
                      rest: seq<Entry>)
    requires Facing(s, a, limit, m) && s.recs[m].stage.Flagged? && s.recs[m].start + Span(s.recs[m].entry) <= limit
    requires begin == StartAt(s, a) <= s.recs[m].start && limit < begin + s.rg && b == TwoPieces(s.rg, s.mem, begin, limit)
    requires Holds(b, s.recs[m].start - begin, got) && got.flags != 0
    requires got.size <= TWO_32 - 4 && Span(got) == Span(s.recs[m].entry)
    requires front == Entries(s, a, m) && rest == Entries(s, m + 1, FetchEnd(s, m + 1, limit))
    ensures Decodes(s, begin, limit, front + [got] + rest)
  {
    FrontAcross(s, a, limit, m, begin, b, got, front, s.recs[m].start - begin);
    var mid := s.recs[m].start + Span(s.recs[m].entry);
    RestDecodes(s, limit, m, mid, rest);
    DecodesJoin(s, begin, mid, limit, b, front + [got], rest);
  }

  lemma LandsBy(s: State, a: nat, limit: nat, run: seq<Entry>)
    requires a <= |s.recs| && Decodes(s, StartAt(s, a), limit, run) && Lands(s, a, run)
    ensures FetchLands(s, a, limit)
  {
  }

  /** The fetch sees no flag at entry `m`. */
  lemma UnseenLands(s: State, a: nat, limit: nat, m: nat, begin: nat, b: seq<byte>)
    requires Facing(s, a, limit, m) && begin == StartAt(s, a) <= s.recs[m].start && limit < begin + s.rg
    requires b == TwoPieces(s.rg, s.mem, begin, limit) && GetFlagFromBuf(b, s.recs[m].start - begin) == 0
    ensures FetchLands(s, a, limit)
  {
    var front, at := Entries(s, a, m), s.recs[m].start - begin;
    FrontWhole(s, a, limit, m, begin, b, front, at);
    IsLongest(b, limit - begin, front, at);
    EntriesLand(s, a, m, front);
    LandsBy(s, a, limit, front);
  }

  lemma AcrossSteps(s: State, a: nat, limit: nat, m: nat, j: nat, got: Entry, x: seq<Entry>, y: seq<Entry>,
                    run: seq<Entry>)
    requires Sound(s) && a <= m < |s.recs| && m == FetchEnd(s, a, limit) && s.recs[m].stage.Flagged?
    requires j == FetchEnd(s, m + 1, limit) && got.logIdx == m && Span(got) == Span(s.recs[m].entry)
    requires x == Entries(s, a, m) && y == Entries(s, m + 1, j) && run == x + [got] + y
    ensures Lands(s, a, run)
  {
    forall i | a <= i < j
      ensures Shown(s.recs[i])
    {
      assert i != m ==> Settled(s.rg, s.recs[i]);
    }
    StepsLand(s, a, m, j, got, x, y, run);
  }

  /** The fetch reads over entry `m`, of which it decodes `got`. */
  lemma AcrossLands(s: State, a: nat, limit: nat, m: nat, begin: nat, b: seq<byte>, got: Entry)
    requires Facing(s, a, limit, m) && s.recs[m].stage.Flagged? && s.recs[m].start + Span(s.recs[m].entry) <= limit
    requires begin == StartAt(s, a) <= s.recs[m].start && limit < begin + s.rg && b == TwoPieces(s.rg, s.mem, begin, limit)
    requires Holds(b, s.recs[m].start - begin, got) && got.flags != 0 && got.logIdx == m
    requires got.size <= TWO_32 - 4 && Span(got) == Span(s.recs[m].entry)
    ensures FetchLands(s, a, limit)
  {
    var front, j := Entries(s, a, m), FetchEnd(s, m + 1, limit);
    var rest := Entries(s, m + 1, j);
    AcrossDecodes(s, a, limit, m, begin, b, got, front, rest);
    AcrossSteps(s, a, limit, m, j, got, front, rest, front + [got] + rest);
    LandsBy(s, a, limit, front + [got] + rest);
  }

  /** A flagged entry whose size lies in the ring, and which ends within the limit: the fetch ends at a boundary. */
  lemma FlaggedLands(s: State, a: nat, limit: nat, m: nat)
    requires Facing(s, a, limit, m) && s.recs[m].stage.Flagged? && Off(s.rg, s.recs[m]) + FLAG_POS <= s.rg
    requires s.recs[m].start + Span(s.recs[m].entry) <= limit
    ensures FetchLands(s, a, limit)
  {
    FacingFacts(s, a, limit, m);
    assert RecSane(s, m);
    var begin, at := StartAt(s, a), s.recs[m].start - StartAt(s, a);
    var b := TwoPieces(s.rg, s.mem, begin, limit);
    if GetFlagFromBuf(b, at) == 0 {
      UnseenLands(s, a, limit, m, begin, b);
    } else {
      SizeAndIndexSeen(s.rg, s.mem, begin, limit, s.recs[m], b, at);
      var got := Decoded(b, at, m, s.recs[m].entry.size);
      AcrossLands(s, a, limit, m, begin, b, got);
    }
  }

  lemma SteadyLands(s: State, a: nat, limit: nat)
    requires InRange(s, a, limit) && Steady(s, FetchEnd(s, a, limit), limit)
    ensures FetchLands(s, a, limit)
  {
    var m := FetchEnd(s, a, limit);
    if Ends(s, m, limit) {
      FetchIsLongestRun(s, a, limit);
      EntriesLand(s, a, m, Entries(s, a, m));
    } else {
      FlaggedLands(s, a, limit, m);
    }
  }

  /** Reading on at an entry that is not shown, or with a size that wraps, the fetch does not end at a boundary. */
  lemma NeverLands(s: State, a: nat, limit: nat, m: nat)
    requires Facing(s, a, limit, m) && ReadsOn(s, StartAt(s, a), limit, s.recs[m].start)
    requires !Shown(s.recs[m]) || SeesSize(s, StartAt(s, a), limit, s.recs[m].start, TWO_32 - 1)
    ensures !FetchLands(s, a, limit)
  {
    var begin, at, front := StartAt(s, a), s.recs[m].start - StartAt(s, a), Entries(s, a, m);
    var b := TwoPieces(s.rg, s.mem, begin, limit);
    FrontWhole(s, a, limit, m, begin, b, front, at);
    forall run | Decodes(s, begin, limit, run)
      ensures !Lands(s, a, run)
    {
      MoreDecoded(b, limit - begin, front, run, at);
    }
  }

  lemma MoreDecoded(b: seq<byte>, max: nat, front: seq<Entry>, run: seq<Entry>, at: nat)
    requires WholeRun(b, max, front) && LongestRun(b, max, run) && at == TotalSpan(front) && !Stops(b, at, max)
    ensures |front| < |run| && Get(b, at, 3) <= TWO_32 - 4
  {
    GoesOn(b, max, front, run, at);
    HeldSize(b, at, run[|front|]);
  }

  lemma Adrift(s: State, a: nat, limit: nat, m: nat) returns (t: State)
    requires Facing(s, a, limit, m) && s.rg % 4 == 0 && !Steady(s, m, limit)
    ensures t == s.(mem := t.mem) && Inv(t) && !FetchLands(t, a, limit)
  {
    if Shown(s.recs[m]) {
      FlagAtFront(s, a, limit, m);
      t := StaleHeader(s, a, limit, m, Off(s.rg, s.recs[m]), TWO_32 - 1);
    } else {
      t := Misled(s, a, limit, m);
    }
    SameEnd(s, t, a, limit);
    NeverLands(t, a, limit, m);
  }

  /**
   * The exact condition for a fetch that ends at a boundary, with only shown entries below it and their indices in what
   * it decoded: whatever earlier laps left in memory, it does so if and only if, at the first entry past the settled
   * ones, it stops or reads on in step. Payloads may be torn even then.
   */
  lemma LandsExactly(s: State, a: nat, limit: nat)
    requires InRange(s, a, limit) && s.rg % 4 == 0
    ensures LandsForEveryContent(s, a, limit) <==> Steady(s, FetchEnd(s, a, limit), limit)
  {
    var m := FetchEnd(s, a, limit);
    if Steady(s, m, limit) {
      forall mem | Inv(s.(mem := mem))
        ensures FetchLands(s.(mem := mem), a, limit)
      {
        SameEnd(s, s.(mem := mem), a, limit);
        SteadyLands(s.(mem := mem), a, limit);
      }
    } else {
      var t := Adrift(s, a, limit, m);
      assert Inv(s.(mem := t.mem)) && !FetchLands(s.(mem := t.mem), a, limit);
    }
  }

  // ---------------------------------------------------------------- a run into a torn fetch

  /** The fetch decodes exactly one entry, which is not the one that was appended with its index. */
  predicate Torn(s: State, x: nat, got: Entry) {
    && InRange(s, x, s.sequencer) && x < |s.recs| && Decodes(s, s.recs[x].start, s.sequencer, [got])
    && got.logIdx == x && got.clientId == s.recs[x].entry.clientId && got.clientSeq == s.recs[x].entry.clientSeq
    && got.data != s.recs[x].entry.data
  }

  lemma OneEntryRun(b: seq<byte>, e: Entry)
    requires Holds(b, 0, e) && e.flags != 0 && e.size <= TWO_32 - 4 && |b| == Span(e)
    ensures LongestRun(b, |b|, [e])
  {
    assert Start([e], 1) == Start([e], 0) + Span(e);
    HoldsNext(b, 0, [e], 0);
  }

  lemma CrossingIsTorn(s: State, x: nat) returns (got: Entry)
    requires Inv(s) && RingLimits.Crossing(s, x) && s.recs[x].entry.data[0] == RingLimits.Other(s.mem[0])
    ensures Torn(s, x, got)
  {
    var rec, begin := s.recs[x], s.recs[x].start;
    assert RecSane(s, x) && RecOk(s.rg, s.mem, rec);
    var off, b := Off(s.rg, rec), TwoPieces(s.rg, s.mem, begin, s.sequencer);
    StretchIsVisible(s.rg, s.mem, begin, s.sequencer, rec, 0, META_DATA_SIZE);
    HeaderWithPayload(s.mem, off, b, 0, rec.entry);
    got := rec.entry.(data := b[META_DATA_SIZE..META_DATA_SIZE + rec.entry.size]);
    OneEntryRun(b, got);
    OverflowIsReadFromTheFront(s.rg, s.mem, rec, s.rg);
    assert got.data[0] == b[META_DATA_SIZE] == s.mem[0];
  }

  /** For every ring size: a careful run after which a fetch delivers an entry with another entry's payload. */
  lemma TornFetch(rg: nat) returns (s: State, x: nat, got: Entry)
    requires rg % 4 == 0 && SLACK + 128 <= rg && 4 * rg < TWO_64
    ensures Init(RingLimits.Fresh0(rg)) && RingLimits.Reaches(true, RingLimits.Fresh0(rg), s) && Torn(s, x, got)
  {
    RingLimits.Fresh0Starts(rg);
    s, x := RingLimits.CrossingRun(rg);
    RingLimits.CarefulIsSafe(RingLimits.Fresh0(rg), s);
    got := CrossingIsTorn(s, x);
  }
}

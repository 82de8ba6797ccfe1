/**
 * The speculative read before the ring has wrapped once, when its byte margin is not checked: how little payload the
 * ring then holds, and for every ring size a run in which it delivers an entry that was never appended.
 */
module SpecLimits {
  import opened Arith
  import opened Codec
  import opened Batches
  import opened Ring
  import opened RingReads
  import RingProofs
  import L = RingLimits

  // ---------------------------------------------------------------- how much payload there can be

  /** The padded payloads of the first `k` entries, in bytes. */
  function PayloadUpTo(s: State, k: nat): nat
    requires k <= |s.recs|
  {
    if k == 0 then 0 else PayloadUpTo(s, k - 1) + Codec.Padded(|s.recs[k - 1].entry.data|)
  }

  lemma {:induction false} HeadersAndPayloads(s: State, k: nat)
    requires Sound(s) && k <= |s.recs|
    ensures StartAt(s, k) == META_DATA_SIZE * k + PayloadUpTo(s, k)
  {
    if k > 0 {
      HeadersAndPayloads(s, k - 1);
      assert RecSane(s, k - 1);
    }
  }

  /** If the counters admit a read although the ring has not wrapped, all payloads together are about 64 headers. */
  lemma EarlyReadBound(s1: State, s3: State, idx: nat, sq: nat)
    requires Sound(s1) && Sound(s3) && RingProofs.Later(s1, s3) && SpecWindow(s1, s3, idx, sq) && s3.sequencer <= s3.rg
    ensures PayloadUpTo(s3, |s3.recs|) <= 64 * META_DATA_SIZE + s3.rg % META_DATA_SIZE
  {
    HeadersAndPayloads(s3, |s3.recs|);
  }

  // ---------------------------------------------------------------- a run into a wrong result

  /** Everything is ordered, and the sequencer is at `sq` after `k` entries; both appenders are idle. */
  predicate Rests(s: State, rg: nat, sq: nat, k: nat) {
    && L.AllOrdered(s, 1) && L.Roomy(s) && s.rg == rg && s.sequencer == sq && |s.recs| == s.indexer == k
    && s.threads == [Idle, Idle] && s.maxSpan == 96
  }

  /** Entry 64 carries 32 bytes of payload, none of them zero, and starts at 2048. */
  predicate Marked(s: State) {
    && |s.recs| > 64 && s.recs[64].stage.Done? && s.recs[64].start == 2048
    && var e := s.recs[64].entry; e.logIdx == 64 && e.size == |e.data| == 32 && e.flags == 1 && e.data[28] != 0
  }

  lemma PadRests(s: State, rg: nat, sq: nat, k: nat, d: nat) returns (t: State)
    requires Rests(s, rg, sq, k) && d % 4 == 0 && META_DATA_SIZE <= d && k + d < TWO_64
    ensures L.Reaches(true, s, t) && Rests(t, rg, sq + d, k + d / META_DATA_SIZE) && s.recs <= t.recs
  {
    t := L.Pad(s, 1, d);
  }

  lemma Mark(s: State, rg: nat) returns (t: State)
    requires Rests(s, rg, 2048, 64)
    ensures L.Reaches(true, s, t) && Rests(t, rg, 2112, 65) && Marked(t)
  {
    L.UnlikeFits(0);
    t := L.AppendAndOrder(s, 1, L.Unlike(0));
  }

  lemma FreshRests(rg: nat)
    requires rg % 4 == 0 && SLACK + 128 <= rg
    ensures Init(L.Fresh0(rg)) && Rests(L.Fresh0(rg), rg, 0, 0)
  {
    L.Fresh0Starts(rg);
  }

  lemma FillRest(s: State, rg: nat) returns (t: State)
    requires Rests(s, rg, 2112, 65) && Marked(s) && rg % 4 == 0 && SLACK + 128 <= rg && 4 * rg < TWO_64
    ensures L.Reaches(true, s, t) && Rests(t, rg, rg, rg / META_DATA_SIZE - 1) && Marked(t)
  {
    var d := rg - 2112;
    assert d % 4 == 0 && 65 + d / META_DATA_SIZE == rg / META_DATA_SIZE - 1;
    t := PadRests(s, rg, 2112, 65, d);
    assert t.recs[64] == s.recs[64];
  }

  /** One lap, with one entry that has a payload. */
  lemma FillLap(rg: nat) returns (s: State)
    requires rg % 4 == 0 && SLACK + 128 <= rg && 4 * rg < TWO_64
    ensures Init(L.Fresh0(rg)) && L.Reaches(true, L.Fresh0(rg), s)
    ensures Rests(s, rg, rg, rg / META_DATA_SIZE - 1) && Marked(s)
  {
    FreshRests(rg);
    var s1 := PadRests(L.Fresh0(rg), rg, 0, 0, 2048);
    var s2 := Mark(s1, rg);
    L.Join(true, L.Fresh0(rg), s1, s2);
    s := FillRest(s2, rg);
    L.Join(true, L.Fresh0(rg), s2, s);
  }

  /** The next lap comes up to one header before entry 64. */
  lemma Approach(s0: State, s: State, rg: nat, k: nat) returns (t: State)
    requires Init(s0) && L.Reaches(true, s0, s) && Rests(s, rg, rg, k) && Marked(s) && k + 2016 < TWO_64
    ensures L.Reaches(true, s, t) && Rests(t, rg, rg + 2016, k + 63) && Marked(t) && t.recs[64] == s.recs[64]
    ensures Holds(t.mem, 2048, t.recs[64].entry)
  {
    t := PadRests(s, rg, rg, k, 2016);
    L.Join(true, s0, s, t);
    L.CarefulIsSafe(s0, t);
    assert t.recs[64] == s.recs[64];
    StillThere(t, rg);
  }

  lemma StillThere(t: State, rg: nat)
    requires Inv(t) && t.rg == rg && t.sequencer == rg + 2016 && |t.recs| > 64
    requires t.recs[64].start == 2048 && t.recs[64].stage.Done?
    ensures Holds(t.mem, 2048, t.recs[64].entry)
  {
    DivModUnique(2048, rg, 0, 2048);
    assert RecOk(t.rg, t.mem, t.recs[64]);
  }

  /** Two reservations clear two bytes each; the second pair lies in the payload of entry 64, under its header. */
  lemma CutInto(mem: seq<byte>, m1: seq<byte>, m2: seq<byte>, e: Entry) returns (got: Entry)
    requires 4096 <= |mem| && m1 == SetFlag(mem, 2016, 0) && m2 == SetFlag(m1, 2080, 0)
    requires Holds(mem, 2048, e) && e.size == 32 && e.data[28] != 0
    ensures Holds(m2, 2048, got) && got.flags == e.flags && got.logIdx == e.logIdx && got.data != e.data
  {
    HeldSize(mem, 2048, e);
    HeaderWithPayload(mem, 2048, m2, 2048, e);
    got := e.(data := m2[2080..2112]);
    assert m2[2108..2110] == LittleEndian(0, 2);
    assert got.data[28] == m2[2108] == m2[2108..2110][0];
  }

  /** One appender reserves 64 bytes one header before entry 64. */
  lemma ReserveBefore(s: State, rg: nat, k: nat, e: Entry) returns (t: State)
    requires Rests(s, rg, rg + 2016, k) && k < TWO_64 && L.Fits(e) && Span(e) == 64
    ensures L.Reaches(true, s, t) && t == L.Partway(s, 0, e, Reserved, SetFlag(s.mem, 2016, 0))
  {
    DivModUnique(rg + 2016, rg, 1, 2016);
    t := L.ReserveAt(s, 0, e, 2016);
  }

  /** Then another reserves at its payload. */
  lemma ReserveInside(s: State, rg: nat, k: nat, e: Entry, f: Entry, m: seq<byte>) returns (t: State)
    requires Rests(s, rg, rg + 2016, k) && k + 1 < TWO_64 && L.Fits(e) && Span(e) == 64 && |m| == |s.mem|
    requires L.Fits(f) && Span(f) == 32
    ensures L.Reaches(true, L.Partway(s, 0, e, Reserved, m), t) && t.rg == rg && t.sequencer == rg + 2112
    ensures s.recs <= t.recs && 4096 <= |s.mem| && t.mem == SetFlag(m, 2080, 0)
  {
    DivModUnique(rg + 2080, rg, 1, 2080);
    L.PartwayIsShaped(s, 0, e, Reserved, m);
    t := L.ReserveAt(L.Partway(s, 0, e, Reserved, m), 1, f, 2080);
  }

  /** Two appenders have reserved over entry 64 and stall. */
  lemma ReserveOver(s: State, rg: nat, k: nat, e: Entry, f: Entry) returns (t: State)
    requires Rests(s, rg, rg + 2016, k) && k + 1 < TWO_64 && L.Fits(e) && L.Fits(f) && Span(e) == 64 && Span(f) == 32
    ensures L.Reaches(true, s, t) && t.rg == rg && t.sequencer == rg + 2112 && s.recs <= t.recs
    ensures 4096 <= |s.mem| && t.mem == SetFlag(SetFlag(s.mem, 2016, 0), 2080, 0)
  {
    var t1 := ReserveBefore(s, rg, k, e);
    t := ReserveInside(s, rg, k, e, f, SetFlag(s.mem, 2016, 0));
    L.Join(true, s, t1, t);
  }

  /** The counters admit the read. */
  lemma Admits(s: State, rg: nat)
    requires META_DATA_SIZE <= rg && Rests(s, rg, rg, rg / META_DATA_SIZE - 1) && Marked(s)
    ensures |s.idxToSeq| > 0 && LookedUp(s, 64) == 2048 && SpecWindow(s, s, 64, 2048)
  {
    assert |s.recs| <= 64 + |s.idxToSeq|;
  }

  /**
   * For every ring size: a run to a state that admits the speculative read of entry 64, and on to one, less than the
   * slack later, in which the read then delivers an entry with another payload than the one appended.
   */
  lemma StaleSpecRead(rg: nat) returns (s: State, t: State, got: Entry)
    requires rg % 4 == 0 && SLACK + 128 <= rg && 4 * rg < TWO_64
    ensures Init(L.Fresh0(rg)) && L.Reaches(true, L.Fresh0(rg), s) && L.Reaches(true, s, t)
    ensures Sound(s) && Inv(t) && RingProofs.Later(s, t)
    ensures s.sequencer <= s.rg && t.sequencer <= s.sequencer + SLACK && |s.idxToSeq| > 0 && 64 < |t.recs|
    ensures SpecDelivers(s, s, t, 64, LookedUp(s, 64), got) && got.data != t.recs[64].entry.data
  {
    s := FillLap(rg);
    Admits(s, rg);
    var k := rg / META_DATA_SIZE - 1;
    var u := Approach(L.Fresh0(rg), s, rg, k);
    L.ZerosFit(32, 0);
    L.ZerosFit(0, 0);
    t := ReserveOver(u, rg, k + 63, L.Zeros(32, 0), L.Zeros(0, 0));
    L.Join(true, s, u, t);
    L.Join(true, L.Fresh0(rg), s, t);
    L.CarefulIsSafe(L.Fresh0(rg), t);
    L.ReachesLater(true, s, t);
    got := CutInto(u.mem, SetFlag(u.mem, 2016, 0), t.mem, u.recs[64].entry);
    DivModUnique(2048, rg, 0, 2048);
  }
}

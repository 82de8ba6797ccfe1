/** Lists of entries in a buffer: the in-place serializers, the deserializing loops, and what they do to each other. */
module Batches {
  import opened Arith
  import opened Codec

  // ---------------------------------------------------------------- overwriting part of a buffer

  function Splice(b: seq<byte>, at: nat, x: seq<byte>): (r: seq<byte>)
    requires at + |x| <= |b|
    ensures |r| == |b| && r[at..at + |x|] == x
    ensures forall k :: 0 <= k < |b| && !(at <= k < at + |x|) ==> r[k] == b[k]
  {
    b[..at] + x + b[at + |x|..]
  }

  lemma SpliceTwice(b: seq<byte>, at: nat, x: seq<byte>, y: seq<byte>)
    requires at + |x| + |y| <= |b|
    ensures Splice(Splice(b, at, x), at + |x|, y) == Splice(b, at, x + y)
  {
  }

  /** `memcpy` into a buffer, and equally the store of one little-endian field. */
  method PutBytes(buf: array<byte>, at: nat, x: seq<byte>)
    requires at + |x| <= buf.Length
    modifies buf
    ensures buf[..] == Splice(old(buf[..]), at, x)
  {
    for k := 0 to |x|
      invariant buf[..] == Splice(old(buf[..]), at, x[..k])
    {
      buf[at + k] := x[k];
    }
    assert x[..|x|] == x;
  }

  /** `Serializer`: field after field, then the payload; the padding is skipped and keeps its old bytes. */
  method Serializer(e: Entry, buf: array<byte>, at: nat) returns (written: nat)
    requires at + META_DATA_SIZE + |e.data| <= buf.Length
    modifies buf
    ensures buf[..] == Splice(old(buf[..]), at, Image(e))
    ensures written == Span(e)
  {
    ghost var b := buf[..];
    var offset := 0;
    for k := 0 to 6
      invariant offset == Pos(k)
      invariant buf[..] == Splice(b, at, HeaderPrefix(e, k))
    {
      var field := LittleEndian(Value(e, k), Width(k));
      PutBytes(buf, at + offset, field);
      SpliceTwice(b, at, HeaderPrefix(e, k), field);
      offset := offset + Width(k);
    }
    PutBytes(buf, at + offset, e.data);
    SpliceTwice(b, at, HeaderPrefix(e, 6), e.data);
    written := offset + Padded(|e.data|);
  }

  // ---------------------------------------------------------------- consecutive entries

  /** Where entry `k` of a list laid end to end starts; for `k == |es|`, where the list ends. */
  function Start(es: seq<Entry>, k: nat): nat
    requires k <= |es|
  {
    if k == 0 then 0 else Start(es, k - 1) + Span(es[k - 1])
  }

  function TotalSpan(es: seq<Entry>): nat {
    Start(es, |es|)
  }

  /** Entry boundaries are strictly increasing, so an offset is the start of at most one entry. */
  lemma {:induction false} BoundariesIncrease(es: seq<Entry>, i: nat, j: nat)
    requires i < j <= |es|
    ensures Start(es, i) + Span(es[i]) <= Start(es, j)
  {
    if i < j - 1 {
      BoundariesIncrease(es, i, j - 1);
    }
  }

  lemma {:induction false} StartOfPrefix(es: seq<Entry>, fs: seq<Entry>, k: nat)
    requires k <= |es| && k <= |fs| && forall i :: 0 <= i < k ==> es[i] == fs[i]
    ensures Start(es, k) == Start(fs, k)
  {
    if k > 0 {
      StartOfPrefix(es, fs, k - 1);
    }
  }

  /** The first `n` entries of `es` lie end to end from `at`. */
  predicate HoldsFirst(b: seq<byte>, at: nat, es: seq<Entry>, n: nat)
    requires n <= |es|
  {
    && at + Start(es, n) <= |b|
    && (n > 0 ==> HoldsFirst(b, at, es, n - 1) && Holds(b, at + Start(es, n - 1), es[n - 1]))
  }

  predicate HoldsAll(b: seq<byte>, at: nat, es: seq<Entry>) {
    HoldsFirst(b, at, es, |es|)
  }

  lemma {:induction false} HoldsAt(b: seq<byte>, at: nat, es: seq<Entry>, n: nat, k: nat)
    requires k < n <= |es| && HoldsFirst(b, at, es, n)
    ensures Holds(b, at + Start(es, k), es[k])
  {
    if k < n - 1 {
      HoldsAt(b, at, es, n - 1, k);
    }
  }

  lemma EntryFrame(b: seq<byte>, c: seq<byte>, at: nat, s: nat, z: nat, d: int, e: Entry)
    requires Agree(b, c, at, z, d) && at <= s && z == s + Span(e) && Holds(b, s, e)
    ensures Holds(c, s + d, e)
  {
    assert e.size == |e.data|;
    HoldsFrame(b, c, s, z, d, e);
  }

  /** Copying the bytes of a list, to the same place or elsewhere, copies the list. */
  lemma {:induction false} HoldsFirstFrame(b: seq<byte>, c: seq<byte>, at: nat, d: int, es: seq<Entry>, n: nat)
    requires n <= |es| && HoldsFirst(b, at, es, n)
    requires Agree(b, c, at, at + Start(es, n), d)
    ensures HoldsFirst(c, at + d, es, n)
  {
    if n > 0 {
      var s, z := at + Start(es, n - 1), at + Start(es, n);
      HoldsFirstFrame(b, c, at, d, es, n - 1);
      EntryFrame(b, c, at, s, z, d, es[n - 1]);
    }
  }

  lemma {:induction false} HoldsFirstOfPrefix(b: seq<byte>, at: nat, es: seq<Entry>, fs: seq<Entry>, n: nat)
    requires n <= |es| && n <= |fs| && forall i :: 0 <= i < n ==> es[i] == fs[i]
    requires HoldsFirst(b, at, es, n)
    ensures HoldsFirst(b, at, fs, n)
  {
    StartOfPrefix(es, fs, n);
    if n > 0 {
      StartOfPrefix(es, fs, n - 1);
      HoldsFirstOfPrefix(b, at, es, fs, n - 1);
    }
  }

  predicate AllRepresentable(es: seq<Entry>) {
    forall k :: 0 <= k < |es| ==> Representable(es[k])
  }

  predicate AllLive(es: seq<Entry>) {
    forall k :: 0 <= k < |es| ==> es[k].flags != 0
  }

  // ---------------------------------------------------------------- serializing lists

  /** Writing an image stores its entry and leaves everything before and after it alone. */
  lemma SplicedHolds(b: seq<byte>, c: seq<byte>, at: nat, e: Entry)
    requires Representable(e) && at + |Image(e)| <= |b| && c == Splice(b, at, Image(e))
    ensures Holds(c, at, e) && Agree(b, c, 0, at, 0)
  {
    ImageIsHeld(c, at, e);
  }

  lemma HoldsNext(b: seq<byte>, at: nat, es: seq<Entry>, n: nat)
    requires n < |es| && HoldsFirst(b, at, es, n) && Holds(b, at + Start(es, n), es[n]) && at + Start(es, n + 1) <= |b|
    ensures HoldsFirst(b, at, es, n + 1)
  {
  }

  lemma SplicedAfter(b: seq<byte>, c: seq<byte>, at: nat, es: seq<Entry>, n: nat, to: nat)
    requires n < |es| && Representable(es[n]) && HoldsFirst(b, at, es, n) && to == at + Start(es, n)
    requires to + |Image(es[n])| <= |b| && c == Splice(b, to, Image(es[n]))
    ensures HoldsFirst(c, at, es, n) && Holds(c, to, es[n])
  {
    SplicedHolds(b, c, to, es[n]);
    HoldsFirstFrame(b, c, at, 0, es, n);
  }

  lemma SplicedNext(b: seq<byte>, c: seq<byte>, at: nat, es: seq<Entry>, n: nat)
    requires n < |es| && Representable(es[n]) && HoldsFirst(b, at, es, n) && at + Start(es, n + 1) <= |b|
    requires c == Splice(b, at + Start(es, n), Image(es[n]))
    ensures HoldsFirst(c, at, es, n + 1)
  {
    SplicedAfter(b, c, at, es, n, at + Start(es, n));
    HoldsNext(c, at, es, n);
  }

  /** While there are entries left, there is room for the next one. */
  lemma FitsNext(es: seq<Entry>, i: nat, base: nat, length: nat)
    requires i < |es| && base + TotalSpan(es) <= length
    ensures base + Start(es, i) + Span(es[i]) <= length
  {
    BoundariesIncrease(es, i, |es|);
  }

  /** One pass of the serializing loops: entry `n` goes after the `n` entries already there. */
  method SerializeNext(e: Entry, buf: array<byte>, offset: nat, ghost base: nat, ghost es: seq<Entry>, ghost n: nat)
    returns (next: nat)
    requires n < |es| && e == es[n] && Representable(e)
    requires HoldsFirst(buf[..], base, es, n) && offset == base + Start(es, n)
    requires offset + Span(e) <= buf.Length
    modifies buf
    ensures next == base + Start(es, n + 1) <= base + TotalSpan(es) && HoldsFirst(buf[..], base, es, n + 1)
    ensures forall k :: 0 <= k < buf.Length && !(offset <= k < next) ==> buf[k] == old(buf[k])
  {
    BoundariesIncrease(es, n, |es|);
    ghost var before := buf[..];
    var written := Serializer(e, buf, offset);
    next := offset + written;
    SplicedNext(before, buf[..], base, es, n);
  }

  method MultiSerializer(es: seq<Entry>, buf: array<byte>) returns (written: nat)
    requires AllRepresentable(es) && 4 + TotalSpan(es) <= buf.Length
    modifies buf
    ensures written == 4 + TotalSpan(es)
    ensures buf[..4] == LittleEndian(|es| % TWO_32, 4) && HoldsAll(buf[..], 4, es)
    ensures forall k :: written <= k < buf.Length ==> buf[k] == old(buf[k])
  {
    PutBytes(buf, 0, LittleEndian(|es| % TWO_32, 4));
    ghost var counted := buf[..];
    written := SerializeAll(es, buf);
    assert buf[..4] == counted[0..4];
  }

  /** The loop of the serializer, after the count. */
  method SerializeAll(es: seq<Entry>, buf: array<byte>) returns (written: nat)
    requires AllRepresentable(es) && 4 + TotalSpan(es) <= buf.Length
    modifies buf
    ensures written == 4 + TotalSpan(es) && HoldsAll(buf[..], 4, es)
    ensures forall k :: 0 <= k < buf.Length && !(4 <= k < written) ==> buf[k] == old(buf[k])
  {
    written := 4;
    for i := 0 to |es|
      invariant written == 4 + Start(es, i) && HoldsFirst(buf[..], 4, es, i)
      invariant forall k :: 0 <= k < buf.Length && !(4 <= k < 4 + TotalSpan(es)) ==> buf[k] == old(buf[k])
    {
      FitsNext(es, i, 4, buf.Length);
      written := SerializeNext(es[i], buf, written, 4, es, i);
    }
  }

  /** Entries `from`, `from + stride`, ... up to `to`. */
  function Strided(es: seq<Entry>, from: nat, to: nat, stride: nat): (r: seq<Entry>)
    requires stride > 0 && to < |es|
    ensures r == [] <==> from > to
    decreases |es| - from
  {
    if from > to then [] else [es[from]] + Strided(es, from + stride, to, stride)
  }

  /** The index of the last entry that `Strided` picks. */
  function LastPicked(from: nat, to: nat, stride: nat): (r: nat)
    requires stride > 0 && from <= to
    ensures from <= r <= to < r + stride
    decreases 1 + to - from
  {
    if from + stride > to then from else LastPicked(from + stride, to, stride)
  }

  lemma {:induction false} StridedAt(es: seq<Entry>, from: nat, to: nat, stride: nat, k: nat)
    requires stride > 0 && to < |es|
    ensures k < |Strided(es, from, to, stride)| <==> from + Times(k, stride) <= to
    ensures from + Times(k, stride) <= to ==> Strided(es, from, to, stride)[k] == es[from + Times(k, stride)]
    decreases k
  {
    if k > 0 && from <= to {
      StridedAt(es, from + stride, to, stride, k - 1);
      TimesShift(k, stride);
    }
  }

  lemma {:induction false} TimesShift(k: nat, m: nat)
    requires k > 0
    ensures Times(k, m) == m + Times(k - 1, m)
  {
  }

  lemma {:induction false} StridedEnd(es: seq<Entry>, from: nat, to: nat, stride: nat)
    requires stride > 0 && from <= to < |es|
    ensures from + Times(|Strided(es, from, to, stride)|, stride) == LastPicked(from, to, stride) + stride
    decreases |es| - from
  {
    if from + stride <= to {
      StridedEnd(es, from + stride, to, stride);
      TimesShift(|Strided(es, from, to, stride)|, stride);
    } else {
      assert Times(1, stride) == stride;
    }
  }

  /** The loop of the strided serializer; `next` is the first index it does not look at. */
  method SerializeStrided(es: seq<Entry>, from: nat, to: nat, stride: nat, buf: array<byte>)
    returns (written: nat, next: nat, num: nat)
    requires stride > 0 && to < |es| && AllRepresentable(es)
    requires 4 + TotalSpan(Strided(es, from, to, stride)) <= buf.Length
    modifies buf
    ensures var picked := Strided(es, from, to, stride);
            num == |picked| && written == 4 + TotalSpan(picked) && HoldsAll(buf[..], 4, picked)
    ensures next == from + Times(num, stride)
    ensures forall k :: written <= k < buf.Length ==> buf[k] == old(buf[k])
  {
    ghost var all := Strided(es, from, to, stride);
    written, next, num := 4, from, 0;
    while next <= to
      invariant next == from + Times(num, stride) && num <= |all|
      invariant written == 4 + Start(all, num) && HoldsFirst(buf[..], 4, all, num)
      invariant forall k :: 4 + TotalSpan(all) <= k < buf.Length ==> buf[k] == old(buf[k])
      decreases 1 + to - next
    {
      StridedAt(es, from, to, stride, num);
      FitsNext(all, num, 4, buf.Length);
      written := SerializeNext(es[next], buf, written, 4, all, num);
      num, next := num + 1, next + stride;
    }
    StridedAt(es, from, to, stride, num);
  }

  /** The strided serializer; `last` is the index of the last entry written, or `from - stride` if there is none. */
  method MultiSerializerStrided(es: seq<Entry>, from: nat, to: nat, stride: nat, buf: array<byte>)
    returns (written: nat, last: int)
    requires stride > 0 && to < |es| && AllRepresentable(es)
    requires 4 + TotalSpan(Strided(es, from, to, stride)) <= buf.Length
    modifies buf
    ensures var picked := Strided(es, from, to, stride);
            && written == 4 + TotalSpan(picked)
            && buf[..4] == LittleEndian(|picked| % TWO_32, 4) && HoldsAll(buf[..], 4, picked)
    ensures last == if from <= to then LastPicked(from, to, stride) else from - stride
    ensures forall k :: written <= k < buf.Length ==> buf[k] == old(buf[k])
  {
    var next, num;
    written, next, num := SerializeStrided(es, from, to, stride, buf);
    ghost var before := buf[..];
    PutBytes(buf, 0, LittleEndian(num % TWO_32, 4));
    HoldsFirstFrame(before, buf[..], 4, 0, Strided(es, from, to, stride), num);
    if from <= to { StridedEnd(es, from, to, stride); }
    last := next - stride;
  }

  // ---------------------------------------------------------------- deserializing lists

  /** The leading entry count of a message. */
  function Count(b: seq<byte>): nat
    requires 4 <= |b|
  {
    FromLittleEndian(b[..4])
  }

  /** What a deserializing loop sees at `at`: the images of `es`, all of them published. */
  predicate LiveRun(b: seq<byte>, at: nat, es: seq<Entry>) {
    AllLive(es) && HoldsAll(b, at, es)
  }

  /** Nothing is published at `at`: the header is readable and its flag is zero. */
  predicate Unpublished(b: seq<byte>, at: nat) {
    at + META_DATA_SIZE <= |b| && GetFlagFromBuf(b, at) == 0
  }

  /** Entry `k` of a live run can be decoded, and decoding takes the reader to entry `k + 1`. */
  lemma InRun(b: seq<byte>, at: nat, es: seq<Entry>, k: nat)
    requires LiveRun(b, at, es) && k < |es|
    ensures Holds(b, at + Start(es, k), es[k]) && Readable(b, at + Start(es, k))
    ensures GetFlagFromBuf(b, at + Start(es, k)) != 0
    ensures Start(es, k + 1) == Start(es, k) + Span(es[k]) <= TotalSpan(es)
  {
    HoldsAt(b, at, es, |es|, k);
    HeldSize(b, at + Start(es, k), es[k]);
    BoundariesIncrease(es, k, |es|);
  }

  /** One pass of the deserializing loops: the next entry of the run, or zero bytes where it stops. */
  method DecodeNext(b: seq<byte>, offset: nat, ghost at: nat, ghost live: seq<Entry>, ghost i: nat)
    returns (e: Entry, consumed: nat)
    requires LiveRun(b, at, live) && i <= |live| && offset == at + Start(live, i)
    requires i == |live| ==> Unpublished(b, offset)
    ensures consumed == 0 <==> i == |live|
    ensures i < |live| ==> e == live[i] && at + Start(live, i + 1) == offset + consumed
  {
    if i < |live| { InRun(b, at, live, i); }
    e, consumed := Deserializer(b, offset);
    if i < |live| { HeldEntryIsUnique(b, offset, e, live[i]); }
  }

  /**
   * The count-prefixed deserializer appends exactly the published prefix: all `num` entries, or those before the
   * first one whose flag is zero.
   */
  method MultiDeserializer(es: seq<Entry>, b: seq<byte>, ghost live: seq<Entry>)
    returns (out: seq<Entry>, offset: nat)
    requires 4 <= |b| && LiveRun(b, 4, live) && |live| <= Count(b)
    requires |live| < Count(b) ==> Unpublished(b, 4 + TotalSpan(live))
    ensures out == es + live && offset == 4 + TotalSpan(live)
  {
    var num := Count(b);
    out, offset := es, 4;
    var i := 0;
    while i < num
      invariant i <= |live| && out == es + live[..i] && offset == 4 + Start(live, i)
    {
      var e, consumed := DecodeNext(b, offset, 4, live, i);
      if consumed == 0 { break; }
      out, offset, i := out + [e], offset + consumed, i + 1;
    }
  }

  lemma PrefixHeld(b: seq<byte>, at: nat, es: seq<Entry>, z: nat)
    requires HoldsAll(b, at, es) && z <= |es|
    ensures HoldsAll(b, at, es[..z]) && TotalSpan(es[..z]) == Start(es, z)
  {
    HoldsFirstShorter(b, at, es, |es|, z);
    HoldsFirstOfPrefix(b, at, es, es[..z], z);
    StartOfPrefix(es, es[..z], z);
  }

  /** The entries before the first one whose flag is zero are a live run, and nothing is published after them. */
  lemma FirstZeroEndsRun(b: seq<byte>, at: nat, es: seq<Entry>, z: nat)
    requires HoldsAll(b, at, es) && z <= |es| && (forall i :: 0 <= i < z ==> es[i].flags != 0)
    requires z < |es| ==> es[z].flags == 0
    ensures LiveRun(b, at, es[..z])
    ensures z < |es| ==> Unpublished(b, at + TotalSpan(es[..z]))
  {
    PrefixHeld(b, at, es, z);
    if z < |es| {
      HoldsAt(b, at, es, |es|, z);
      HeldSize(b, at + Start(es, z), es[z]);
    }
  }

  lemma {:induction false} HoldsFirstShorter(b: seq<byte>, at: nat, es: seq<Entry>, n: nat, z: nat)
    requires z <= n <= |es| && HoldsFirst(b, at, es, n)
    ensures HoldsFirst(b, at, es, z)
  {
    if z < n {
      HoldsFirstShorter(b, at, es, n - 1, z);
    }
  }

  /** Decoding a serialized list stops exactly at its first entry with flag zero. */
  method DecodePublished(b: seq<byte>, ghost es: seq<Entry>, ghost z: nat) returns (out: seq<Entry>)
    requires 4 <= |b| && Count(b) == |es| && HoldsAll(b, 4, es) && z <= |es|
    requires (forall i :: 0 <= i < z ==> es[i].flags != 0) && (z < |es| ==> es[z].flags == 0)
    ensures out == es[..z]
  {
    FirstZeroEndsRun(b, 4, es, z);
    var offset;
    out, offset := MultiDeserializer([], b, es[..z]);
  }

  /** The exact-size deserializer, used when there is no leading count. */
  method MultiDeserializerSize(es: seq<Entry>, b: seq<byte>, size: nat, ghost live: seq<Entry>)
    returns (out: seq<Entry>, offset: nat)
    requires LiveRun(b, 0, live) && TotalSpan(live) <= size
    requires TotalSpan(live) < size ==> Unpublished(b, TotalSpan(live))
    ensures out == es + live && offset == TotalSpan(live)
  {
    out, offset := es, 0;
    var i := 0;
    while offset < size
      invariant i <= |live| && out == es + live[..i] && offset == Start(live, i)
      decreases |live| - i
    {
      var e, consumed := DecodeNext(b, offset, 0, live, i);
      if consumed == 0 { break; }
      out, offset, i := out + [e], offset + consumed, i + 1;
    }
    if i < |live| { InRun(b, 0, live, i); }
  }

  /** No whole published entry starts at `at` within the first `max` bytes. */
  predicate Stops(b: seq<byte>, at: nat, max: nat)
    requires max <= |b|
  {
    || max < at + META_DATA_SIZE
    || max < at + GetSizeFromBuf(b, at)
    || GetFlagFromBuf(b, at) == 0
  }

  /** Whole published entries from the front on, within `max`; there may be more of them. */
  predicate WholeRun(b: seq<byte>, max: nat, run: seq<Entry>) {
    && max <= |b|
    && LiveRun(b, 0, run) && TotalSpan(run) <= max
    && (forall k :: 0 <= k < |run| ==> run[k].size <= TWO_32 - 4)
  }

  /** `run` is the longest run of whole published entries in the first `max` bytes. */
  predicate LongestRun(b: seq<byte>, max: nat, run: seq<Entry>) {
    WholeRun(b, max, run) && Stops(b, TotalSpan(run), max)
  }

  lemma HeldDoesNotStop(b: seq<byte>, at: nat, e: Entry, max: nat)
    requires Holds(b, at, e) && e.flags != 0 && e.size <= TWO_32 - 4 && at + Span(e) <= max <= |b|
    ensures !Stops(b, at, max)
  {
    HeldSize(b, at, e);
    HeldIsRepresentable(b, at, e);
    GetSizeAgreesExactly(e);
  }

  lemma NotStopped(b: seq<byte>, max: nat, run: seq<Entry>, k: nat)
    requires WholeRun(b, max, run) && k < |run|
    ensures Holds(b, Start(run, k), run[k]) && Readable(b, Start(run, k))
    ensures Start(run, k + 1) == Start(run, k) + Span(run[k]) <= TotalSpan(run)
    ensures !Stops(b, Start(run, k), max)
  {
    InRun(b, 0, run, k);
    HeldDoesNotStop(b, Start(run, k), run[k], max);
  }

  /** The fetch deserializer: whole published entries only, as many as fit. */
  method MultiDeserializerMaxSize(es: seq<Entry>, b: seq<byte>, max: nat, ghost run: seq<Entry>)
    returns (out: seq<Entry>, offset: nat)
    requires LongestRun(b, max, run)
    ensures out == es + run && offset == TotalSpan(run)
  {
    out, offset := es, 0;
    var i := 0;
    while offset < max
      invariant i <= |run| && out == es + run[..i] && offset == Start(run, i)
      decreases |run| - i
    {
      if i < |run| { NotStopped(b, max, run, i); }
      if max - offset < META_DATA_SIZE { break; }
      if max - offset < GetSizeFromBuf(b, offset) { break; }
      var e, consumed := Deserializer(b, offset);
      if consumed == 0 { break; }
      HeldEntryIsUnique(b, offset, e, run[i]);
      out, offset, i := out + [e], offset + consumed, i + 1;
    }
    if i < |run| { NotStopped(b, max, run, i); }
  }

  /** A buffer has at most one longest run, so the loop above returns the only list it could. */
  lemma {:induction false} LongestRunIsUnique(b: seq<byte>, max: nat, r: seq<Entry>, s: seq<Entry>, n: nat)
    requires LongestRun(b, max, r) && LongestRun(b, max, s)
    requires n <= |r| && n <= |s| && forall i :: 0 <= i < n ==> r[i] == s[i]
    ensures r == s
    decreases |r| - n
  {
    StartOfPrefix(r, s, n);
    if n < |r| { NotStopped(b, max, r, n); }
    if n < |s| { NotStopped(b, max, s, n); }
    if n < |r| && n < |s| {
      HeldEntryIsUnique(b, Start(r, n), r[n], s[n]);
      LongestRunIsUnique(b, max, r, s, n + 1);
    }
  }

  /** A reader that has decoded `n` entries and does not stop there decodes another. */
  lemma DecodesAnother(b: seq<byte>, max: nat, run: seq<Entry>, n: nat, at: nat)
    requires LongestRun(b, max, run) && n <= |run| && at == Start(run, n) && !Stops(b, at, max)
    ensures n < |run| && Holds(b, at, run[n])
  {
    InRun(b, 0, run, n);
  }

  /** Whatever is decoded begins with the whole published entries at the front. */
  lemma {:induction false} RunBegins(b: seq<byte>, max: nat, front: seq<Entry>, run: seq<Entry>, n: nat)
    requires WholeRun(b, max, front) && LongestRun(b, max, run) && n <= |front|
    ensures n <= |run| && forall i :: 0 <= i < n ==> run[i] == front[i]
  {
    if n > 0 {
      RunBegins(b, max, front, run, n - 1);
      StartOfPrefix(front, run, n - 1);
      var at := Start(run, n - 1);
      NotStopped(b, max, front, n - 1);
      DecodesAnother(b, max, run, n - 1, at);
      HeldEntryIsUnique(b, at, front[n - 1], run[n - 1]);
    }
  }

  /** If the reader does not stop after `front`, it decodes one more entry there. */
  lemma GoesOn(b: seq<byte>, max: nat, front: seq<Entry>, run: seq<Entry>, at: nat)
    requires WholeRun(b, max, front) && LongestRun(b, max, run) && at == TotalSpan(front) && !Stops(b, at, max)
    ensures |front| < |run| && Holds(b, at, run[|front|]) && run[|front|].size <= TWO_32 - 4
  {
    RunBegins(b, max, front, run, |front|);
    StartOfPrefix(front, run, |front|);
    DecodesAnother(b, max, run, |front|, at);
  }

  /** Where a copy of a buffer's end stops the reader, the buffer does. */
  lemma StopsCopied(c: seq<byte>, b: seq<byte>, d: nat, at: nat)
    requires |b| == d + |c| && Agree(c, b, 0, |c|, d) && Stops(c, at, |c|)
    ensures Stops(b, d + at, |b|)
  {
    if at + META_DATA_SIZE <= |c| {
      AgreeSlice(c, b, 0, |c|, d, at + Pos(3), at + Pos(3) + 4);
      AgreeSlice(c, b, 0, |c|, d, at + Pos(4), at + Pos(4) + 2);
      assert Get(b, d + at, 3) == Get(c, at, 3) && Get(b, d + at, 4) == Get(c, at, 4);
    }
  }

  /** Entries at the front and the longest run of the rest make the longest run. */
  lemma RunsJoin(b: seq<byte>, front: seq<Entry>, c: seq<byte>, rest: seq<Entry>)
    requires WholeRun(b, |b|, front) && LongestRun(c, |c|, rest)
    requires |b| == TotalSpan(front) + |c| && Agree(c, b, 0, |c|, TotalSpan(front))
    ensures LongestRun(b, |b|, front + rest) && TotalSpan(front + rest) == TotalSpan(front) + TotalSpan(rest)
  {
    HoldsAllFrame(c, b, 0, TotalSpan(front), rest);
    HoldsAllConcat(b, front, rest);
    StopsCopied(c, b, TotalSpan(front), TotalSpan(rest));
  }

  // ---------------------------------------------------------------- messages and files

  /** A request message: the count, then the images of `es`, and nothing more. */
  predicate Message(b: seq<byte>, es: seq<Entry>) {
    4 <= |b| == 4 + TotalSpan(es) && Count(b) == |es| && LiveRun(b, 4, es)
  }

  lemma CountOf(b: seq<byte>, n: nat)
    requires 4 <= |b| && n < TWO_32 && b[..4] == LittleEndian(n % TWO_32, 4)
    ensures Count(b) == n
  {
    IntegerRoundTrip(n, 4);
  }

  /** An append-only data file holding `es`. */
  predicate File(f: seq<byte>, es: seq<Entry>) {
    |f| == TotalSpan(es) && LiveRun(f, 0, es)
  }

  lemma {:induction false} StartOfConcat(a: seq<Entry>, b: seq<Entry>, n: nat)
    requires n <= |b|
    ensures Start(a + b, |a| + n) == TotalSpan(a) + Start(b, n)
  {
    if n == 0 {
      StartOfPrefix(a, a + b, |a|);
    } else {
      StartOfConcat(a, b, n - 1);
    }
  }

  /** Entry `i` of `es` is where it belongs. */
  predicate InPlace(x: seq<byte>, es: seq<Entry>, i: nat)
    requires i < |es|
  {
    Start(es, i + 1) <= |x| && Holds(x, Start(es, i), es[i])
  }

  lemma {:induction false} EachInPlace(x: seq<byte>, es: seq<Entry>, n: nat)
    requires n <= |es| && forall i :: 0 <= i < n ==> InPlace(x, es, i)
    ensures HoldsFirst(x, 0, es, n)
  {
    if n > 0 {
      EachInPlace(x, es, n - 1);
      assert InPlace(x, es, n - 1);
    }
  }

  lemma IsInPlace(x: seq<byte>, es: seq<Entry>, i: nat, e: Entry, to: nat)
    requires i < |es| && es[i] == e && Start(es, i) == to && to + Span(e) <= |x| && Holds(x, to, e)
    ensures InPlace(x, es, i)
  {
  }

  /** Entry `i` of a list that is held from `at` on. */
  lemma HeldAt(x: seq<byte>, at: nat, es: seq<Entry>, i: nat, to: nat)
    requires HoldsAll(x, at, es) && i < |es| && to == at + Start(es, i)
    ensures Holds(x, to, es[i]) && to + Span(es[i]) <= |x|
  {
    HoldsAt(x, at, es, |es|, i);
    BoundariesIncrease(es, i, |es|);
  }

  lemma FirstInPlace(x: seq<byte>, a: seq<Entry>, ab: seq<Entry>, i: nat)
    requires HoldsAll(x, 0, a) && a <= ab && i < |a|
    ensures InPlace(x, ab, i)
  {
    StartOfPrefix(a, ab, i);
    HeldAt(x, 0, a, i, Start(a, i));
    IsInPlace(x, ab, i, a[i], Start(a, i));
  }

  lemma ThenInPlace(x: seq<byte>, a: seq<Entry>, b: seq<Entry>, at: nat, i: nat)
    requires at == TotalSpan(a) && HoldsAll(x, at, b) && i < |b|
    ensures InPlace(x, a + b, |a| + i)
  {
    StartOfConcat(a, b, i);
    HeldAt(x, at, b, i, at + Start(b, i));
    IsInPlace(x, a + b, |a| + i, b[i], at + Start(b, i));
  }

  lemma HoldsAllFrame(b: seq<byte>, c: seq<byte>, at: nat, d: int, es: seq<Entry>)
    requires HoldsAll(b, at, es) && Agree(b, c, at, at + TotalSpan(es), d)
    ensures HoldsAll(c, at + d, es)
  {
    HoldsFirstFrame(b, c, at, d, es, |es|);
  }

  lemma HoldsAllConcat(x: seq<byte>, a: seq<Entry>, b: seq<Entry>)
    requires TotalSpan(a) <= |x| && HoldsAll(x, 0, a) && HoldsAll(x, TotalSpan(a), b)
    ensures HoldsAll(x, 0, a + b) && TotalSpan(a + b) == TotalSpan(a) + TotalSpan(b)
  {
    forall i | 0 <= i < |a + b|
      ensures InPlace(x, a + b, i)
    {
      if i < |a| {
        FirstInPlace(x, a, a + b, i);
      } else {
        ThenInPlace(x, a, b, TotalSpan(a), i - |a|);
      }
    }
    EachInPlace(x, a + b, |a + b|);
    StartOfConcat(a, b, |b|);
  }

  lemma FileAppendTo(f: seq<byte>, a: seq<Entry>, msg: seq<byte>, b: seq<Entry>, x: seq<byte>)
    requires File(f, a) && Message(msg, b) && |x| == |f| + |msg| - 4
    requires Agree(f, x, 0, |f|, 0) && Agree(msg, x, 4, |msg|, |f| - 4)
    ensures File(x, a + b)
  {
    HoldsAllFrame(f, x, 0, 0, a);
    HoldsAllFrame(msg, x, 4, |f| - 4, b);
    HoldsAllConcat(x, a, b);
  }

  /** Appending the body of a message to a file appends its entries. */
  lemma FileAppend(f: seq<byte>, a: seq<Entry>, msg: seq<byte>, b: seq<Entry>)
    requires File(f, a) && Message(msg, b)
    ensures File(f + msg[4..], a + b)
  {
    FileAppendTo(f, a, msg, b, f + msg[4..]);
  }

  /** Serializing with a stride and deserializing gives back exactly the selected entries. */
  method WireRoundTrip(es: seq<Entry>, from: nat, to: nat, stride: nat) returns (out: seq<Entry>)
    requires stride > 0 && to < |es| < TWO_32 && AllRepresentable(es) && AllLive(es)
    ensures out == Strided(es, from, to, stride)
  {
    ghost var picked := Strided(es, from, to, stride);
    StridedSubset(es, from, to, stride);
    var size := StridedSpan(es, from, to, stride);
    var buf := new byte[4 + size];
    var written, last := MultiSerializerStrided(es, from, to, stride, buf);
    CountOf(buf[..], |picked|);
    var offset;
    out, offset := MultiDeserializer([], buf[..], picked);
  }

  function StridedSpan(es: seq<Entry>, from: nat, to: nat, stride: nat): (r: nat)
    requires stride > 0 && to < |es|
    ensures r == TotalSpan(Strided(es, from, to, stride))
    decreases |es| - from
  {
    if from > to then 0
    else
      assert Strided(es, from, to, stride) == [es[from]] + Strided(es, from + stride, to, stride);
      StartOfConcat([es[from]], Strided(es, from + stride, to, stride), |Strided(es, from + stride, to, stride)|);
      assert Start([es[from]], 1) == Start([es[from]], 0) + Span(es[from]);
      Span(es[from]) + StridedSpan(es, from + stride, to, stride)
  }

  lemma {:induction false} StridedSubset(es: seq<Entry>, from: nat, to: nat, stride: nat)
    requires stride > 0 && to < |es| && AllLive(es)
    ensures AllLive(Strided(es, from, to, stride))
    ensures |Strided(es, from, to, stride)| <= if from <= to then 1 + to - from else 0
    decreases |es| - from
  {
    if from <= to {
      StridedSubset(es, from + stride, to, stride);
    }
  }
}

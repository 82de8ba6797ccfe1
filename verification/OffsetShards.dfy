/** The shard server without a cache: it keeps file offsets by log index and reads entries back from the data files. */
module OffsetShards {
  import opened Arith
  import opened Codec
  import opened Batches
  import opened Shards

  // ---------------------------------------------------------------- the offset map

  /** `m` with the first `n` entries of `es` recorded, the file having had `at` bytes before them. */
  function Recorded(m: map<nat, nat>, es: seq<Entry>, at: nat, n: nat): map<nat, nat>
    requires n <= |es|
  {
    if n == 0 then m else Recorded(m, es, at, n - 1)[es[n - 1].logIdx := at + Start(es, n - 1)]
  }

  /** The offsets of the entries of a file. */
  function Offsets(part: seq<Entry>): map<nat, nat> {
    Recorded(map[], part, 0, |part|)
  }

  /** The loop that records where each entry of a message will be in the file; it stops at an unpublished one. */
  method ProcessAndBuildMap(m: map<nat, nat>, b: seq<byte>, at: nat, ghost live: seq<Entry>)
    returns (out: map<nat, nat>, offset: nat)
    requires 4 <= |b| && LiveRun(b, 4, live) && |live| <= Count(b)
    requires |live| < Count(b) ==> Unpublished(b, 4 + TotalSpan(live))
    ensures out == Recorded(m, live, at, |live|) && offset == 4 + TotalSpan(live)
  {
    var num := Count(b);
    out, offset := m, 4;
    var i := 0;
    while i < num
      invariant i <= |live| && out == Recorded(m, live, at, i) && offset == 4 + Start(live, i)
    {
      var e, consumed := DecodeNext(b, offset, 4, live, i);
      if consumed == 0 { break; }
      out := out[e.logIdx := at + (offset - 4)];
      assert out == Recorded(m, live, at, i + 1);
      offset, i := offset + consumed, i + 1;
    }
  }

  /** Recording a message after a file gives the offsets of the longer file. */
  lemma {:induction false} RecordedAppend(part: seq<Entry>, es: seq<Entry>, n: nat)
    requires n <= |es|
    ensures Recorded(Offsets(part), es, TotalSpan(part), n) == Recorded(map[], part + es, 0, |part| + n)
  {
    if n == 0 {
      RecordedPrefix(part, part + es, |part|);
    } else {
      RecordedAppend(part, es, n - 1);
      StartOfConcat(part, es, n - 1);
    }
  }

  lemma {:induction false} RecordedPrefix(es: seq<Entry>, fs: seq<Entry>, n: nat)
    requires n <= |es| && n <= |fs| && forall i :: 0 <= i < n ==> es[i] == fs[i]
    ensures Recorded(map[], es, 0, n) == Recorded(map[], fs, 0, n)
  {
    if n > 0 {
      RecordedPrefix(es, fs, n - 1);
      StartOfPrefix(es, fs, n - 1);
    }
  }

  /** The entries of one stripe carry the indices of positions `from`, `from + 1`, ... of the shard. */
  predicate From(id: nat, shards: nat, from: nat, part: seq<Entry>) {
    forall t :: 0 <= t < |part| ==> part[t].logIdx == IndexOf(id, shards, from + t)
  }

  /** The map knows exactly the indices of its file's entries, each with the offset of its image. */
  lemma {:induction false} OffsetAt(id: nat, shards: nat, from: nat, part: seq<Entry>, n: nat, t: nat)
    requires shards > 0 && From(id, shards, from, part) && n <= |part|
    ensures IndexOf(id, shards, from + t) in Recorded(map[], part, 0, n) <==> t < n
    ensures t < n ==> Recorded(map[], part, 0, n)[IndexOf(id, shards, from + t)] == Start(part, t)
  {
    if n > 0 {
      OffsetAt(id, shards, from, part, n - 1, t);
      assert part[n - 1].logIdx == IndexOf(id, shards, from + (n - 1));
      if t != n - 1 {
        OtherBase(from + t, from + (n - 1), shards);
      }
    }
  }

  /** No recorded index is above that of the last entry. */
  lemma {:induction false} OffsetsBelow(id: nat, shards: nat, from: nat, part: seq<Entry>, n: nat, x: nat)
    requires shards > 0 && From(id, shards, from, part) && n <= |part| && x in Recorded(map[], part, 0, n)
    ensures n > 0 && x <= IndexOf(id, shards, from + (n - 1))
  {
    assert part[n - 1].logIdx == IndexOf(id, shards, from + (n - 1));
    if x != part[n - 1].logIdx {
      OffsetsBelow(id, shards, from, part, n - 1, x);
      TimesIncreases(from + (n - 2), from + (n - 1), shards);
    }
  }

  /** `std::prev(map.end())->first`: the largest key. */
  method LastKey(m: map<nat, nat>) returns (last: nat)
    requires m != map[]
    ensures last in m && forall x :: x in m ==> x <= last
  {
    var rest := m.Keys;
    var some :| some in rest;
    last := some;
    while rest != {}
      invariant rest <= m.Keys && last in m
      invariant forall x :: x in m ==> x in rest || x <= last
    {
      var x :| x in rest;
      if x > last { last := x; }
      rest := rest - {x};
    }
  }

  // ---------------------------------------------------------------- the server

  datatype Extent = Extent(offsets: map<nat, nat>, size: nat, num: nat, file: seq<byte>, open: bool)

  predicate Indexed(unit: nat, part: seq<Entry>, s: Extent) {
    && s.offsets == Offsets(part) && s.num == |part|
    && File(s.file, part) && s.size == |s.file| && (s.open <==> |part| < unit)
  }

  ghost function Indexes(unit: nat): (seq<Entry>, Extent) -> bool {
    (part, s) => Indexed(unit, part, s)
  }

  function Extended(m: map<nat, Extent>, b: nat, es: seq<Entry>, body: seq<byte>): Extent {
    var s := if b in m then m[b] else Extent(map[], 0, 0, [], true);
    Extent(Recorded(s.offsets, es, s.size, |es|), s.size + |body|, s.num + |es|, s.file + body, s.open)
  }

  function ClosedExtent(unit: nat, s: Extent): Extent {
    if s.num >= unit then s.(open := false) else s
  }

  lemma OwnExtent(unit: nat, part: seq<Entry>, m: map<nat, Extent>, b: nat, es: seq<Entry>, msg: seq<byte>)
    requires StripeOk(Indexes(unit), part, m, b) && Message(msg, es) && es != [] && |part| < unit
    ensures b in m ==> m[b].open
    ensures Indexed(unit, part + es, ClosedExtent(unit, Extended(m, b, es, msg[4..])))
  {
    var file := if part == [] then [] else m[b].file;
    assert File(file, part);
    FileAppend(file, part, msg, es);
    RecordedAppend(part, es, |es|);
  }

  lemma ExtendKeeps(unit: nat, big: nat, history: seq<Entry>, m: map<nat, Extent>, es: seq<Entry>, msg: seq<byte>,
                    b: nat, q: nat)
    requires unit > 0 && big > 0 && Room(unit, |history|, |es|, q) && es != [] && b == Times(q, big)
    requires StripesOk(Indexes(unit), unit, big, history, m) && Message(msg, es)
    ensures b in m ==> m[b].open
    ensures StripesOk(Indexes(unit), unit, big, history + es, m[b := ClosedExtent(unit, Extended(m, b, es, msg[4..]))])
    ensures Extended(m, b, es, msg[4..]).offsets == Offsets(Slice(unit, history, q) + es)
  {
    var part := Slice(unit, history, q);
    assert StripeOk(Indexes(unit), part, m, b);
    OwnExtent(unit, part, m, b, es, msg);
    StripesKept(Indexes(unit), unit, big, history, m, es, ClosedExtent(unit, Extended(m, b, es, msg[4..])), q);
  }

  lemma SliceFrom(id: nat, shards: nat, unit: nat, history: seq<Entry>, q: nat)
    requires InOrder(id, shards, history)
    ensures From(id, shards, Times(q, unit), Slice(unit, history, q))
  {
  }

  /** The largest index of a stripe is that of its last entry. */
  lemma LastIndex(id: nat, shards: nat, from: nat, part: seq<Entry>, last: nat)
    requires shards > 0 && From(id, shards, from, part) && part != []
    requires last in Offsets(part) && forall x :: x in Offsets(part) ==> x <= last
    ensures last == part[|part| - 1].logIdx
  {
    OffsetAt(id, shards, from, part, |part|, |part| - 1);
    OffsetsBelow(id, shards, from, part, |part|, last);
  }

  /** The bytes from one offset to the next, or to the end of the file, are the image of one entry. */
  lemma ImageInFile(f: seq<byte>, part: seq<Entry>, t: nat, x: seq<byte>)
    requires File(f, part) && t < |part|
    requires Start(part, t) <= Start(part, t + 1) <= |f| && x == f[Start(part, t)..Start(part, t + 1)]
    ensures Holds(x, 0, part[t]) && |x| == Span(part[t]) && part[t].flags != 0
  {
    var s := Start(part, t);
    InRun(f, 0, part, t);
    HoldsFrame(f, x, s, s + Span(part[t]), -s, part[t]);
  }

  lemma StripeFrom(id: nat, shards: nat, unit: nat, history: seq<Entry>, es: seq<Entry>, q: nat)
    requires unit > 0 && Room(unit, |history|, |es|, q) && InOrder(id, shards, history + es)
    ensures From(id, shards, Times(q, unit), Slice(unit, history, q) + es)
  {
    SliceAppend(unit, history, es, q, q);
    SliceFrom(id, shards, unit, history + es, q);
  }

  /** The largest index in the offset map of a stripe is that of its last entry. */
  method LastOf(offsets: map<nat, nat>, ghost id: nat, ghost shards: nat, ghost from: nat, ghost part: seq<Entry>)
    returns (last: nat)
    requires shards > 0 && From(id, shards, from, part) && part != [] && offsets == Offsets(part)
    ensures last == part[|part| - 1].logIdx
  {
    OffsetAt(id, shards, from, part, |part|, |part| - 1);
    last := LastKey(offsets);
    LastIndex(id, shards, from, part, last);
  }

  class ShardServerUnoptimized {
    const unit: nat
    const shards: nat
    const id: nat
    var extents: map<nat, Extent>
    var replicatedIndex: nat
    ghost var history: seq<Entry>

    ghost predicate Valid()
      reads this`extents, this`history
    {
      && unit > 0 && id < shards && unit * shards > 0
      && InOrder(id, shards, history)
      && StripesOk(Indexes(unit), unit, unit * shards, history, extents)
    }

    constructor (stripeUnit: nat, shardNum: nat, shardId: nat)
      requires stripeUnit > 0 && shardId < shardNum
      ensures Valid() && history == [] && replicatedIndex == 0
      ensures unit == stripeUnit && shards == shardNum && id == shardId
    {
      unit, shards, id := stripeUnit, shardNum, shardId;
      extents, replicatedIndex, history := map[], 0, [];
      MulLess(0, stripeUnit, shardNum);
    }

    method ProcessEntriesAndBuildMap(base: nat, msg: seq<byte>, ghost es: seq<Entry>)
      requires Message(msg, es) && (base in extents ==> extents[base].open)
      modifies this`extents
      ensures extents == old(extents)[base := Extended(old(extents), base, es, msg[4..])]
    {
      if base !in extents {
        extents := extents[base := Extent(map[], 0, 0, [], true)];
      }
      var s := extents[base];
      var offsets, offset := ProcessAndBuildMap(s.offsets, msg, s.size, es);
      var len := offset - 4;
      assert s.open;
      assert msg[4..4 + len] == msg[4..];
      extents := extents[base := Extent(offsets, s.size + len, s.num + Count(msg), s.file + msg[4..4 + len], s.open)];
    }

    method AddAndClose(base: nat, msg: seq<byte>, ghost es: seq<Entry>)
      requires Message(msg, es) && (base in extents ==> extents[base].open)
      modifies this`extents
      ensures extents == old(extents)[base := ClosedExtent(unit, Extended(old(extents), base, es, msg[4..]))]
    {
      ProcessEntriesAndBuildMap(base, msg, es);
      if extents[base].num >= unit {
        extents := extents[base := extents[base].(open := false)];
      }
    }

    method AppendBatchHandler(msg: seq<byte>, ghost es: seq<Entry>)
      requires Valid() && Message(msg, es) && NextRequest(unit, shards, id, history, es)
      modifies this
      ensures Valid() && history == old(history) + es
      ensures replicatedIndex == es[|es| - 1].logIdx
    {
      var base, q := FirstBase(unit, shards, id, msg, history, es);
      InOrderAppend(unit, shards, id, history, es);
      ghost var part := Slice(unit, history, q) + es;
      StripeFrom(id, shards, unit, history, es, q);
      StoreAt(base, msg, es, q);
      var last := LastOf(extents[base].offsets, id, shards, Times(q, unit), part);
      replicatedIndex := last;
    }

    /** A request for stripe `q` is stored there. */
    method StoreAt(base: nat, msg: seq<byte>, ghost es: seq<Entry>, ghost q: nat)
      requires Valid() && Message(msg, es) && es != [] && base == Times(q, unit * shards)
      requires Room(unit, |history|, |es|, q) && InOrder(id, shards, history + es)
      modifies this`extents, this`history
      ensures Valid() && history == old(history) + es
      ensures base in extents && extents[base].offsets == Offsets(Slice(unit, old(history), q) + es)
    {
      ExtendKeeps(unit, unit * shards, history, extents, es, msg, base, q);
      AddAndClose(base, msg, es);
      history := history + es;
    }

    /** The length comes from the next offset, or from the end of the file; the bytes are the entry's image. */
    method ReadEntryHandler(idx: nat) returns (r: Option<seq<byte>>)
      requires Valid() && idx % shards == id
      ensures r.Some? <==> idx / shards < |history| && idx <= replicatedIndex
      ensures r.Some? ==> Holds(r.value, 0, history[idx / shards]) && |r.value| == Span(history[idx / shards])
      ensures r.Some? ==> history[idx / shards].flags != 0
    {
      var base, local, q := Address(unit, shards, idx);
      ghost var part := Slice(unit, history, q);
      PlaceInSlice(unit, history, q, local);
      assert StripeOk(Indexes(unit), part, extents, base);
      if base !in extents || local >= extents[base].num || idx > replicatedIndex {
        return None;
      }
      var s := extents[base];
      Located(unit, shards, id, idx, history, q, local);
      var len := (if idx + shards in s.offsets then s.offsets[idx + shards] else s.size) - s.offsets[idx];
      var bytes := s.file[s.offsets[idx]..s.offsets[idx] + len];
      ImageInFile(s.file, part, local, bytes);
      return Some(bytes);
    }
  }

  /** What the offset map of a stripe says about a present index and the one after it. */
  lemma Located(unit: nat, shards: nat, id: nat, idx: nat, history: seq<Entry>, q: nat, r: nat)
    requires id < shards && idx % shards == id && InOrder(id, shards, history)
    requires Times(q, unit) + r == idx / shards && r < |Slice(unit, history, q)|
    ensures var part := Slice(unit, history, q);
            && idx in Offsets(part) && Offsets(part)[idx] == Start(part, r)
            && (idx + shards in Offsets(part) <==> r + 1 < |part|)
            && (r + 1 < |part| ==> Offsets(part)[idx + shards] == Start(part, r + 1))
            && Start(part, r + 1) == Start(part, r) + Span(part[r]) <= TotalSpan(part)
  {
    var part, from := Slice(unit, history, q), Times(q, unit);
    RoutedIndex(idx, shards);
    SliceFrom(id, shards, unit, history, q);
    OffsetAt(id, shards, from, part, |part|, r);
    OffsetAt(id, shards, from, part, |part|, r + 1);
    assert IndexOf(id, shards, from + (r + 1)) == IndexOf(id, shards, from + r) + shards;
    BoundariesIncrease(part, r, |part|);
  }

  /** Both servers, given the same batches, answer a read with the same entry. */
  method ServersAgree(cached: ShardServer, plain: ShardServerUnoptimized, idx: nat)
    returns (c: Option<Entry>, p: Option<Entry>)
    requires cached.Valid() && plain.Valid() && cached.history == plain.history
    requires cached.shards == plain.shards && cached.id == plain.id && idx % plain.shards == plain.id
    requires cached.replicatedIndex == plain.replicatedIndex
    ensures c == if idx <= cached.globalIndex then p else None
    ensures p.Some? ==> idx / plain.shards < |plain.history| && p.value == plain.history[idx / plain.shards]
  {
    c := cached.ReadEntryHandler(idx);
    var bytes := plain.ReadEntryHandler(idx);
    match bytes
    case None => p := None;
    case Some(x) =>
      ghost var want := plain.history[idx / plain.shards];
      HeldSize(x, 0, want);
      var e, consumed := Deserializer(x, 0);
      HeldEntryIsUnique(x, 0, e, want);
      p := Some(e);
  }
}

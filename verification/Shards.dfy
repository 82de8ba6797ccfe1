/** Where a shard keeps an entry, and the shard server that serves reads from per-stripe caches. */
module Shards {
  import opened Arith
  import opened Codec
  import opened Batches

  datatype Option<T> = None | Some(value: T)

  // ---------------------------------------------------------------- where an entry of a shard goes

  /** The log index of the `k`-th entry of shard `id` of `shards`. */
  function IndexOf(id: nat, shards: nat, k: nat): nat {
    id + Times(k, shards)
  }

  /** Position `k` of a shard lies in stripe `k / stripe`, at place `k % stripe`, keyed by the stripe's base index. */
  lemma Placement(stripe: nat, shards: nat, id: nat, k: nat)
    requires stripe > 0 && id < shards
    ensures stripe * shards > 0
    ensures Base(IndexOf(id, shards, k), stripe * shards) == Times(k / stripe, stripe * shards)
    ensures (IndexOf(id, shards, k) - Base(IndexOf(id, shards, k), stripe * shards)) / shards == k % stripe
    ensures IndexOf(id, shards, k) / (stripe * shards) == k / stripe
  {
    var q, r := k / stripe, k % stripe;
    TimesIsProduct(k, shards);
    assert k == q * stripe + r;
    assert k * shards == (q * stripe + r) * shards;
    Distribute(q, stripe, r, shards);
    MulLess(r, stripe, shards);
    assert 0 <= r * shards;
    PlacementOf(stripe * shards, shards, id, q, r, IndexOf(id, shards, k));
  }

  lemma PlacementOf(big: nat, shards: nat, id: nat, q: nat, r: nat, idx: nat)
    requires id < shards && r * shards + shards <= big && idx == q * big + r * shards + id
    ensures Base(idx, big) == Times(q, big) && (idx - Base(idx, big)) / shards == r && idx / big == q
  {
    var x := r * shards + id;
    DivModUnique(idx, big, q, x);
    DivModUnique(x, shards, r, id);
    TimesIsProduct(q, big);
  }

  lemma {:induction false} TimesIncreases(i: nat, j: nat, m: nat)
    requires i < j && m > 0
    ensures Times(i, m) + m <= Times(j, m)
  {
    if i < j - 1 {
      TimesIncreases(i, j - 1, m);
    }
  }

  /** Any index that is routed to shard `id` is the index of its `idx / shards`-th entry. */
  lemma RoutedIndex(idx: nat, shards: nat)
    requires shards > 0
    ensures IndexOf(idx % shards, shards, idx / shards) == idx
  {
    TimesIsProduct(idx / shards, shards);
  }

  /** A shard with `len` entries has exactly its indices below `x`. */
  predicate Filled(id: nat, shards: nat, len: nat, x: nat) {
    x <= IndexOf(id, shards, len) && (len > 0 ==> IndexOf(id, shards, len - 1) < x)
  }

  /** The next index belongs to the shard exactly if it is the index of the shard's next entry. */
  lemma NextSlot(id: nat, shards: nat, len: nat, x: nat)
    requires id < shards && Filled(id, shards, len, x)
    ensures x % shards == id <==> x == IndexOf(id, shards, len)
    ensures x % shards == id ==> x / shards == len
    ensures Filled(id, shards, if x % shards == id then len + 1 else len, x + 1)
  {
    if x % shards == id {
      RoutedIndex(x, shards);
      if x / shards < len - 1 {
        TimesIncreases(x / shards, len - 1, shards);
      } else if x / shards > len {
        TimesIncreases(len, x / shards, shards);
      }
    } else if x == IndexOf(id, shards, len) {
      TimesIsProduct(len, shards);
      DivModUnique(x, shards, len, id);
    }
  }

  // ---------------------------------------------------------------- stripes

  /** How many entries of a shard with `n` entries are in stripe `j`. */
  function InStripe(stripe: nat, n: nat, j: nat): (r: nat)
    ensures r <= stripe
  {
    if n <= Times(j, stripe) then 0 else if n - Times(j, stripe) < stripe then n - Times(j, stripe) else stripe
  }

  /** The part of `history` that belongs in stripe `j`. */
  function Slice(stripe: nat, history: seq<Entry>, j: nat): (r: seq<Entry>)
    ensures |r| == InStripe(stripe, |history|, j)
  {
    if |history| <= Times(j, stripe) then []
    else history[Times(j, stripe)..Times(j, stripe) + InStripe(stripe, |history|, j)]
  }

  /** The stripe that the next entry goes to, and how full it is. */
  lemma NextPlace(stripe: nat, n: nat)
    requires stripe > 0
    ensures Times(n / stripe, stripe) + n % stripe == n && InStripe(stripe, n, n / stripe) == n % stripe
  {
    TimesIsProduct(n / stripe, stripe);
  }

  /** Stripe `q` is the one that a shard with `n` entries fills next, and it has room for `k` more. */
  predicate Room(unit: nat, n: nat, k: nat, q: nat) {
    Times(q, unit) <= n && n < Times(q, unit) + unit && n + k <= Times(q, unit) + unit
  }

  /** Appending `more` to a history touches only the stripe it goes to. */
  lemma SliceAppend(unit: nat, history: seq<Entry>, more: seq<Entry>, q: nat, j: nat)
    requires unit > 0 && Room(unit, |history|, |more|, q)
    ensures Slice(unit, history + more, j) == Slice(unit, history, j) + if j == q then more else []
  {
    if j < q {
      TimesIncreases(j, q, unit);
    } else if j > q {
      TimesIncreases(q, j, unit);
    }
  }

  /** A request carries the next entries of shard `id`, all for one stripe. */
  predicate NextRequest(stripe: nat, shards: nat, id: nat, history: seq<Entry>, es: seq<Entry>)
    requires stripe > 0
  {
    && es != [] && |history| % stripe + |es| <= stripe
    && forall t :: 0 <= t < |es| ==> es[t].logIdx == IndexOf(id, shards, |history| + t)
  }

  /** The server's guard, "same big stripe", is what makes a request fit its stripe. */
  lemma SameStripeFits(stripe: nat, shards: nat, id: nat, n: nat, m: nat)
    requires stripe > 0 && id < shards && m > 0 && stripe * shards > 0
    requires IndexOf(id, shards, n) / (stripe * shards) == IndexOf(id, shards, n + m - 1) / (stripe * shards)
    ensures n % stripe + m <= stripe
  {
    Placement(stripe, shards, id, n);
    Placement(stripe, shards, id, n + m - 1);
    SameQuotient(n, n + m - 1, stripe);
  }

  lemma SameQuotient(a: nat, b: nat, d: nat)
    requires d > 0 && a <= b && a / d == b / d
    ensures a % d + (b - a) < d
  {
    assert a == a / d * d + a % d && b == b / d * d + b % d;
  }

  /** The entries of a shard carry its indices in order. */
  predicate InOrder(id: nat, shards: nat, history: seq<Entry>) {
    forall k :: 0 <= k < |history| ==> history[k].logIdx == IndexOf(id, shards, k)
  }

  lemma InOrderAppend(stripe: nat, shards: nat, id: nat, history: seq<Entry>, es: seq<Entry>)
    requires stripe > 0 && InOrder(id, shards, history) && NextRequest(stripe, shards, id, history, es)
    ensures InOrder(id, shards, history + es)
  {
    forall k | 0 <= k < |history + es|
      ensures (history + es)[k].logIdx == IndexOf(id, shards, k)
    {
      if k >= |history| {
        assert es[k - |history|].logIdx == IndexOf(id, shards, |history| + (k - |history|));
      }
    }
  }

  // ---------------------------------------------------------------- a map of stripes

  /** What a server knows under base index `b`: nothing for an empty stripe, else a record that keeps its `part`. */
  ghost predicate StripeOk<S(!new)>(kept: (seq<Entry>, S) -> bool, part: seq<Entry>, m: map<nat, S>, b: nat) {
    if part == [] then b !in m else b in m && kept(part, m[b])
  }

  /** Every stripe holds its part of the history. */
  ghost predicate StripesOk<S(!new)>(
    kept: (seq<Entry>, S) -> bool, unit: nat, big: nat, history: seq<Entry>, m: map<nat, S>)
  {
    forall j: nat {:trigger Slice(unit, history, j)} :: StripeOk(kept, Slice(unit, history, j), m, Times(j, big))
  }

  lemma OtherBase(j: nat, q: nat, big: nat)
    requires j != q && big > 0
    ensures Times(j, big) != Times(q, big)
  {
    if j < q {
      TimesIncreases(j, q, big);
    } else {
      TimesIncreases(q, j, big);
    }
  }

  lemma StripeStep<S(!new)>(kept: (seq<Entry>, S) -> bool, part: seq<Entry>, m: map<nat, S>, b: nat, base: nat,
                            es: seq<Entry>, s: S)
    requires StripeOk(kept, part, m, b) && es != []
    requires b == base ==> kept(part + es, s)
    ensures StripeOk(kept, part + if b == base then es else [], m[base := s], b)
  {
    assert part + [] == part;
  }

  /** A request for the next entries changes the stripe they belong to and no other. */
  lemma StripesKept<S(!new)>(kept: (seq<Entry>, S) -> bool, unit: nat, big: nat, history: seq<Entry>, m: map<nat, S>,
                             es: seq<Entry>, s: S, q: nat)
    requires unit > 0 && big > 0 && Room(unit, |history|, |es|, q) && es != []
    requires StripesOk(kept, unit, big, history, m) && kept(Slice(unit, history, q) + es, s)
    ensures StripesOk(kept, unit, big, history + es, m[Times(q, big) := s])
  {
    forall j: nat
      ensures StripeOk(kept, Slice(unit, history + es, j), m[Times(q, big) := s], Times(j, big))
    {
      SliceAppend(unit, history, es, q, j);
      if j != q { OtherBase(j, q, big); }
      StripeStep(kept, Slice(unit, history, j), m, Times(j, big), Times(q, big), es, s);
    }
  }

  /** Where a read looks: the base index of a stripe and a place in it. */
  method Address(unit: nat, shards: nat, idx: nat) returns (base: nat, local: nat, ghost q: nat)
    requires unit > 0 && shards > 0
    ensures base == Times(q, unit * shards) && local < unit && Times(q, unit) + local == idx / shards
  {
    ghost var k := idx / shards;
    RoutedIndex(idx, shards);
    Placement(unit, shards, idx % shards, k);
    NextPlace(unit, k);
    q := k / unit;
    base := Base(idx, unit * shards);
    local := (idx - base) / shards;
  }

  /** The place is filled exactly when the shard has an entry of that index, and then with that entry. */
  lemma PlaceInSlice(unit: nat, history: seq<Entry>, q: nat, r: nat)
    requires r < unit
    ensures r < |Slice(unit, history, q)| <==> Times(q, unit) + r < |history|
    ensures Times(q, unit) + r < |history| ==> Slice(unit, history, q)[r] == history[Times(q, unit) + r]
  {
  }

  /** The stripe of a request is the one its first entry belongs to. */
  method FirstBase(unit: nat, shards: nat, id: nat, msg: seq<byte>, ghost history: seq<Entry>, ghost es: seq<Entry>)
    returns (base: nat, ghost q: nat)
    requires unit > 0 && id < shards && Message(msg, es) && NextRequest(unit, shards, id, history, es)
    ensures base == Times(q, unit * shards) && Room(unit, |history|, |es|, q)
  {
    InRun(msg, 4, es, 0);
    var first, consumed := Deserializer(msg, 4);
    HeldEntryIsUnique(msg, 4, first, es[0]);
    assert es[0].logIdx == IndexOf(id, shards, |history| + 0);
    Placement(unit, shards, id, |history|);
    base := Base(first.logIdx, unit * shards);
    q := |history| / unit;
    NextPlace(unit, |history|);
  }

  // ---------------------------------------------------------------- the caching server

  /** What the caching server keeps under a base index: entries, bytes, the data file, and whether it is open. */
  datatype Stripe = Stripe(cache: seq<Entry>, size: nat, file: seq<byte>, open: bool)

  /** A stripe that holds `part`: cache and file agree, and the file is open until the stripe is full. */
  predicate Kept(unit: nat, part: seq<Entry>, s: Stripe) {
    s.cache == part && File(s.file, part) && s.size == |s.file| && (s.open <==> |part| < unit)
  }

  ghost function Keeps(unit: nat): (seq<Entry>, Stripe) -> bool {
    (part, s) => Kept(unit, part, s)
  }

  /** The stripe at `b` after a request, before the file is closed. */
  function Added(m: map<nat, Stripe>, b: nat, es: seq<Entry>, body: seq<byte>): Stripe {
    var s := if b in m then m[b] else Stripe([], 0, [], true);
    Stripe(s.cache + es, s.size + |body|, s.file + body, s.open)
  }

  function Closed(unit: nat, s: Stripe): Stripe {
    if |s.cache| >= unit then s.(open := false) else s
  }

  lemma OwnStripe(unit: nat, part: seq<Entry>, m: map<nat, Stripe>, b: nat, es: seq<Entry>, msg: seq<byte>)
    requires StripeOk(Keeps(unit), part, m, b) && Message(msg, es) && es != [] && |part| < unit
    ensures b in m ==> m[b].open
    ensures Kept(unit, part + es, Closed(unit, Added(m, b, es, msg[4..])))
  {
    var file := if part == [] then [] else m[b].file;
    assert File(file, part);
    FileAppend(file, part, msg, es);
  }

  lemma StoreKeeps(unit: nat, big: nat, history: seq<Entry>, m: map<nat, Stripe>, es: seq<Entry>, msg: seq<byte>,
                   b: nat, q: nat)
    requires unit > 0 && big > 0 && Room(unit, |history|, |es|, q) && es != [] && b == Times(q, big)
    requires StripesOk(Keeps(unit), unit, big, history, m) && Message(msg, es)
    ensures b in m ==> m[b].open
    ensures StripesOk(Keeps(unit), unit, big, history + es, m[b := Closed(unit, Added(m, b, es, msg[4..]))])
    ensures var c := Added(m, b, es, msg[4..]).cache; c[|c| - 1] == es[|es| - 1]
  {
    var part := Slice(unit, history, q);
    assert StripeOk(Keeps(unit), part, m, b);
    OwnStripe(unit, part, m, b, es, msg);
    StripesKept(Keeps(unit), unit, big, history, m, es, Closed(unit, Added(m, b, es, msg[4..])), q);
  }

  class ShardServer {
    const unit: nat
    const shards: nat
    const id: nat
    var stripes: map<nat, Stripe>
    var replicatedIndex: nat
    var globalIndex: nat
    ghost var history: seq<Entry>

    ghost predicate Valid()
      reads this
    {
      && unit > 0 && id < shards && unit * shards > 0
      && InOrder(id, shards, history)
      && StripesOk(Keeps(unit), unit, unit * shards, history, stripes)
    }

    constructor (stripeUnit: nat, shardNum: nat, shardId: nat)
      requires stripeUnit > 0 && shardId < shardNum
      ensures Valid() && history == [] && replicatedIndex == globalIndex == 0
      ensures unit == stripeUnit && shards == shardNum && id == shardId
    {
      unit, shards, id := stripeUnit, shardNum, shardId;
      stripes, replicatedIndex, globalIndex, history := map[], 0, 0, [];
      MulLess(0, stripeUnit, shardNum);
    }

    /** `addToEntryCache`, from a fresh start: an unknown stripe has no file yet, so one is created. */
    method AddToEntryCache(base: nat, msg: seq<byte>, ghost es: seq<Entry>)
      requires Message(msg, es) && (base in stripes ==> stripes[base].open)
      modifies this`stripes
      ensures stripes == old(stripes)[base := Added(old(stripes), base, es, msg[4..])]
    {
      if base !in stripes {
        stripes := stripes[base := Stripe([], 0, [], true)];
      }
      var s := stripes[base];
      var out, offset := MultiDeserializer(s.cache, msg, es);
      var len := offset - 4;
      assert s.open;
      assert msg[4..4 + len] == msg[4..];
      stripes := stripes[base := Stripe(out, s.size + len, s.file + msg[4..4 + len], s.open)];
    }

    /** `writeFromCacheToDisk`: the bytes are already in the file, which must be open and is closed. */
    method CloseFile(base: nat)
      requires base in stripes && stripes[base].open
      modifies this`stripes
      ensures stripes == old(stripes)[base := old(stripes)[base].(open := false)]
    {
      stripes := stripes[base := stripes[base].(open := false)];
    }

    method AddAndClose(base: nat, msg: seq<byte>, ghost es: seq<Entry>)
      requires Message(msg, es) && (base in stripes ==> stripes[base].open)
      modifies this`stripes
      ensures stripes == old(stripes)[base := Closed(unit, Added(old(stripes), base, es, msg[4..]))]
    {
      AddToEntryCache(base, msg, es);
      if |stripes[base].cache| >= unit {
        CloseFile(base);
      }
    }

    /** A request for stripe `q` is stored there. */
    method StoreAt(base: nat, msg: seq<byte>, ghost es: seq<Entry>, ghost q: nat)
      requires Valid() && Message(msg, es) && es != [] && base == Times(q, unit * shards)
      requires Room(unit, |history|, |es|, q) && InOrder(id, shards, history + es)
      modifies this`stripes, this`history
      ensures Valid() && history == old(history) + es
      ensures base in stripes && stripes[base].cache != []
      ensures stripes[base].cache[|stripes[base].cache| - 1] == es[|es| - 1]
    {
      StoreKeeps(unit, unit * shards, history, stripes, es, msg, base, q);
      AddAndClose(base, msg, es);
      history := history + es;
    }

    /** What the append handler of a primary and the replicate handler of a backup both do with a request. */
    method StoreBatch(msg: seq<byte>, ghost es: seq<Entry>) returns (base: nat)
      requires Valid() && Message(msg, es) && NextRequest(unit, shards, id, history, es)
      modifies this`stripes, this`history
      ensures Valid() && history == old(history) + es
      ensures base in stripes && stripes[base].cache != []
      ensures stripes[base].cache[|stripes[base].cache| - 1] == es[|es| - 1]
    {
      ghost var q;
      base, q := FirstBase(unit, shards, id, msg, history, es);
      InOrderAppend(unit, shards, id, history, es);
      StoreAt(base, msg, es, q);
    }

    /** The primary replicates to every backup, stores, and only then moves its replication watermark. */
    method AppendBatchHandler(backups: seq<ShardServer>, msg: seq<byte>, ghost es: seq<Entry>)
      requires Group(this, backups) && Message(msg, es) && NextRequest(unit, shards, id, history, es)
      modifies this`stripes, this`history, this`replicatedIndex, backups
      ensures Group(this, backups) && history == old(history) + es
      ensures replicatedIndex == es[|es| - 1].logIdx == IndexOf(id, shards, |history| - 1)
    {
      for i := 0 to |backups|
        invariant Valid() && history == old(history) && stripes == old(stripes)
        invariant forall j :: 0 <= j < |backups| ==> Like(this, backups[j])
        invariant forall j :: 0 <= j < i ==> backups[j].history == history + es
        invariant forall j :: i <= j < |backups| ==> backups[j].history == history
      {
        var base := backups[i].StoreBatch(msg, es);
      }
      var base := StoreBatch(msg, es);
      var cache := stripes[base].cache;
      replicatedIndex := cache[|cache| - 1].logIdx;
    }

    method UpdateGlobalIdxHandler(idx: nat)
      requires Valid()
      modifies this`globalIndex
      ensures Valid() && globalIndex == idx
    {
      globalIndex := idx;
    }

    /**
     * A read of an index routed here returns the entry with that index as soon as it is present, replicated and
     * below the stable index; `None` stands for going back to wait.
     */
    method ReadEntryHandler(idx: nat) returns (r: Option<Entry>)
      requires Valid() && idx % shards == id
      ensures r.Some? <==> idx / shards < |history| && idx <= replicatedIndex && idx <= globalIndex
      ensures r.Some? ==> r.value == history[idx / shards] && r.value.logIdx == idx
    {
      var base, local, q := Address(unit, shards, idx);
      PlaceInSlice(unit, history, q, local);
      RoutedIndex(idx, shards);
      assert StripeOk(Keeps(unit), Slice(unit, history, q), stripes, base);
      if base !in stripes || local >= |stripes[base].cache| || idx > replicatedIndex || idx > globalIndex {
        return None;
      }
      return Some(stripes[base].cache[local]);
    }
  }

  ghost predicate Like(p: ShardServer, b: ShardServer)
    reads b
  {
    b.Valid() && b != p && b.unit == p.unit && b.shards == p.shards && b.id == p.id
  }

  /** A primary and its backups, all holding the same entries. */
  ghost predicate Group(p: ShardServer, backups: seq<ShardServer>)
    reads p, backups
  {
    && p.Valid()
    && (forall i :: 0 <= i < |backups| ==> Like(p, backups[i]) && backups[i].history == p.history)
    && forall i, j :: 0 <= i < j < |backups| ==> backups[i] != backups[j]
  }
}

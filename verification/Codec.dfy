/**
 * The wire and memory format of a log entry: a 32-byte little-endian header, then the payload, then padding up to a
 * multiple of four. Padding bytes are skipped, never written.
 */
module Codec {

  type byte = b: int | 0 <= b < 256

  const META_DATA_SIZE: nat := 32
  const FLAG_POS: nat := 28
  const TWO_32: nat := 0x1_0000_0000

  datatype Entry = Entry(
    clientId: nat, clientSeq: nat, logIdx: nat, size: nat, flags: nat, view: nat, data: seq<byte>)

  /** What a default-constructed entry holds: it ends a fetched batch and carries the end sequence. */
  const BLANK := Entry(0, 0, 0, 0, 0, 0, [])

  /** Header fields are numbered in layout order: client id, client sequence, log index, size, flags, view. */
  function Width(k: nat): nat
    requires k < 6
  {
    if k < 3 then 8 else if k == 3 then 4 else 2
  }

  /** Where field `k` starts; field 6 is the payload. */
  function Pos(k: nat): nat
    requires k <= 6
  {
    if k < 4 then 8 * k else if k == 4 then FLAG_POS else if k == 5 then 30 else META_DATA_SIZE
  }

  function Value(e: Entry, k: nat): nat
    requires k < 6
  {
    match k
    case 0 => e.clientId
    case 1 => e.clientSeq
    case 2 => e.logIdx
    case 3 => e.size
    case 4 => e.flags
    case _ => e.view
  }

  /** Every field fits its C++ type and `size` is the payload's length, which the serializer asserts. */
  predicate Representable(e: Entry) {
    && (forall k :: 0 <= k < 6 ==> Value(e, k) < Pow256(Width(k)))
    && e.size == |e.data|
  }

  // ---------------------------------------------------------------- integers as bytes

  function Pow256(w: nat): nat {
    if w == 0 then 1 else 256 * Pow256(w - 1)
  }

  function LittleEndian(n: nat, w: nat): (b: seq<byte>)
    ensures |b| == w
    decreases w, n
  {
    if w == 0 then [] else [n % 256] + LittleEndian(n / 256, w - 1)
  }

  function FromLittleEndian(b: seq<byte>): nat {
    if b == [] then 0 else b[0] + 256 * FromLittleEndian(b[1..])
  }

  lemma {:induction false} IntegerRoundTrip(n: nat, w: nat)
    requires n < Pow256(w)
    ensures FromLittleEndian(LittleEndian(n, w)) == n
    decreases w
  {
    if w > 0 {
      IntegerRoundTrip(n / 256, w - 1);
      assert LittleEndian(n, w)[1..] == LittleEndian(n / 256, w - 1);
    }
  }

  lemma {:induction false} BytesRoundTrip(x: seq<byte>)
    ensures LittleEndian(FromLittleEndian(x), |x|) == x
  {
    if x != [] {
      BytesRoundTrip(x[1..]);
      var rest := FromLittleEndian(x[1..]);
      assert (x[0] + 256 * rest) / 256 == rest && (x[0] + 256 * rest) % 256 == x[0];
    }
  }

  lemma {:induction false} FromLittleEndianBound(b: seq<byte>)
    ensures FromLittleEndian(b) < Pow256(|b|)
  {
    if b != [] {
      FromLittleEndianBound(b[1..]);
    }
  }

  // ---------------------------------------------------------------- one entry

  /** The first `k` header fields laid end to end. */
  function HeaderPrefix(e: Entry, k: nat): (b: seq<byte>)
    requires k <= 6
    ensures |b| == Pos(k)
  {
    if k == 0 then [] else HeaderPrefix(e, k - 1) + LittleEndian(Value(e, k - 1), Width(k - 1))
  }

  /** The bytes the serializer writes for an entry, in order. */
  function Image(e: Entry): (b: seq<byte>)
    ensures |b| == META_DATA_SIZE + |e.data|
  {
    HeaderPrefix(e, 6) + e.data
  }

  /** `n` rounded up to a multiple of four. */
  function Padded(n: nat): (r: nat)
    ensures n <= r < n + 4
  {
    (n + 3) / 4 * 4
  }

  /** How far the serializer and the deserializer advance over an entry. */
  function Span(e: Entry): (r: nat)
    ensures META_DATA_SIZE + |e.data| <= r < META_DATA_SIZE + |e.data| + 4
  {
    META_DATA_SIZE + Padded(|e.data|)
  }

  /**
   * `GetSize`: `+` binds tighter than `&`, so header and payload are rounded together, and the addition of 3 to the
   * 32-bit `size` wraps.
   */
  function GetSize(e: Entry): nat {
    var sum := META_DATA_SIZE + (e.size + 3) % TWO_32;
    sum - sum % 4
  }

  /** The value of header field `k` of the entry at `at`. */
  function Get(b: seq<byte>, at: nat, k: nat): nat
    requires k < 6 && at + META_DATA_SIZE <= |b|
  {
    FromLittleEndian(b[at + Pos(k)..at + Pos(k) + Width(k)])
  }

  function GetClientId(b: seq<byte>, at: nat): nat
    requires at + META_DATA_SIZE <= |b|
  {
    Get(b, at, 0)
  }

  function GetClientSeq(b: seq<byte>, at: nat): nat
    requires at + META_DATA_SIZE <= |b|
  {
    Get(b, at, 1)
  }

  function GetIdx(b: seq<byte>, at: nat): nat
    requires at + META_DATA_SIZE <= |b|
  {
    Get(b, at, 2)
  }

  function GetSizeFromBuf(b: seq<byte>, at: nat): nat
    requires at + META_DATA_SIZE <= |b|
  {
    var sum := META_DATA_SIZE + (Get(b, at, 3) + 3) % TWO_32;
    sum - sum % 4
  }

  function GetFlagFromBuf(b: seq<byte>, at: nat): nat
    requires at + META_DATA_SIZE <= |b|
  {
    Get(b, at, 4)
  }

  /** The entry stored at `at` is `e`: its header fields and its payload are all there. */
  predicate Holds(b: seq<byte>, at: nat, e: Entry) {
    && at + META_DATA_SIZE + e.size <= |b|
    && (forall k :: 0 <= k < 6 ==> Get(b, at, k) == Value(e, k))
    && b[at + META_DATA_SIZE..at + META_DATA_SIZE + e.size] == e.data
  }

  /** `GetSize` agrees with the bytes written exactly up to size 2^32 - 4; above that the 32-bit sum wraps. */
  lemma GetSizeAgreesExactly(e: Entry)
    requires Representable(e)
    ensures GetSize(e) == Span(e) <==> e.size <= TWO_32 - 4
  {
    assert Pow256(4) == TWO_32 && Value(e, 3) == e.size;
  }

  lemma {:induction false} PrefixOfPrefix(e: Entry, j: nat, k: nat)
    requires j <= k <= 6
    ensures Pos(j) <= Pos(k) && HeaderPrefix(e, k)[..Pos(j)] == HeaderPrefix(e, j)
  {
    if j < k {
      PrefixOfPrefix(e, j, k - 1);
    }
  }

  lemma FieldOfImage(e: Entry, k: nat)
    requires k < 6
    ensures Pos(k) + Width(k) == Pos(k + 1) <= META_DATA_SIZE
    ensures Image(e)[Pos(k)..Pos(k + 1)] == LittleEndian(Value(e, k), Width(k))
  {
    var h := HeaderPrefix(e, 6);
    PrefixOfPrefix(e, k + 1, 6);
    assert Image(e)[Pos(k)..Pos(k + 1)] == h[..Pos(k + 1)][Pos(k)..];
    assert HeaderPrefix(e, k + 1)[Pos(k)..] == LittleEndian(Value(e, k), Width(k));
  }

  /** Equal stretches of two buffers have equal parts. */
  lemma SubSlice(b: seq<byte>, c: seq<byte>, at: nat, to: nat, n: nat, i: nat, j: nat)
    requires at + n <= |b| && to + n <= |c| && b[at..at + n] == c[to..to + n] && i <= j <= n
    ensures b[at + i..at + j] == c[to + i..to + j]
  {
    var x, y := b[at + i..at + j], c[to + i..to + j];
    forall k | 0 <= k < |x|
      ensures x[k] == y[k]
    {
      assert b[at..at + n][i + k] == c[to..to + n][i + k];
    }
  }

  /** Round trip, writing side: a buffer with the image of `e` at `at` stores `e` there. */
  lemma ImageIsHeld(b: seq<byte>, at: nat, e: Entry)
    requires Representable(e) && at + |Image(e)| <= |b| && b[at..at + |Image(e)|] == Image(e)
    ensures Holds(b, at, e)
  {
    var img := Image(e);
    assert img[0..|img|] == img;
    forall k | 0 <= k < 6
      ensures Get(b, at, k) == Value(e, k)
    {
      FieldOfImage(e, k);
      SubSlice(b, img, at, 0, |img|, Pos(k), Pos(k + 1));
      IntegerRoundTrip(Value(e, k), Width(k));
    }
    SubSlice(b, img, at, 0, |img|, META_DATA_SIZE, |img|);
  }

  /** Round trip, reading side: a place stores at most one entry. */
  lemma HeldEntryIsUnique(b: seq<byte>, at: nat, e: Entry, f: Entry)
    requires Holds(b, at, e) && Holds(b, at, f)
    ensures e == f
  {
    assert Get(b, at, 0) == e.clientId == f.clientId;
    assert Get(b, at, 1) == e.clientSeq == f.clientSeq;
    assert Get(b, at, 2) == e.logIdx == f.logIdx;
    assert Get(b, at, 3) == e.size == f.size;
    assert Get(b, at, 4) == e.flags == f.flags;
    assert Get(b, at, 5) == e.view == f.view;
  }

  lemma HeldSize(b: seq<byte>, at: nat, e: Entry)
    requires Holds(b, at, e)
    ensures GetFlagFromBuf(b, at) == e.flags && Get(b, at, 3) == e.size && e.size == |e.data|
    ensures GetSizeFromBuf(b, at) == GetSize(e)
  {
    assert Get(b, at, 3) == Value(e, 3) && Get(b, at, 4) == Value(e, 4);
  }

  /** Whatever is stored fits the C++ types. */
  lemma HeldIsRepresentable(b: seq<byte>, at: nat, e: Entry)
    requires Holds(b, at, e)
    ensures Representable(e)
  {
    forall k | 0 <= k < 6
      ensures Value(e, k) < Pow256(Width(k))
    {
      FromLittleEndianBound(b[at + Pos(k)..at + Pos(k) + Width(k)]);
      assert Get(b, at, k) == Value(e, k);
    }
  }

  /** `c`, shifted by `d`, agrees with `b` from `lo` up to `hi`. */
  predicate Agree(b: seq<byte>, c: seq<byte>, lo: nat, hi: nat, d: int) {
    && lo <= hi <= |b| && 0 <= lo + d && hi + d <= |c|
    && forall k :: lo <= k < hi ==> b[k] == c[k + d]
  }

  lemma AgreeSlice(b: seq<byte>, c: seq<byte>, lo: nat, hi: nat, d: int, i: nat, j: nat)
    requires Agree(b, c, lo, hi, d) && lo <= i <= j <= hi
    ensures b[i..j] == c[i + d..j + d]
  {
    var x, y := b[i..j], c[i + d..j + d];
    forall k | 0 <= k < |x|
      ensures x[k] == y[k]
    {
      assert b[i + k] == c[i + k + d];
    }
  }

  /** Equal bytes store equal entries. */
  lemma HoldsFrame(b: seq<byte>, c: seq<byte>, at: nat, hi: nat, d: int, e: Entry)
    requires Holds(b, at, e) && Agree(b, c, at, hi, d) && at + META_DATA_SIZE + e.size <= hi
    ensures Holds(c, at + d, e)
  {
    forall k | 0 <= k < 6
      ensures Get(c, at + d, k) == Value(e, k)
    {
      AgreeSlice(b, c, at, hi, d, at + Pos(k), at + Pos(k) + Width(k));
      assert Get(b, at, k) == Value(e, k);
    }
    AgreeSlice(b, c, at, hi, d, at + META_DATA_SIZE, at + META_DATA_SIZE + e.size);
  }

  /** Where only the header is copied, the entry stored is the same but for the payload found there. */
  lemma HeaderWithPayload(b: seq<byte>, at: nat, c: seq<byte>, to: nat, e: Entry)
    requires Holds(b, at, e) && to + META_DATA_SIZE + e.size <= |c| && Agree(b, c, at, at + META_DATA_SIZE, to - at)
    ensures Holds(c, to, e.(data := c[to + META_DATA_SIZE..to + META_DATA_SIZE + e.size]))
  {
    var f := e.(data := c[to + META_DATA_SIZE..to + META_DATA_SIZE + e.size]);
    forall k | 0 <= k < 6
      ensures Get(c, to, k) == Value(f, k)
    {
      assert Get(b, at, k) == Value(e, k);
      AgreeSlice(b, c, at, at + META_DATA_SIZE, to - at, at + Pos(k), at + Pos(k) + Width(k));
    }
  }

  /** The field that header byte `p` belongs to. */
  function FieldOf(p: nat): (k: nat)
    requires p < META_DATA_SIZE
    ensures k < 6 && Pos(k) <= p < Pos(k) + Width(k)
  {
    if p < 24 then p / 8 else if p < 28 then 3 else if p < 30 then 4 else 5
  }

  /** Fields with equal values have equal bytes. */
  lemma HeldField(x: seq<byte>, y: seq<byte>)
    requires |x| == |y| && FromLittleEndian(x) == FromLittleEndian(y)
    ensures x == y
  {
    BytesRoundTrip(x);
    BytesRoundTrip(y);
  }

  lemma HeldHeaderByte(b: seq<byte>, at: nat, c: seq<byte>, to: nat, e: Entry, i: nat)
    requires Holds(b, at, e) && Holds(c, to, e) && i < META_DATA_SIZE
    ensures b[at + i] == c[to + i]
  {
    var k := FieldOf(i);
    var x, y := b[at + Pos(k)..at + Pos(k) + Width(k)], c[to + Pos(k)..to + Pos(k) + Width(k)];
    assert Get(b, at, k) == Get(c, to, k);
    HeldField(x, y);
    assert x[i - Pos(k)] == y[i - Pos(k)];
  }

  lemma HeldDataByte(b: seq<byte>, at: nat, e: Entry, i: nat)
    requires Holds(b, at, e) && i < e.size
    ensures |e.data| == e.size && b[at + META_DATA_SIZE + i] == e.data[i]
  {
    assert b[at + META_DATA_SIZE + i] == b[at + META_DATA_SIZE..at + META_DATA_SIZE + e.size][i];
  }

  /** Equal entries are stored as equal bytes, up to padding: the partner of `HoldsFrame`. */
  lemma HeldBytes(b: seq<byte>, at: nat, c: seq<byte>, to: nat, e: Entry)
    requires Holds(b, at, e) && Holds(c, to, e)
    ensures Agree(b, c, at, at + META_DATA_SIZE + e.size, to - at)
  {
    forall p | at <= p < at + META_DATA_SIZE + e.size
      ensures b[p] == c[p + (to - at)]
    {
      if p < at + META_DATA_SIZE {
        HeldHeaderByte(b, at, c, to, e, p - at);
      } else {
        HeldDataByte(b, at, e, p - at - META_DATA_SIZE);
        HeldDataByte(c, to, e, p - at - META_DATA_SIZE);
      }
    }
  }

  /** The deserializer only touches memory it can read: the header, and the payload if the flag is set. */
  predicate Readable(b: seq<byte>, at: nat) {
    && at + META_DATA_SIZE <= |b|
    && (GetFlagFromBuf(b, at) != 0 ==> at + META_DATA_SIZE + Get(b, at, 3) <= |b|)
  }

  /** `Deserializer`: header first; a zero flag stops it before the payload and it reports 0 bytes. */
  method Deserializer(b: seq<byte>, at: nat) returns (e: Entry, consumed: nat)
    requires Readable(b, at)
    ensures consumed == 0 <==> GetFlagFromBuf(b, at) == 0
    ensures consumed != 0 ==> Holds(b, at, e) && consumed == Span(e)
  {
    e := Entry(Get(b, at, 0), Get(b, at, 1), Get(b, at, 2), Get(b, at, 3), Get(b, at, 4), Get(b, at, 5), []);
    if e.flags == 0 {
      return e, 0;
    }
    e := e.(data := b[at + META_DATA_SIZE..at + META_DATA_SIZE + e.size]);
    consumed := META_DATA_SIZE + Padded(|e.data|);
    forall k | 0 <= k < 6
      ensures Get(b, at, k) == Value(e, k)
    {
    }
  }
}

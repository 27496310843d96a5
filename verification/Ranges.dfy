/** Byte ranges of a blob: what ReadBlob delivers and what UpdateBlob writes, in 64-bit arithmetic. */
module Ranges {
  import opened Digests

  const MAX_INT64: int := 0x7FFF_FFFF_FFFF_FFFF
  const TWO_64: int := 0x1_0000_0000_0000_0000

  predicate IsInt64(x: int) {
    -MAX_INT64 - 1 <= x <= MAX_INT64
  }

  /** The value of a 64-bit addition whose exact result is `x`. */
  function Wrap64(x: int): (r: int)
    ensures IsInt64(r)
    ensures IsInt64(x) ==> r == x
  {
    (x + MAX_INT64 + 1) % TWO_64 - MAX_INT64 - 1
  }

  datatype ByteRange = ByteRange(offset: int, length: int)

  predicate IsRequest(req: ByteRange) {
    IsInt64(req.offset) && IsInt64(req.length)
  }

  /** The range that ReadBlob reports for a request on a file of `size` bytes. */
  function ActualRange(size: int, req: ByteRange): ByteRange {
    var offset := if req.offset < 0 then 0 else req.offset;
    var length := if req.length == -1 || Wrap64(offset + req.length) > size then size - offset else req.length;
    ByteRange(offset, if length < 0 then 0 else length)
  }

  function Min(x: int, y: int): int {
    if x <= y then x else y
  }

  function Max(x: int, y: int): (m: int)
    ensures m >= x && m >= y && m in {x, y}
  {
    if x >= y then x else y
  }

  /** What an io.SectionReader over `b` yields for a non-negative offset and length. */
  function Section(b: Bytes, offset: int, length: int): Bytes
    requires offset >= 0 && length >= 0
  {
    var limit := if offset <= MAX_INT64 - length then offset + length else MAX_INT64;
    b[Min(offset, |b|)..Min(if limit < offset then offset else limit, |b|)]
  }

  /** The bytes of the stream that ReadBlob returns. */
  function Delivered(b: Bytes, req: ByteRange): Bytes {
    var actual := ActualRange(|b|, req);
    Section(b, actual.offset, actual.length)
  }

  /** The bytes of `b` at positions offset .. offset + length, as many of them as there are. */
  function Slice(b: Bytes, offset: nat, length: nat): (s: Bytes)
    ensures |s| == if offset >= |b| then 0 else Min(length, |b| - offset)
    ensures forall i | 0 <= i < |s| :: s[i] == b[offset + i]
  {
    if offset >= |b| then [] else b[offset..Min(offset + length, |b|)]
  }

  predicate Overflows(req: ByteRange) {
    req.length != -1 && (if req.offset < 0 then 0 else req.offset) + req.length > MAX_INT64
  }

  predicate InBounds(size: int, r: ByteRange) {
    r.offset >= 0 && r.length >= 0 && (r.length == 0 || r.offset + r.length <= size)
  }

  /**
   * The reported range is within the file exactly when offset + length does not overflow; asking for
   * it again gives it again; and the stream is the slice it names in every case.
   */
  lemma ReadRangeIsExact(b: Bytes, req: ByteRange)
    requires IsRequest(req) && |b| <= MAX_INT64
    ensures var actual := ActualRange(|b|, req);
            && actual.offset >= 0 && actual.length >= 0
            && (InBounds(|b|, actual) <==> !Overflows(req))
            && ActualRange(|b|, actual) == actual
            && Delivered(b, req) == Slice(b, actual.offset, actual.length)
            && (!Overflows(req) && actual.offset <= |b| ==> |Delivered(b, req)| == actual.length)
  {
    var offset := if req.offset < 0 then 0 else req.offset;
    if Overflows(req) {
      assert Wrap64(offset + req.length) == offset + req.length - TWO_64;
    }
  }

  /** A concrete overflow: the reported range of one byte lies outside every file, and nothing is delivered. */
  lemma OverflowIsReported(b: Bytes)
    requires |b| <= MAX_INT64
    ensures var req := ByteRange(MAX_INT64, 1);
            ActualRange(|b|, req) == req && !InBounds(|b|, req) && Delivered(b, req) == []
  {
    assert Wrap64(MAX_INT64 + 1) == -MAX_INT64 - 1;
  }

  /**
   * What a read delivers, from the request alone: from the offset, or from the start when that is negative,
   * as many bytes as are asked for and there, all the rest for -1, none for another negative length. The
   * reported range starts where the bytes do and, short of an overflow, is as long as they are.
   */
  lemma ReadDeliversWhatIsAsked(b: Bytes, req: ByteRange)
    requires IsRequest(req) && |b| <= MAX_INT64
    ensures var from, wanted := Max(req.offset, 0), if req.length == -1 then |b| else Max(req.length, 0);
            && Delivered(b, req) == Slice(b, from, wanted)
            && ActualRange(|b|, req).offset == from
            && (!Overflows(req) ==> ActualRange(|b|, req).length == |Delivered(b, req)|)
  {
    if Overflows(req) {
      assert Wrap64(Max(req.offset, 0) + req.length) == Max(req.offset, 0) + req.length - TWO_64;
    }
  }

  /** A request for the rest of the file yields exactly the rest. */
  lemma ReadToEnd(b: Bytes, offset: nat)
    requires offset <= |b| <= MAX_INT64
    ensures Delivered(b, ByteRange(offset, -1)) == b[offset..]
  {}

  // Tilings

  /** `cuts` lists the ends of consecutive tiles that start at `from` and reach `to`. */
  predicate IsTiling(cuts: seq<int>, from: int, to: int) {
    if cuts == [] then from == to
    else from <= cuts[0] <= to && IsTiling(cuts[1..], cuts[0], to)
  }

  function ReadTiles(b: Bytes, from: nat, cuts: seq<int>): Bytes
    decreases |cuts|
  {
    if cuts == [] || cuts[0] < from then []
    else Delivered(b, ByteRange(from, cuts[0] - from)) + ReadTiles(b, cuts[0], cuts[1..])
  }

  lemma {:induction false} TilesFrom(b: Bytes, from: nat, cuts: seq<int>)
    requires from <= |b| <= MAX_INT64 && IsTiling(cuts, from, |b|)
    ensures ReadTiles(b, from, cuts) == b[from..]
    decreases |cuts|
  {
    if cuts != [] {
      ReadRangeIsExact(b, ByteRange(from, cuts[0] - from));
      assert Delivered(b, ByteRange(from, cuts[0] - from)) == b[from..cuts[0]];
      TilesFrom(b, cuts[0], cuts[1..]);
    }
  }

  /** Reading any tiling of a blob, tile by tile, gives the whole blob. */
  lemma TiledReadsConcatenate(b: Bytes, cuts: seq<int>)
    requires |b| <= MAX_INT64 && IsTiling(cuts, 0, |b|)
    ensures ReadTiles(b, 0, cuts) == b
  {
    TilesFrom(b, 0, cuts);
  }

  // Writing

  function Zeros(n: nat): (z: Bytes)
    ensures |z| == n && forall i | 0 <= i < n :: z[i] == 0
  {
    seq(n, _ => 0)
  }

  /** Writing `data` at `offset`; a gap past the end reads as zeros, and writing nothing changes nothing. */
  function WriteAt(b: Bytes, offset: nat, data: Bytes): Bytes {
    if data == [] then b
    else if offset >= |b| then b + Zeros(offset - |b|) + data
    else b[..offset] + data + (if offset + |data| < |b| then b[offset + |data|..] else [])
  }

  /** The prefix of the source that UpdateBlob copies: all of it unless a positive length is given. */
  function Copied(length: int, data: Bytes): Bytes {
    if length > 0 && length < |data| then data[..length] else data
  }

  /** What a write does to every position of the blob. */
  lemma WriteAtPointwise(b: Bytes, offset: nat, data: Bytes)
    ensures |WriteAt(b, offset, data)| == if data != [] && offset + |data| > |b| then offset + |data| else |b|
    ensures forall i | 0 <= i < |WriteAt(b, offset, data)| ::
              WriteAt(b, offset, data)[i] ==
              if offset <= i < offset + |data| then data[i - offset] else if i < |b| then b[i] else 0
  {}

  /** Read after write: the written bytes come back, the rest is as before, and a gap is zero. */
  lemma UpdateThenRead(b: Bytes, offset: nat, length: int, data: Bytes)
    requires offset + |data| <= MAX_INT64 && |b| <= MAX_INT64 && data != []
    ensures var w := Copied(length, data);
            var after := WriteAt(b, offset, w);
            && Delivered(after, ByteRange(offset, |w|)) == w
            && after[..Min(offset, |b|)] == b[..Min(offset, |b|)]
            && (forall i | |b| <= i < offset :: after[i] == 0)
            && (offset + |w| <= |b| ==> after[offset + |w|..] == b[offset + |w|..])
  {
    var w := Copied(length, data);
    var after := WriteAt(b, offset, w);
    WriteAtPointwise(b, offset, w);
    ReadRangeIsExact(after, ByteRange(offset, |w|));
  }

  predicate Fits(b: Bytes, offset: nat, data: Bytes) {
    offset + |data| <= |b|
  }

  /** The byte that a write of `x` at `o` puts at position `i`. */
  function Placed(o: nat, x: Bytes, i: int): Byte
    requires o <= i < o + |x|
  {
    x[i - o]
  }

  /** The two writes put the same byte wherever both of them write. */
  predicate AgreeOnOverlap(o: nat, x: Bytes, p: nat, y: Bytes) {
    forall i | o <= i < o + |x| && p <= i < p + |y| :: Placed(o, x, i) == Placed(p, y, i)
  }

  /** Writes that do not extend the blob commute exactly when they agree where they overlap. */
  lemma WritesCommute(b: Bytes, o: nat, x: Bytes, p: nat, y: Bytes)
    requires Fits(b, o, x) && Fits(b, p, y)
    ensures WriteAt(WriteAt(b, o, x), p, y) == WriteAt(WriteAt(b, p, y), o, x) <==> AgreeOnOverlap(o, x, p, y)
  {
    var xy, yx := WriteAt(WriteAt(b, o, x), p, y), WriteAt(WriteAt(b, p, y), o, x);
    WriteAtPointwise(b, o, x);
    WriteAtPointwise(b, p, y);
    WriteAtPointwise(WriteAt(b, o, x), p, y);
    WriteAtPointwise(WriteAt(b, p, y), o, x);
    assert |xy| == |yx| == |b|;
    forall i | o <= i < o + |x| && p <= i < p + |y|
      ensures xy[i] == Placed(p, y, i) && yx[i] == Placed(o, x, i)
    {}
    if AgreeOnOverlap(o, x, p, y) {
      forall i | 0 <= i < |b| ensures xy[i] == yx[i] {}
    }
  }

  /** A write of `data` at `offset`. */
  datatype Patch = Patch(offset: nat, data: Bytes)

  predicate Touches(w: Patch, i: int) {
    w.offset <= i < w.offset + |w.data|
  }

  predicate Covered(writes: seq<Patch>, i: int) {
    exists w | w in writes :: Touches(w, i)
  }

  predicate AllFit(writes: seq<Patch>, b: Bytes) {
    forall w | w in writes :: Fits(b, w.offset, w.data)
  }

  /** What is written is what the target holds there. */
  predicate Agrees(w: Patch, target: Bytes)
    requires Fits(target, w.offset, w.data)
  {
    w.data == target[w.offset..w.offset + |w.data|]
  }

  function WriteAll(b: Bytes, writes: seq<Patch>): Bytes
    decreases |writes|
  {
    if writes == [] then b
    else
      var last := writes[|writes| - 1];
      WriteAt(WriteAll(b, writes[..|writes| - 1]), last.offset, last.data)
  }

  lemma AgreesEverywhere(w: Patch, target: Bytes)
    requires Fits(target, w.offset, w.data) && Agrees(w, target)
    ensures forall i | Touches(w, i) :: w.data[i - w.offset] == target[i]
  {}

  lemma CoveredByOneMore(writes: seq<Patch>, w: Patch, i: int)
    ensures Covered(writes + [w], i) <==> Covered(writes, i) || Touches(w, i)
  {
    assert w in writes + [w];
  }

  /** A position that no write touches stays, and one that only agreeing writes touch becomes the target's. */
  lemma {:induction false} WriteAllPointwise(b: Bytes, writes: seq<Patch>, target: Bytes)
    requires |b| == |target| && AllFit(writes, b)
    ensures |WriteAll(b, writes)| == |b|
    ensures forall i | 0 <= i < |b| && !Covered(writes, i) :: WriteAll(b, writes)[i] == b[i]
    ensures (forall w | w in writes :: Agrees(w, target)) ==>
              forall i | 0 <= i < |b| && Covered(writes, i) :: WriteAll(b, writes)[i] == target[i]
    decreases |writes|
  {
    if writes != [] {
      hide WriteAt, Covered, Agrees;
      var init, last := writes[..|writes| - 1], writes[|writes| - 1];
      assert writes == init + [last];
      WriteAllPointwise(b, init, target);
      WriteAtPointwise(WriteAll(b, init), last.offset, last.data);
      forall i | 0 <= i < |b| ensures Covered(writes, i) <==> Covered(init, i) || Touches(last, i) {
        CoveredByOneMore(init, last, i);
      }
      if forall w | w in writes :: Agrees(w, target) {
        assert Agrees(last, target);
        AgreesEverywhere(last, target);
      }
    }
  }

  lemma LastWriteWins(b: Bytes, writes: seq<Patch>, w: Patch, i: int)
    requires AllFit(writes, b) && Fits(b, w.offset, w.data) && Touches(w, i)
    ensures i < |WriteAll(b, writes + [w])| && WriteAll(b, writes + [w])[i] == w.data[i - w.offset]
  {
    assert (writes + [w])[..|writes|] == writes;
    WriteAllPointwise(b, writes, b);
    WriteAtPointwise(WriteAll(b, writes), w.offset, w.data);
  }

  /** Some order puts a given write last. */
  lemma PutLast(writes: seq<Patch>, w: Patch) returns (others: seq<Patch>)
    requires w in writes
    ensures multiset(others + [w]) == multiset(writes)
    ensures forall v | v in others :: v in writes
  {
    var k :| 0 <= k < |writes| && writes[k] == w;
    others := writes[..k] + writes[k + 1..];
    assert writes == writes[..k] + [w] + writes[k + 1..];
  }

  lemma AgreesPointwise(w: Patch, target: Bytes)
    requires Fits(target, w.offset, w.data) && forall i | Touches(w, i) :: w.data[i - w.offset] == target[i]
    ensures Agrees(w, target)
  {
    forall j | 0 <= j < |w.data| ensures w.data[j] == target[w.offset + j] {
      assert Touches(w, w.offset + j);
    }
  }

  ghost predicate EveryOrderGives(b: Bytes, writes: seq<Patch>, target: Bytes) {
    forall order | multiset(order) == multiset(writes) :: WriteAll(b, order) == target
  }

  predicate AllAgree(writes: seq<Patch>, target: Bytes)
    requires AllFit(writes, target)
  {
    forall w | w in writes :: Agrees(w, target)
  }

  predicate CoverDifferences(b: Bytes, target: Bytes, writes: seq<Patch>)
    requires |b| == |target|
  {
    forall i | 0 <= i < |b| && b[i] != target[i] :: Covered(writes, i)
  }

  /**
   * Writes within a blob produce the target in whatever order they are made, overlaps and all, exactly when
   * each of them agrees with the target and together they cover what differs.
   */
  lemma WritesInAnyOrder(b: Bytes, target: Bytes, writes: seq<Patch>)
    requires |b| == |target| && AllFit(writes, b)
    ensures EveryOrderGives(b, writes, target) <==> AllAgree(writes, target) && CoverDifferences(b, target, writes)
  {
    if AllAgree(writes, target) && CoverDifferences(b, target, writes) {
      forall order | multiset(order) == multiset(writes) ensures WriteAll(b, order) == target {
        AgreeingWritesSuffice(b, target, writes, order);
      }
    }
    if EveryOrderGives(b, writes, target) {
      WriteAllPointwise(b, writes, target);
      assert WriteAll(b, writes) == target;
      forall w | w in writes ensures Agrees(w, target) {
        AnyWriteMayBeLast(b, target, writes, w);
      }
    }
  }

  lemma AgreeingWritesSuffice(b: Bytes, target: Bytes, writes: seq<Patch>, order: seq<Patch>)
    requires |b| == |target| && AllFit(writes, b) && AllAgree(writes, target) && CoverDifferences(b, target, writes)
    requires multiset(order) == multiset(writes)
    ensures WriteAll(b, order) == target
  {
    SameWrites(order, writes);
    WriteAllPointwise(b, order, target);
    forall i | 0 <= i < |b| ensures WriteAll(b, order)[i] == target[i] {
      assert Covered(writes, i) ==> Covered(order, i);
    }
  }

  lemma AnyWriteMayBeLast(b: Bytes, target: Bytes, writes: seq<Patch>, w: Patch)
    requires |b| == |target| && AllFit(writes, b) && EveryOrderGives(b, writes, target) && w in writes
    ensures Agrees(w, target)
  {
    var others := PutLast(writes, w);
    assert WriteAll(b, others + [w]) == target;
    hide WriteAll;
    forall i | Touches(w, i) ensures w.data[i - w.offset] == target[i] {
      LastWriteWins(b, others, w, i);
    }
    AgreesPointwise(w, target);
  }

  lemma SameWrites(order: seq<Patch>, writes: seq<Patch>)
    requires multiset(order) == multiset(writes)
    ensures forall w :: w in order <==> w in writes
  {
    forall w ensures w in order <==> w in writes {
      assert w in multiset(order) <==> w in order;
      assert w in multiset(writes) <==> w in writes;
    }
  }
}

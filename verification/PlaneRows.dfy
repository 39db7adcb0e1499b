/** Copying the rows of a plane between two layouts with different strides. */
module PlaneRows {

  type Bytes = seq<bv8>

  /** `count` rows of `size` bytes; row i starts at `dst + i * dstStride` and `src + i * srcStride`. */
  datatype Rows = Rows(dst: nat, dstStride: nat, src: nat, srcStride: nat, size: int, count: nat)

  function Mirror(r: Rows): Rows {
    Rows(r.src, r.srcStride, r.dst, r.dstStride, r.size, r.count)
  }

  function RowStart(start: nat, stride: nat, i: nat): nat {
    start + i * stride
  }

  /** Every row ends inside a memory of this length. */
  predicate RowsIn(length: nat, start: nat, stride: nat, size: int, count: nat) {
    forall i: nat | i < count :: RowStart(start, stride, i) + size <= length
  }

  /** Nothing is asked of rows that are never touched because their size is refused. */
  predicate Fits(dstLength: nat, srcLength: nat, r: Rows) {
    r.size > 0 ==> && RowsIn(dstLength, r.dst, r.dstStride, r.size, r.count)
                   && RowsIn(srcLength, r.src, r.srcStride, r.size, r.count)
  }

  /** memcpy_s refuses an empty destination, and to it a negative size is a huge one. */
  predicate Copyable(r: Rows) {
    r.count == 0 || r.size > 0
  }

  function Slice(s: Bytes, at: nat, size: nat): (t: Bytes)
    requires at + size <= |s|
    ensures |t| == size
    ensures forall j | 0 <= j < size :: t[j] == s[at + j]
  {
    s[at..at + size]
  }

  function CopyRow(dst: Bytes, at: nat, src: Bytes, from: nat, size: nat): (t: Bytes)
    requires at + size <= |dst| && from + size <= |src|
    ensures |t| == |dst|
  {
    dst[..at] + Slice(src, from, size) + dst[at + size..]
  }

  lemma CopyRowIsExact(dst: Bytes, at: nat, src: Bytes, from: nat, size: nat)
    requires at + size <= |dst| && from + size <= |src|
    ensures Slice(CopyRow(dst, at, src, from, size), at, size) == Slice(src, from, size)
    ensures forall k | 0 <= k < |dst| && !(at <= k < at + size) :: CopyRow(dst, at, src, from, size)[k] == dst[k]
    ensures Slice(dst, at, size) == Slice(src, from, size) ==> CopyRow(dst, at, src, from, size) == dst
  {
    if Slice(dst, at, size) == Slice(src, from, size) {
      assert dst == dst[..at] + Slice(dst, at, size) + dst[at + size..];
    }
  }

  lemma CopyRowKeepsEarlier(dst: Bytes, at: nat, src: Bytes, from: nat, size: nat, earlier: nat, length: nat)
    requires at + size <= |dst| && from + size <= |src| && earlier + length <= at
    ensures Slice(CopyRow(dst, at, src, from, size), earlier, length) == Slice(dst, earlier, length)
  {
  }

  /** The destination after the first `n` rows, copied in order. */
  function CopiedRows(dst: Bytes, src: Bytes, r: Rows, n: nat): (t: Bytes)
    requires Fits(|dst|, |src|, r) && r.size > 0 && n <= r.count
    ensures |t| == |dst|
  {
    if n == 0 then dst
    else CopyRow(CopiedRows(dst, src, r, n - 1), RowStart(r.dst, r.dstStride, n - 1),
                 src, RowStart(r.src, r.srcStride, n - 1), r.size)
  }

  function Copied(dst: Bytes, src: Bytes, r: Rows): (t: Bytes)
    requires Fits(|dst|, |src|, r)
    ensures |t| == |dst|
  {
    if r.size > 0 then CopiedRows(dst, src, r, r.count) else dst
  }

  predicate InRow(start: nat, stride: nat, size: int, i: nat, k: nat) {
    RowStart(start, stride, i) <= k < RowStart(start, stride, i) + size
  }

  /** Byte `k` belongs to none of the rows. */
  predicate Untouched(start: nat, stride: nat, size: int, count: nat, k: nat) {
    forall i: nat | i < count :: !InRow(start, stride, size, i, k)
  }

  function Row(s: Bytes, start: nat, stride: nat, size: nat, count: nat, i: nat): (row: Bytes)
    requires RowsIn(|s|, start, stride, size, count) && i < count
    ensures |row| == size
  {
    Slice(s, RowStart(start, stride, i), size)
  }

  /** Row i is the same on both sides. */
  predicate SameRow(dst: Bytes, src: Bytes, r: Rows, i: nat)
    requires Fits(|dst|, |src|, r) && r.size > 0 && i < r.count
  {
    Row(dst, r.dst, r.dstStride, r.size, r.count, i) == Row(src, r.src, r.srcStride, r.size, r.count, i)
  }

  predicate SameRows(dst: Bytes, src: Bytes, r: Rows)
    requires Fits(|dst|, |src|, r)
  {
    r.size > 0 ==> forall i: nat | i < r.count :: SameRow(dst, src, r, i)
  }

  /** Rows no longer than their stride do not run into one another. */
  lemma {:induction false} RowsApart(start: nat, stride: nat, size: int, i: nat, k: nat)
    requires size <= stride && i < k
    ensures RowStart(start, stride, i) + size <= RowStart(start, stride, k)
  {
    assert k * stride == (k - 1) * stride + stride;
    if i < k - 1 {
      RowsApart(start, stride, size, i, k - 1);
    }
  }

  lemma RowInside(length: nat, start: nat, stride: nat, size: int, count: nat, i: nat)
    requires RowsIn(length, start, stride, size, count) && i < count
    ensures RowStart(start, stride, i) + size <= length
  {
  }

  lemma {:induction false} RowsKeepOthers(dst: Bytes, src: Bytes, r: Rows, n: nat, k: nat)
    requires Fits(|dst|, |src|, r) && r.size > 0 && n <= r.count && k < |dst|
    requires Untouched(r.dst, r.dstStride, r.size, n, k)
    ensures CopiedRows(dst, src, r, n)[k] == dst[k]
  {
    if n > 0 {
      RowsKeepOthers(dst, src, r, n - 1, k);
      CopyRowIsExact(CopiedRows(dst, src, r, n - 1), RowStart(r.dst, r.dstStride, n - 1),
                     src, RowStart(r.src, r.srcStride, n - 1), r.size);
      assert !InRow(r.dst, r.dstStride, r.size, n - 1, k);
    }
  }

  lemma LastRowIsWritten(dst: Bytes, src: Bytes, r: Rows, i: nat)
    requires Fits(|dst|, |src|, r) && i < r.count && 0 < r.size
    ensures SameRow(CopiedRows(dst, src, r, i + 1), src, r, i)
  {
    CopyRowIsExact(CopiedRows(dst, src, r, i), RowStart(r.dst, r.dstStride, i), src, RowStart(r.src, r.srcStride, i),
        r.size);
  }

  lemma EarlierRowIsKept(dst: Bytes, src: Bytes, r: Rows, n: nat, i: nat)
    requires Fits(|dst|, |src|, r) && i < n < r.count && 0 < r.size <= r.dstStride
    requires SameRow(CopiedRows(dst, src, r, n), src, r, i)
    ensures SameRow(CopiedRows(dst, src, r, n + 1), src, r, i)
  {
    RowsApart(r.dst, r.dstStride, r.size, i, n);
    CopyRowKeepsEarlier(CopiedRows(dst, src, r, n), RowStart(r.dst, r.dstStride, n),
                        src, RowStart(r.src, r.srcStride, n), r.size, RowStart(r.dst, r.dstStride, i), r.size);
  }

  lemma {:induction false} RowsAreWritten(dst: Bytes, src: Bytes, r: Rows, n: nat, i: nat)
    requires Fits(|dst|, |src|, r) && i < n <= r.count && 0 < r.size <= r.dstStride
    ensures SameRow(CopiedRows(dst, src, r, n), src, r, i)
  {
    if i == n - 1 {
      LastRowIsWritten(dst, src, r, i);
    } else {
      RowsAreWritten(dst, src, r, n - 1, i);
      EarlierRowIsKept(dst, src, r, n - 1, i);
    }
  }

  lemma {:induction false} SameRowsStay(dst: Bytes, src: Bytes, r: Rows, n: nat)
    requires Fits(|dst|, |src|, r) && r.size > 0 && n <= r.count
    requires SameRows(dst, src, r)
    ensures CopiedRows(dst, src, r, n) == dst
  {
    if n > 0 {
      SameRowsStay(dst, src, r, n - 1);
      assert SameRow(dst, src, r, n - 1);
      CopyRowIsExact(dst, RowStart(r.dst, r.dstStride, n - 1), src, RowStart(r.src, r.srcStride, n - 1), r.size);
    }
  }

  /** A copy changes no byte outside the rows it addresses. */
  lemma CopyKeepsOthers(dst: Bytes, src: Bytes, r: Rows, k: nat)
    requires Fits(|dst|, |src|, r) && k < |dst|
    requires Untouched(r.dst, r.dstStride, r.size, r.count, k)
    ensures Copied(dst, src, r)[k] == dst[k]
  {
    if r.size > 0 {
      RowsKeepOthers(dst, src, r, r.count, k);
    }
  }

  /** It makes every destination row equal to the source row of the same number. */
  lemma CopyIsExact(dst: Bytes, src: Bytes, r: Rows)
    requires Fits(|dst|, |src|, r) && r.size <= r.dstStride
    ensures SameRows(Copied(dst, src, r), src, r)
  {
    if r.size > 0 {
      forall i: nat | i < r.count
        ensures SameRow(Copied(dst, src, r), src, r, i)
      {
        RowsAreWritten(dst, src, r, r.count, i);
      }
    }
  }

  /** It changes nothing exactly when the rows already agree. */
  lemma CopyChangesNothingIff(dst: Bytes, src: Bytes, r: Rows)
    requires Fits(|dst|, |src|, r) && r.size <= r.dstStride
    ensures Copied(dst, src, r) == dst <==> SameRows(dst, src, r)
  {
    CopyIsExact(dst, src, r);
    if r.size > 0 && SameRows(dst, src, r) {
      SameRowsStay(dst, src, r, r.count);
    }
  }
}

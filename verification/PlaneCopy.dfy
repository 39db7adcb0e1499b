/** Copies between a pixelmap and a surface buffer: layouts, planes and what a round trip keeps. */
module PlaneLayout {
  import opened Basics
  import opened PlaneRows

  /** Zero in a `uv` field means that the pixelmap does not say. */
  datatype PixelmapInfo = PixelmapInfo(width: nat, height: nat, rowStride: nat, uvStride: nat, uvOffset: nat,
                                       uvHeight: nat, isNv12: bool)

  datatype Plane = Plane(columnStride: nat, offset: nat)

  /** `first` and `second` are planes 1 and 2 of the buffer. */
  datatype PlanesInfo = PlanesInfo(first: Plane, second: Plane)

  datatype BufferInfo = BufferInfo(stride: nat, height: nat, planes: Option<PlanesInfo>)

  /** A row stride above one and a half buffer strides is taken to count 16-bit samples. */
  function PixelmapStride(p: PixelmapInfo, b: BufferInfo): nat {
    if 2 * p.rowStride > 3 * b.stride then p.rowStride / 2 else p.rowStride
  }

  datatype UvPlane = UvPlane(offset: nat, stride: nat, height: nat)

  function PixelmapUv(p: PixelmapInfo, b: BufferInfo): UvPlane {
    var stride := PixelmapStride(p, b);
    UvPlane(if p.uvOffset > 0 then p.uvOffset else stride * p.height,
            if p.uvStride > 0 then p.uvStride else stride,
            if p.uvHeight > 0 then p.uvHeight else (p.height + 1) / 2)
  }

  /** With plane information the height is what fits before the plane, not the height of the plane. */
  function BufferUv(p: PixelmapInfo, b: BufferInfo): UvPlane {
    match b.planes
    case None => UvPlane(b.stride * b.height, b.stride, (b.height + 1) / 2)
    case Some(info) =>
      var plane := if p.isNv12 then info.first else info.second;
      UvPlane(plane.offset, plane.columnStride,
              if plane.columnStride != 0 then plane.offset / plane.columnStride else (b.height + 1) / 2)
  }

  /** The Y rows on the way from the pixelmap to the buffer. */
  function YRows(p: PixelmapInfo, b: BufferInfo): Rows {
    var stride := PixelmapStride(p, b);
    Rows(0, b.stride, 0, stride, Min(stride, b.stride), p.height)
  }

  function UvRows(p: PixelmapInfo, b: BufferInfo): Rows {
    var from, to := PixelmapUv(p, b), BufferUv(p, b);
    Rows(to.offset, to.stride, from.offset, from.stride, Min(from.stride, to.stride), Min(from.height, to.height))
  }

  function RgbaToBuffer(p: PixelmapInfo, b: BufferInfo): Rows {
    Rows(0, b.stride, 0, PixelmapStride(p, b), p.width * 4, p.height)
  }

  function RgbaToPixelmap(p: PixelmapInfo, b: BufferInfo): Rows {
    var stride := PixelmapStride(p, b);
    Rows(0, stride, 0, b.stride, Min(b.stride, stride), b.height)
  }

  datatype Outcome = Outcome(ok: bool, bytes: Bytes)

  function CopyPlane(dst: Bytes, src: Bytes, r: Rows): Outcome
    requires Fits(|dst|, |src|, r)
  {
    if Copyable(r) then Outcome(true, Copied(dst, src, r)) else Outcome(false, dst)
  }

  /** Y first; the UV plane is not reached when the Y plane is refused. */
  function CopyPlanes(dst: Bytes, src: Bytes, y: Rows, uv: Rows): (o: Outcome)
    requires Fits(|dst|, |src|, y) && Fits(|dst|, |src|, uv)
    ensures |o.bytes| == |dst|
  {
    var luma := CopyPlane(dst, src, y);
    if luma.ok then CopyPlane(luma.bytes, src, uv) else luma
  }

  /** No row is longer than the distance to the next. */
  predicate Tidy(r: Rows) {
    r.size <= r.dstStride && r.size <= r.srcStride
  }

  lemma LayoutIsTidy(p: PixelmapInfo, b: BufferInfo)
    ensures Tidy(YRows(p, b)) && Tidy(UvRows(p, b))
  {
  }

  /** The bytes a failed or successful copy leaves alone: those outside both planes. */
  lemma OnlyPlanesChange(dst: Bytes, src: Bytes, y: Rows, uv: Rows, k: nat)
    requires Fits(|dst|, |src|, y) && Fits(|dst|, |src|, uv) && k < |dst|
    requires Untouched(y.dst, y.dstStride, y.size, y.count, k) && Untouched(uv.dst, uv.dstStride, uv.size, uv.count, k)
    ensures CopyPlanes(dst, src, y, uv).bytes[k] == dst[k]
  {
    CopyKeepsOthers(dst, src, y, k);
    CopyKeepsOthers(Copied(dst, src, y), src, uv, k);
  }

  /** The pixelmap after a copy to the buffer and back. */
  function ThereAndBack(p: Bytes, b: Bytes, y: Rows, uv: Rows): Outcome
    requires Fits(|b|, |p|, y) && Fits(|b|, |p|, uv)
  {
    CopyPlanes(p, CopyPlanes(b, p, y, uv).bytes, Mirror(y), Mirror(uv))
  }

  predicate SharedByte(y: Rows, uv: Rows, i: nat, j: nat, m: nat, n: nat) {
    && i < y.count && j < y.size && m < uv.count && n < uv.size
    && RowStart(y.dst, y.dstStride, i) + j == RowStart(uv.dst, uv.dstStride, m) + n
  }

  predicate SourceAgrees(p: Bytes, y: Rows, uv: Rows, i: nat, j: nat, m: nat, n: nat) {
    var k, l := RowStart(y.src, y.srcStride, i) + j, RowStart(uv.src, uv.srcStride, m) + n;
    k < |p| && l < |p| && p[k] == p[l]
  }

  /** Wherever a Y byte and a UV byte go to the same buffer byte, they are equal. */
  ghost predicate Agree(p: Bytes, y: Rows, uv: Rows) {
    forall i: nat, j: nat, m: nat, n: nat | SharedByte(y, uv, i, j, m, n) :: SourceAgrees(p, y, uv, i, j, m, n)
  }

  lemma ByteOfRow(s: Bytes, t: Bytes, r: Rows, i: nat, j: nat)
    requires Fits(|s|, |t|, r) && i < r.count && j < r.size && SameRow(s, t, r, i)
    ensures RowStart(r.dst, r.dstStride, i) + j < |s| && RowStart(r.src, r.srcStride, i) + j < |t|
    ensures s[RowStart(r.dst, r.dstStride, i) + j] == t[RowStart(r.src, r.srcStride, i) + j]
  {
    assert RowStart(r.dst, r.dstStride, i) + r.size <= |s|;
    assert RowStart(r.src, r.srcStride, i) + r.size <= |t|;
    assert Row(s, r.dst, r.dstStride, r.size, r.count, i)[j] == Row(t, r.src, r.srcStride, r.size, r.count, i)[j];
  }

  /** One byte of a row just copied. */
  lemma CopiedByte(dst: Bytes, src: Bytes, r: Rows, i: nat, j: nat)
    requires Fits(|dst|, |src|, r) && Tidy(r) && i < r.count && j < r.size
    ensures RowStart(r.dst, r.dstStride, i) + j < |dst| && RowStart(r.src, r.srcStride, i) + j < |src|
    ensures Copied(dst, src, r)[RowStart(r.dst, r.dstStride, i) + j] == src[RowStart(r.src, r.srcStride, i) + j]
  {
    CopyIsExact(dst, src, r);
    assert SameRow(Copied(dst, src, r), src, r, i);
    ByteOfRow(Copied(dst, src, r), src, r, i, j);
  }

  /** After the copy to the buffer its byte for (i, j) of the Y plane holds that byte, or a UV byte over it. */
  lemma LumaInBuffer(p: Bytes, b: Bytes, y: Rows, uv: Rows, i: nat, j: nat)
    requires Fits(|b|, |p|, y) && Fits(|b|, |p|, uv) && Tidy(y) && Tidy(uv) && Copyable(uv)
    requires i < y.count && j < y.size && Agree(p, y, uv)
    ensures RowStart(y.dst, y.dstStride, i) + j < |b| && RowStart(y.src, y.srcStride, i) + j < |p|
    ensures CopyPlanes(b, p, y, uv).bytes[RowStart(y.dst, y.dstStride, i) + j] == p[RowStart(y.src, y.srcStride, i) + j]
  {
    var luma := Copied(b, p, y);
    CopiedByte(b, p, y, i, j);
    var k := RowStart(y.dst, y.dstStride, i) + j;
    if Untouched(uv.dst, uv.dstStride, uv.size, uv.count, k) {
      CopyKeepsOthers(luma, p, uv, k);
    } else {
      var m: nat :| m < uv.count && InRow(uv.dst, uv.dstStride, uv.size, m, k);
      var n := k - RowStart(uv.dst, uv.dstStride, m);
      CopiedByte(luma, p, uv, m, n);
      assert SharedByte(y, uv, i, j, m, n) && SourceAgrees(p, y, uv, i, j, m, n);
    }
  }

  lemma LumaRowsSurvive(p: Bytes, b: Bytes, y: Rows, uv: Rows)
    requires Fits(|b|, |p|, y) && Fits(|b|, |p|, uv) && Tidy(y) && Tidy(uv) && Copyable(uv)
    requires Agree(p, y, uv)
    ensures SameRows(p, CopyPlanes(b, p, y, uv).bytes, Mirror(y))
  {
    var filled := CopyPlanes(b, p, y, uv).bytes;
    if y.size > 0 {
      forall i: nat | i < y.count
        ensures SameRow(p, filled, Mirror(y), i)
      {
        var there, here := Row(filled, y.dst, y.dstStride, y.size, y.count, i),
            Row(p, y.src, y.srcStride, y.size, y.count, i);
        forall j: nat | j < y.size
          ensures there[j] == here[j]
        {
          LumaInBuffer(p, b, y, uv, i, j);
        }
        assert there == here;
      }
    }
  }

  lemma ChromaRowsSurvive(p: Bytes, b: Bytes, y: Rows, uv: Rows)
    requires Fits(|b|, |p|, y) && Fits(|b|, |p|, uv) && Tidy(uv) && Copyable(y) && Copyable(uv)
    ensures SameRows(p, CopyPlanes(b, p, y, uv).bytes, Mirror(uv))
  {
    var luma := Copied(b, p, y);
    CopyIsExact(luma, p, uv);
    if uv.size > 0 {
      forall i: nat | i < uv.count
        ensures SameRow(p, Copied(luma, p, uv), Mirror(uv), i)
      {
        assert SameRow(Copied(luma, p, uv), p, uv, i);
      }
    }
  }

  /** Copying to the buffer and back restores the pixelmap when planes that meet in the buffer agree there. */
  lemma AgreeingPlanesAreRestored(p: Bytes, b: Bytes, y: Rows, uv: Rows)
    requires Fits(|b|, |p|, y) && Fits(|b|, |p|, uv) && Tidy(y) && Tidy(uv) && Copyable(y) && Copyable(uv)
    requires Agree(p, y, uv)
    ensures ThereAndBack(p, b, y, uv) == Outcome(true, p)
  {
    var filled := CopyPlanes(b, p, y, uv).bytes;
    LumaRowsSurvive(p, b, y, uv);
    CopyChangesNothingIff(p, filled, Mirror(y));
    ChromaRowsSurvive(p, b, y, uv);
    CopyChangesNothingIff(p, filled, Mirror(uv));
  }

  /** Every Y row of the source ends before its UV plane. */
  predicate SourcePlanesApart(y: Rows, uv: Rows) {
    RowsIn(uv.src, y.src, y.srcStride, y.size, y.count)
  }

  predicate TargetPlanesApart(y: Rows, uv: Rows) {
    RowsIn(uv.dst, y.dst, y.dstStride, y.size, y.count)
  }

  /** A Y byte of the pixelmap comes from the buffer, and the UV rows stay clear of it. */
  lemma LumaComesBack(p: Bytes, filled: Bytes, y: Rows, uv: Rows, i: nat, j: nat)
    requires Fits(|filled|, |p|, y) && Fits(|filled|, |p|, uv) && Tidy(y) && SourcePlanesApart(y, uv)
    requires i < y.count && j < y.size
    ensures RowStart(y.dst, y.dstStride, i) + j < |filled| && RowStart(y.src, y.srcStride, i) + j < |p|
    ensures Copied(Copied(p, filled, Mirror(y)), filled, Mirror(uv))[RowStart(y.src, y.srcStride, i) + j]
         == filled[RowStart(y.dst, y.dstStride, i) + j]
  {
    hide CopiedRows;
    var back := Copied(p, filled, Mirror(y));
    CopiedByte(p, filled, Mirror(y), i, j);
    LumaIsClear(y, uv, i, j);
    CopyKeepsOthers(back, filled, Mirror(uv), RowStart(y.src, y.srcStride, i) + j);
  }

  lemma LumaIsClear(y: Rows, uv: Rows, i: nat, j: nat)
    requires SourcePlanesApart(y, uv) && i < y.count && j < y.size
    ensures Untouched(uv.src, uv.srcStride, uv.size, uv.count, RowStart(y.src, y.srcStride, i) + j)
  {
    RowInside(uv.src, y.src, y.srcStride, y.size, y.count, i);
  }

  lemma RestoredPlanesAgreeAt(p: Bytes, b: Bytes, y: Rows, uv: Rows, i: nat, j: nat, m: nat, n: nat)
    requires Fits(|b|, |p|, y) && Fits(|b|, |p|, uv) && Tidy(y) && Tidy(uv) && SourcePlanesApart(y, uv)
    requires ThereAndBack(p, b, y, uv).bytes == p
    requires SharedByte(y, uv, i, j, m, n)
    ensures SourceAgrees(p, y, uv, i, j, m, n)
  {
    CopiedByte(Copied(b, p, y), p, uv, m, n);
    LumaComesBack(p, CopyPlanes(b, p, y, uv).bytes, y, uv, i, j);
  }

  /** For a pixelmap whose own planes are apart that condition is also necessary. */
  lemma RoundTripIff(p: Bytes, b: Bytes, y: Rows, uv: Rows)
    requires Fits(|b|, |p|, y) && Fits(|b|, |p|, uv) && Tidy(y) && Tidy(uv) && Copyable(y) && Copyable(uv)
    requires SourcePlanesApart(y, uv)
    ensures ThereAndBack(p, b, y, uv) == Outcome(true, p) <==> Agree(p, y, uv)
  {
    if Agree(p, y, uv) {
      AgreeingPlanesAreRestored(p, b, y, uv);
    }
    if ThereAndBack(p, b, y, uv) == Outcome(true, p) {
      forall i: nat, j: nat, m: nat, n: nat | SharedByte(y, uv, i, j, m, n)
        ensures SourceAgrees(p, y, uv, i, j, m, n)
      {
        RestoredPlanesAgreeAt(p, b, y, uv, i, j, m, n);
      }
    }
  }

  /** Planes that are apart share no byte. */
  lemma PlanesApartAgree(p: Bytes, y: Rows, uv: Rows)
    requires TargetPlanesApart(y, uv)
    ensures Agree(p, y, uv)
  {
    forall i: nat, j: nat, m: nat, n: nat | i < y.count && j < y.size
      ensures !SharedByte(y, uv, i, j, m, n)
    {
      RowInside(uv.dst, y.dst, y.dstStride, y.size, y.count, i);
    }
  }

  /** The round trip of an NV12 or NV21 pixelmap: all strides, offsets and heights at which the planes fit
      their memories and the UV plane of the buffer starts after its Y rows. */
  lemma Nv12RoundTrip(p: PixelmapInfo, b: BufferInfo, pixels: Bytes, data: Bytes)
    requires Fits(|data|, |pixels|, YRows(p, b)) && Fits(|data|, |pixels|, UvRows(p, b))
    requires Copyable(YRows(p, b)) && Copyable(UvRows(p, b))
    requires TargetPlanesApart(YRows(p, b), UvRows(p, b))
    ensures ThereAndBack(pixels, data, YRows(p, b), UvRows(p, b)) == Outcome(true, pixels)
  {
    LayoutIsTidy(p, b);
    hide YRows, UvRows;
    PlanesApartAgree(pixels, YRows(p, b), UvRows(p, b));
    hide TargetPlanesApart, Agree;
    AgreeingPlanesAreRestored(pixels, data, YRows(p, b), UvRows(p, b));
  }

  /** Without plane information the buffer's planes are apart exactly when the pixelmap is not taller than the
      buffer: the Y rows are counted by the pixelmap, the place of the UV plane by the buffer. */
  lemma PlanesApartIff(p: PixelmapInfo, b: BufferInfo)
    requires b.planes.None? && YRows(p, b).size > 0
    ensures TargetPlanesApart(YRows(p, b), UvRows(p, b)) <==> p.height <= b.height
  {
    var y, uv := YRows(p, b), UvRows(p, b);
    if p.height <= b.height {
      forall i: nat | i < y.count
        ensures RowStart(0, y.dstStride, i) + y.size <= uv.dst
      {
        RowsApart(0, b.stride, y.size, i, b.height);
      }
    } else {
      assert RowStart(0, y.dstStride, b.height) + y.size > uv.dst;
    }
  }

  /** In the buffer the first UV byte of a taller pixelmap goes over its first Y row that has no room there. */
  lemma TallPixelmapOverlaps(p: PixelmapInfo, b: BufferInfo)
    requires b.planes.None? && YRows(p, b).size > 0 && UvRows(p, b).size > 0 && UvRows(p, b).count > 0
    requires p.height > b.height
    ensures SharedByte(YRows(p, b), UvRows(p, b), b.height, 0, 0, 0)
  {
  }

  /** So the round trip loses a taller pixelmap, unless these two bytes of it happen to be equal. */
  lemma TallPixelmapIsLost(p: PixelmapInfo, b: BufferInfo, pixels: Bytes, data: Bytes)
    requires b.planes.None? && p.height > b.height
    requires Fits(|data|, |pixels|, YRows(p, b)) && Fits(|data|, |pixels|, UvRows(p, b))
    requires YRows(p, b).size > 0 && UvRows(p, b).size > 0 && UvRows(p, b).count > 0
    requires SourcePlanesApart(YRows(p, b), UvRows(p, b))
    requires !SourceAgrees(pixels, YRows(p, b), UvRows(p, b), b.height, 0, 0, 0)
    ensures ThereAndBack(pixels, data, YRows(p, b), UvRows(p, b)) != Outcome(true, pixels)
  {
    LayoutIsTidy(p, b);
    TallPixelmapOverlaps(p, b);
    hide YRows, UvRows;
    if ThereAndBack(pixels, data, YRows(p, b), UvRows(p, b)) == Outcome(true, pixels) {
      RestoredPlanesAgreeAt(pixels, data, YRows(p, b), UvRows(p, b), b.height, 0, 0, 0);
    }
  }

  /** A pixel row is no longer than a row on either side. */
  predicate PixelsFit(p: PixelmapInfo, b: BufferInfo) {
    p.width * 4 <= b.stride && p.width * 4 <= PixelmapStride(p, b)
  }

  /** Byte j of row i is padding, or belongs to a row the pixelmap does not have. */
  predicate IsPadding(p: PixelmapInfo, i: nat, j: nat) {
    i >= p.height || j >= p.width * 4
  }

  predicate PaddingAgrees(p: PixelmapInfo, b: BufferInfo, pixels: Bytes, data: Bytes, i: nat, j: nat) {
    var k, l := RowStart(0, PixelmapStride(p, b), i) + j, RowStart(0, b.stride, i) + j;
    k < |pixels| && l < |data| && pixels[k] == data[l]
  }

  lemma PaddingIsUntouched(p: PixelmapInfo, b: BufferInfo, i: nat, j: nat)
    requires PixelsFit(p, b) && IsPadding(p, i, j) && j < b.stride
    ensures Untouched(0, b.stride, p.width * 4, p.height, RowStart(0, b.stride, i) + j)
  {
    var stride, size, at := b.stride, p.width * 4, RowStart(0, b.stride, i) + j;
    forall k: nat | k < p.height
      ensures !InRow(0, stride, size, k, at)
    {
      if k < i {
        RowsApart(0, b.stride, b.stride, k, i);
      } else if i < k {
        RowsApart(0, b.stride, b.stride, i, k);
      }
    }
  }

  /** What the buffer offers for byte j of row i: the pixelmap's own byte, or its old one where there is no pixel. */
  lemma RgbaByteInBuffer(p: PixelmapInfo, b: BufferInfo, pixels: Bytes, data: Bytes, i: nat, j: nat)
    requires Fits(|data|, |pixels|, RgbaToBuffer(p, b)) && Fits(|pixels|, |data|, RgbaToPixelmap(p, b))
    requires PixelsFit(p, b) && i < b.height && j < RgbaToPixelmap(p, b).size
    ensures var k, l := RowStart(0, PixelmapStride(p, b), i) + j, RowStart(0, b.stride, i) + j;
            && k < |pixels| && l < |data|
            && Copied(data, pixels, RgbaToBuffer(p, b))[l] == if IsPadding(p, i, j) then data[l] else pixels[k]
  {
    var back := RgbaToPixelmap(p, b);
    RowInside(|pixels|, back.dst, back.dstStride, back.size, back.count, i);
    RowInside(|data|, back.src, back.srcStride, back.size, back.count, i);
    if IsPadding(p, i, j) {
      PaddingIsUntouched(p, b, i, j);
      CopyKeepsOthers(data, pixels, RgbaToBuffer(p, b), RowStart(0, b.stride, i) + j);
    } else {
      CopiedByte(data, pixels, RgbaToBuffer(p, b), i, j);
    }
  }

  /** The round trip of an RGBA or BGRA pixelmap keeps every pixel, but takes the padding at the end of its
      rows from the buffer: it changes nothing exactly when that padding was already the same. */
  lemma RgbaRoundTripIff(p: PixelmapInfo, b: BufferInfo, pixels: Bytes, data: Bytes)
    requires Fits(|data|, |pixels|, RgbaToBuffer(p, b)) && Fits(|pixels|, |data|, RgbaToPixelmap(p, b))
    requires PixelsFit(p, b)
    ensures Copied(pixels, Copied(data, pixels, RgbaToBuffer(p, b)), RgbaToPixelmap(p, b)) == pixels
            <==> forall i: nat, j: nat | i < b.height && j < RgbaToPixelmap(p, b).size && IsPadding(p, i, j) ::
                   PaddingAgrees(p, b, pixels, data, i, j)
  {
    var back := RgbaToPixelmap(p, b);
    var filled := Copied(data, pixels, RgbaToBuffer(p, b));
    CopyChangesNothingIff(pixels, filled, back);
    if SameRows(pixels, filled, back) {
      forall i: nat, j: nat | i < b.height && j < back.size && IsPadding(p, i, j)
        ensures PaddingAgrees(p, b, pixels, data, i, j)
      {
        assert SameRow(pixels, filled, back, i);
        ByteOfRow(pixels, filled, back, i, j);
        RgbaByteInBuffer(p, b, pixels, data, i, j);
      }
    }
    if forall i: nat, j: nat | i < b.height && j < back.size && IsPadding(p, i, j) ::
         PaddingAgrees(p, b, pixels, data, i, j) {
      forall i: nat | i < back.count && back.size > 0
        ensures SameRow(pixels, filled, back, i)
      {
        RgbaRowIsSame(p, b, pixels, data, i);
      }
    }
  }

  lemma RgbaRowIsSame(p: PixelmapInfo, b: BufferInfo, pixels: Bytes, data: Bytes, i: nat)
    requires Fits(|data|, |pixels|, RgbaToBuffer(p, b)) && Fits(|pixels|, |data|, RgbaToPixelmap(p, b))
    requires PixelsFit(p, b) && i < b.height && RgbaToPixelmap(p, b).size > 0
    requires forall j: nat | j < RgbaToPixelmap(p, b).size && IsPadding(p, i, j) ::
               PaddingAgrees(p, b, pixels, data, i, j)
    ensures SameRow(pixels, Copied(data, pixels, RgbaToBuffer(p, b)), RgbaToPixelmap(p, b), i)
  {
    var back := RgbaToPixelmap(p, b);
    var filled := Copied(data, pixels, RgbaToBuffer(p, b));
    var here, there := Row(pixels, back.dst, back.dstStride, back.size, back.count, i),
                       Row(filled, back.src, back.srcStride, back.size, back.count, i);
    forall j: nat | j < back.size
      ensures here[j] == there[j]
    {
      RgbaByteInBuffer(p, b, pixels, data, i, j);
    }
    assert here == there;
  }

  /** In any case the pixels themselves survive. */
  lemma RgbaPixelsSurvive(p: PixelmapInfo, b: BufferInfo, pixels: Bytes, data: Bytes, i: nat, j: nat)
    requires Fits(|data|, |pixels|, RgbaToBuffer(p, b)) && Fits(|pixels|, |data|, RgbaToPixelmap(p, b))
    requires PixelsFit(p, b) && i < p.height && i < b.height && j < p.width * 4
    ensures var k := RowStart(0, PixelmapStride(p, b), i) + j;
            && k < |pixels|
            && Copied(pixels, Copied(data, pixels, RgbaToBuffer(p, b)), RgbaToPixelmap(p, b))[k] == pixels[k]
  {
    RgbaByteInBuffer(p, b, pixels, data, i, j);
    CopiedByte(pixels, Copied(data, pixels, RgbaToBuffer(p, b)), RgbaToPixelmap(p, b), i, j);
  }
}

/** Which byte of the one memory goes to which byte of the other, written out. */
module PlanePlaces {
  import opened Basics
  import opened PlaneRows
  import opened PlaneLayout

  /** Byte j of Y row i. */
  function YInBuffer(b: BufferInfo, i: nat, j: nat): nat {
    i * b.stride + j
  }

  function YInPixelmap(p: PixelmapInfo, b: BufferInfo, i: nat, j: nat): nat {
    i * (if 2 * p.rowStride > 3 * b.stride then p.rowStride / 2 else p.rowStride) + j
  }

  /** Byte n of UV row m: behind the Y rows, or in the plane that the buffer names, plane 1 for NV12 and plane 2
      for NV21. */
  function UvInBuffer(p: PixelmapInfo, b: BufferInfo, m: nat, n: nat): nat {
    match b.planes
    case None => b.stride * b.height + m * b.stride + n
    case Some(info) =>
      if p.isNv12 then info.first.offset + m * info.first.columnStride + n
      else info.second.offset + m * info.second.columnStride + n
  }

  function UvInPixelmap(p: PixelmapInfo, b: BufferInfo, m: nat, n: nat): nat {
    var stride := if 2 * p.rowStride > 3 * b.stride then p.rowStride / 2 else p.rowStride;
    (if p.uvOffset > 0 then p.uvOffset else stride * p.height)
    + m * (if p.uvStride > 0 then p.uvStride else stride) + n
  }

  /** Both sides have rows with such a byte. */
  predicate HasByte(p: PixelmapInfo, b: BufferInfo, j: nat) {
    j < b.stride && j < if 2 * p.rowStride > 3 * b.stride then p.rowStride / 2 else p.rowStride
  }

  /** The Y plane has such a byte on both sides; the pixelmap counts the rows. */
  predicate HasY(p: PixelmapInfo, b: BufferInfo, i: nat, j: nat) {
    i < p.height && HasByte(p, b, j)
  }

  /** The UV plane has such a byte on both sides. */
  predicate HasUv(p: PixelmapInfo, b: BufferInfo, m: nat, n: nat) {
    var stride := if 2 * p.rowStride > 3 * b.stride then p.rowStride / 2 else p.rowStride;
    && m < (if p.uvHeight > 0 then p.uvHeight else (p.height + 1) / 2)
    && n < (if p.uvStride > 0 then p.uvStride else stride)
    && match b.planes
       case None => m < (b.height + 1) / 2 && n < b.stride
       case Some(info) =>
         var plane := if p.isNv12 then info.first else info.second;
         n < plane.columnStride && m < plane.offset / plane.columnStride
  }

  /** Both sides have a UV row of this number. */
  predicate HasUvRow(p: PixelmapInfo, b: BufferInfo, m: nat) {
    && m < (if p.uvHeight > 0 then p.uvHeight else (p.height + 1) / 2)
    && match b.planes
       case None => m < (b.height + 1) / 2
       case Some(info) =>
         var plane := if p.isNv12 then info.first else info.second;
         m < if plane.columnStride > 0 then plane.offset / plane.columnStride else (b.height + 1) / 2
  }

  /** No plane has rows without bytes. */
  predicate NoEmptyRows(p: PixelmapInfo, b: BufferInfo) {
    (p.height > 0 ==> HasY(p, b, 0, 0)) && (HasUvRow(p, b, 0) ==> HasUv(p, b, 0, 0))
  }

  lemma EmptyRowsFail(p: PixelmapInfo, b: BufferInfo)
    ensures NoEmptyRows(p, b) <==> Copyable(YRows(p, b)) && Copyable(UvRows(p, b))
  {
  }

  lemma YPlace(p: PixelmapInfo, b: BufferInfo, i: nat, j: nat)
    ensures var y := YRows(p, b);
            && (HasY(p, b, i, j) <==> i < y.count && j < y.size)
            && YInBuffer(b, i, j) == RowStart(y.dst, y.dstStride, i) + j
            && YInPixelmap(p, b, i, j) == RowStart(y.src, y.srcStride, i) + j
  {
  }

  lemma UvPlace(p: PixelmapInfo, b: BufferInfo, m: nat, n: nat)
    ensures var uv := UvRows(p, b);
            && (HasUv(p, b, m, n) <==> m < uv.count && n < uv.size)
            && UvInBuffer(p, b, m, n) == RowStart(uv.dst, uv.dstStride, m) + n
            && UvInPixelmap(p, b, m, n) == RowStart(uv.src, uv.srcStride, m) + n
  {
  }

  /** Every UV byte has arrived, and every Y byte that no UV byte was put over. */
  ghost predicate InBuffer(p: PixelmapInfo, b: BufferInfo, pixels: Bytes, data: Bytes) {
    && (forall m: nat, n: nat | HasUv(p, b, m, n) ::
          && UvInBuffer(p, b, m, n) < |data| && UvInPixelmap(p, b, m, n) < |pixels|
          && data[UvInBuffer(p, b, m, n)] == pixels[UvInPixelmap(p, b, m, n)])
    && (forall i: nat, j: nat | HasY(p, b, i, j) && !UvAt(p, b, YInBuffer(b, i, j)) ::
          && YInBuffer(b, i, j) < |data| && YInPixelmap(p, b, i, j) < |pixels|
          && data[YInBuffer(b, i, j)] == pixels[YInPixelmap(p, b, i, j)])
  }

  ghost predicate InPixelmap(p: PixelmapInfo, b: BufferInfo, pixels: Bytes, data: Bytes) {
    && (forall m: nat, n: nat | HasUv(p, b, m, n) ::
          && UvInBuffer(p, b, m, n) < |data| && UvInPixelmap(p, b, m, n) < |pixels|
          && pixels[UvInPixelmap(p, b, m, n)] == data[UvInBuffer(p, b, m, n)])
    && (forall i: nat, j: nat | HasY(p, b, i, j) && !UvOver(p, b, YInPixelmap(p, b, i, j)) ::
          && YInBuffer(b, i, j) < |data| && YInPixelmap(p, b, i, j) < |pixels|
          && pixels[YInPixelmap(p, b, i, j)] == data[YInBuffer(b, i, j)])
  }

  /** A UV byte has its place at `k` in the buffer. */
  ghost predicate UvAt(p: PixelmapInfo, b: BufferInfo, k: nat) {
    exists m: nat, n: nat :: HasUv(p, b, m, n) && UvInBuffer(p, b, m, n) == k
  }

  /** A UV byte has its place at `k` in the pixelmap. */
  ghost predicate UvOver(p: PixelmapInfo, b: BufferInfo, k: nat) {
    exists m: nat, n: nat :: HasUv(p, b, m, n) && UvInPixelmap(p, b, m, n) == k
  }

  lemma RowOfBuffer(p: PixelmapInfo, b: BufferInfo, m: nat, k: nat)
    requires var uv := UvRows(p, b); m < uv.count && InRow(uv.dst, uv.dstStride, uv.size, m, k)
    ensures UvAt(p, b, k)
  {
    var uv := UvRows(p, b);
    var n := k - RowStart(uv.dst, uv.dstStride, m);
    UvPlace(p, b, m, n);
    assert HasUv(p, b, m, n) && UvInBuffer(p, b, m, n) == k;
  }

  lemma NoUvAt(p: PixelmapInfo, b: BufferInfo, k: nat)
    requires !UvAt(p, b, k)
    ensures var uv := UvRows(p, b); Untouched(uv.dst, uv.dstStride, uv.size, uv.count, k)
  {
    hide UvAt, UvRows;
    var uv := UvRows(p, b);
    forall m: nat | m < uv.count
      ensures !InRow(uv.dst, uv.dstStride, uv.size, m, k)
    {
      if InRow(uv.dst, uv.dstStride, uv.size, m, k) {
        RowOfBuffer(p, b, m, k);
      }
    }
  }

  lemma RowOfPixelmap(p: PixelmapInfo, b: BufferInfo, m: nat, k: nat)
    requires var uv := UvRows(p, b); m < uv.count && InRow(uv.src, uv.srcStride, uv.size, m, k)
    ensures UvOver(p, b, k)
  {
    var uv := UvRows(p, b);
    var n := k - RowStart(uv.src, uv.srcStride, m);
    UvPlace(p, b, m, n);
    assert HasUv(p, b, m, n) && UvInPixelmap(p, b, m, n) == k;
  }

  lemma NoUvOver(p: PixelmapInfo, b: BufferInfo, k: nat)
    requires !UvOver(p, b, k)
    ensures var uv := UvRows(p, b); Untouched(uv.src, uv.srcStride, uv.size, uv.count, k)
  {
    hide UvOver, UvRows;
    var uv := UvRows(p, b);
    forall m: nat | m < uv.count
      ensures !InRow(uv.src, uv.srcStride, uv.size, m, k)
    {
      if InRow(uv.src, uv.srcStride, uv.size, m, k) {
        RowOfPixelmap(p, b, m, k);
      }
    }
  }

  /** A copy into the buffer brings every byte of both planes to its place. */
  lemma BytesInBuffer(p: PixelmapInfo, b: BufferInfo, pixels: Bytes, data: Bytes)
    requires Fits(|data|, |pixels|, YRows(p, b)) && Fits(|data|, |pixels|, UvRows(p, b))
    requires CopyPlanes(data, pixels, YRows(p, b), UvRows(p, b)).ok
    ensures InBuffer(p, b, pixels, CopyPlanes(data, pixels, YRows(p, b), UvRows(p, b)).bytes)
  {
    var y, uv := YRows(p, b), UvRows(p, b);
    LayoutIsTidy(p, b);
    var luma := Copied(data, pixels, y);
    var after := CopyPlanes(data, pixels, y, uv).bytes;
    assert after == Copied(luma, pixels, uv);
    hide YRows, UvRows, CopyPlanes, Copied, HasY, HasUv, YInBuffer, YInPixelmap, UvInBuffer, UvInPixelmap, UvAt;
    forall m: nat, n: nat | HasUv(p, b, m, n)
      ensures && UvInBuffer(p, b, m, n) < |after| && UvInPixelmap(p, b, m, n) < |pixels|
              && after[UvInBuffer(p, b, m, n)] == pixels[UvInPixelmap(p, b, m, n)]
    {
      UvPlace(p, b, m, n);
      CopiedByte(luma, pixels, uv, m, n);
    }
    forall i: nat, j: nat | HasY(p, b, i, j) && !UvAt(p, b, YInBuffer(b, i, j))
      ensures && YInBuffer(b, i, j) < |after| && YInPixelmap(p, b, i, j) < |pixels|
              && after[YInBuffer(b, i, j)] == pixels[YInPixelmap(p, b, i, j)]
    {
      YPlace(p, b, i, j);
      CopiedByte(data, pixels, y, i, j);
      NoUvAt(p, b, YInBuffer(b, i, j));
      CopyKeepsOthers(luma, pixels, uv, YInBuffer(b, i, j));
    }
  }

  /** And so does a copy into the pixelmap. */
  lemma BytesInPixelmap(p: PixelmapInfo, b: BufferInfo, pixels: Bytes, data: Bytes)
    requires Fits(|data|, |pixels|, YRows(p, b)) && Fits(|data|, |pixels|, UvRows(p, b))
    requires CopyPlanes(pixels, data, Mirror(YRows(p, b)), Mirror(UvRows(p, b))).ok
    ensures InPixelmap(p, b, CopyPlanes(pixels, data, Mirror(YRows(p, b)), Mirror(UvRows(p, b))).bytes, data)
  {
    var y, uv := YRows(p, b), UvRows(p, b);
    LayoutIsTidy(p, b);
    var luma := Copied(pixels, data, Mirror(y));
    var after := CopyPlanes(pixels, data, Mirror(y), Mirror(uv)).bytes;
    assert after == Copied(luma, data, Mirror(uv));
    hide YRows, UvRows, CopyPlanes, Copied, HasY, HasUv, YInBuffer, YInPixelmap, UvInBuffer, UvInPixelmap, UvOver;
    forall m: nat, n: nat | HasUv(p, b, m, n)
      ensures && UvInBuffer(p, b, m, n) < |data| && UvInPixelmap(p, b, m, n) < |after|
              && after[UvInPixelmap(p, b, m, n)] == data[UvInBuffer(p, b, m, n)]
    {
      UvPlace(p, b, m, n);
      CopiedByte(luma, data, Mirror(uv), m, n);
    }
    forall i: nat, j: nat | HasY(p, b, i, j) && !UvOver(p, b, YInPixelmap(p, b, i, j))
      ensures && YInBuffer(b, i, j) < |data| && YInPixelmap(p, b, i, j) < |after|
              && after[YInPixelmap(p, b, i, j)] == data[YInBuffer(b, i, j)]
    {
      YPlace(p, b, i, j);
      CopiedByte(pixels, data, Mirror(y), i, j);
      NoUvOver(p, b, YInPixelmap(p, b, i, j));
      CopyKeepsOthers(luma, data, Mirror(uv), YInPixelmap(p, b, i, j));
    }
  }

  /** An RGBA copy brings byte j of pixel row i to its place: four bytes for each pixel. */
  lemma RgbaByteAtPlace(p: PixelmapInfo, b: BufferInfo, pixels: Bytes, data: Bytes, i: nat, j: nat)
    requires Fits(|data|, |pixels|, RgbaToBuffer(p, b)) && p.width * 4 <= b.stride
    requires i < p.height && j < p.width * 4
    ensures && YInBuffer(b, i, j) < |data| && YInPixelmap(p, b, i, j) < |pixels|
            && Copied(data, pixels, RgbaToBuffer(p, b))[YInBuffer(b, i, j)] == pixels[YInPixelmap(p, b, i, j)]
  {
    var r := RgbaToBuffer(p, b);
    CopyIsExact(data, pixels, r);
    assert SameRow(Copied(data, pixels, r), pixels, r, i);
    ByteOfRow(Copied(data, pixels, r), pixels, r, i, j);
    hide Copied;
  }

  /** On the way back the buffer counts the rows, and whole rows of the smaller stride are copied. */
  lemma RgbaByteComesBack(p: PixelmapInfo, b: BufferInfo, pixels: Bytes, data: Bytes, i: nat, j: nat)
    requires Fits(|pixels|, |data|, RgbaToPixelmap(p, b)) && i < b.height && HasByte(p, b, j)
    ensures && YInBuffer(b, i, j) < |data| && YInPixelmap(p, b, i, j) < |pixels|
            && Copied(pixels, data, RgbaToPixelmap(p, b))[YInPixelmap(p, b, i, j)] == data[YInBuffer(b, i, j)]
  {
    CopiedByte(pixels, data, RgbaToPixelmap(p, b), i, j);
    hide Copied;
  }
}

/** The copy functions themselves, on the memories of the two objects. */
module PlaneCopy {
  import opened PlaneRows
  import opened PlaneLayout
  import opened PlanePlaces

  class Pixelmap {
    const info: PixelmapInfo
    const pixels: array<bv8>

    constructor (info: PixelmapInfo, pixels: array<bv8>)
      ensures this.info == info && this.pixels == pixels
    {
      this.info, this.pixels := info, pixels;
    }
  }

  class SurfaceBuffer {
    const info: BufferInfo
    const data: array<bv8>

    constructor (info: BufferInfo, data: array<bv8>)
      ensures this.info == info && this.data == data
    {
      this.info, this.data := info, data;
    }
  }

  /** memcpy_s with the same size for destination and count. */
  method MemcpyS(dst: array<bv8>, at: nat, src: array<bv8>, from: nat, size: int) returns (ok: bool)
    requires dst != src
    requires size > 0 ==> at + size <= dst.Length && from + size <= src.Length
    modifies dst
    ensures ok == (size > 0)
    ensures dst[..] == if ok then CopyRow(old(dst[..]), at, src[..], from, size) else old(dst[..])
  {
    ok := size > 0;
    if ok {
      forall k | 0 <= k < size {
        dst[at + k] := src[from + k];
      }
      ghost var was := old(dst[..]);
      forall k | 0 <= k < dst.Length
        ensures dst[..][k] == CopyRow(was, at, src[..], from, size)[k]
      {
        if at <= k < at + size {
          assert dst[at + (k - at)] == src[from + (k - at)];
        }
      }
    }
  }

  /** The row loop that the four copy functions share. */
  method CopyRows(dst: array<bv8>, src: array<bv8>, r: Rows) returns (ok: bool)
    requires dst != src && Fits(dst.Length, src.Length, r)
    modifies dst
    ensures Outcome(ok, dst[..]) == CopyPlane(old(dst[..]), src[..], r)
  {
    var i := 0;
    while i < r.count
      invariant 0 <= i <= r.count
      invariant i > 0 ==> r.size > 0
      invariant dst[..] == if i > 0 then CopiedRows(old(dst[..]), src[..], r, i) else old(dst[..])
    {
      var copied := MemcpyS(dst, RowStart(r.dst, r.dstStride, i), src, RowStart(r.src, r.srcStride, i), r.size);
      if !copied {
        return false;
      }
      i := i + 1;
    }
    return true;
  }

  method CopyNV12PixelmapToSurfaceBuffer(pixelmap: Pixelmap, buffer: SurfaceBuffer) returns (ok: bool)
    requires pixelmap.pixels != buffer.data
    requires Fits(buffer.data.Length, pixelmap.pixels.Length, YRows(pixelmap.info, buffer.info))
    requires Fits(buffer.data.Length, pixelmap.pixels.Length, UvRows(pixelmap.info, buffer.info))
    modifies buffer.data
    ensures Outcome(ok, buffer.data[..])
         == CopyPlanes(old(buffer.data[..]), pixelmap.pixels[..], YRows(pixelmap.info, buffer.info),
             UvRows(pixelmap.info, buffer.info))
    ensures ok == NoEmptyRows(pixelmap.info, buffer.info)
    ensures ok ==> InBuffer(pixelmap.info, buffer.info, pixelmap.pixels[..], buffer.data[..])
  {
    EmptyRowsFail(pixelmap.info, buffer.info);
    ghost var before := buffer.data[..];
    hide YRows, UvRows, CopiedRows, InBuffer, NoEmptyRows;
    ok := CopyRows(buffer.data, pixelmap.pixels, YRows(pixelmap.info, buffer.info));
    if ok {
      ok := CopyRows(buffer.data, pixelmap.pixels, UvRows(pixelmap.info, buffer.info));
    }
    if ok {
      BytesInBuffer(pixelmap.info, buffer.info, pixelmap.pixels[..], before);
    }
  }

  method CopyNV12SurfaceBufferToPixelmap(buffer: SurfaceBuffer, pixelmap: Pixelmap) returns (ok: bool)
    requires pixelmap.pixels != buffer.data
    requires Fits(buffer.data.Length, pixelmap.pixels.Length, YRows(pixelmap.info, buffer.info))
    requires Fits(buffer.data.Length, pixelmap.pixels.Length, UvRows(pixelmap.info, buffer.info))
    modifies pixelmap.pixels
    ensures Outcome(ok, pixelmap.pixels[..])
         == CopyPlanes(old(pixelmap.pixels[..]), buffer.data[..],
                       Mirror(YRows(pixelmap.info, buffer.info)), Mirror(UvRows(pixelmap.info, buffer.info)))
    ensures ok == NoEmptyRows(pixelmap.info, buffer.info)
    ensures ok ==> InPixelmap(pixelmap.info, buffer.info, pixelmap.pixels[..], buffer.data[..])
  {
    EmptyRowsFail(pixelmap.info, buffer.info);
    ghost var before := pixelmap.pixels[..];
    hide YRows, UvRows, CopiedRows, InPixelmap, NoEmptyRows;
    ok := CopyRows(pixelmap.pixels, buffer.data, Mirror(YRows(pixelmap.info, buffer.info)));
    if ok {
      ok := CopyRows(pixelmap.pixels, buffer.data, Mirror(UvRows(pixelmap.info, buffer.info)));
    }
    if ok {
      BytesInPixelmap(pixelmap.info, buffer.info, before, buffer.data[..]);
    }
  }

  /** Byte j of row i is the same in both memories. */
  ghost predicate ByteArrived(pixelmap: Pixelmap, buffer: SurfaceBuffer, i: nat, j: nat)
    reads pixelmap.pixels, buffer.data
  {
    var k, l := YInPixelmap(pixelmap.info, buffer.info, i, j), YInBuffer(buffer.info, i, j);
    k < pixelmap.pixels.Length && l < buffer.data.Length && pixelmap.pixels[k] == buffer.data[l]
  }

  method CopyRGBAPixelmapToSurfaceBuffer(pixelmap: Pixelmap, buffer: SurfaceBuffer) returns (ok: bool)
    requires pixelmap.pixels != buffer.data
    requires Fits(buffer.data.Length, pixelmap.pixels.Length, RgbaToBuffer(pixelmap.info, buffer.info))
    modifies buffer.data
    ensures Outcome(ok, buffer.data[..])
         == CopyPlane(old(buffer.data[..]), pixelmap.pixels[..], RgbaToBuffer(pixelmap.info, buffer.info))
    ensures ok <==> pixelmap.info.height == 0 || pixelmap.info.width > 0
    ensures pixelmap.info.width * 4 <= buffer.info.stride ==>
              forall i: nat, j: nat | i < pixelmap.info.height && j < pixelmap.info.width * 4 ::
                ByteArrived(pixelmap, buffer, i, j)
  {
    ghost var before := buffer.data[..];
    ok := CopyRows(buffer.data, pixelmap.pixels, RgbaToBuffer(pixelmap.info, buffer.info));
    if pixelmap.info.width * 4 <= buffer.info.stride {
      forall i: nat, j: nat | i < pixelmap.info.height && j < pixelmap.info.width * 4
        ensures ByteArrived(pixelmap, buffer, i, j)
      {
        RgbaByteAtPlace(pixelmap.info, buffer.info, pixelmap.pixels[..], before, i, j);
      }
    }
  }

  method CopyRGBASurfaceBufferToPixelmap(buffer: SurfaceBuffer, pixelmap: Pixelmap) returns (ok: bool)
    requires pixelmap.pixels != buffer.data
    requires Fits(pixelmap.pixels.Length, buffer.data.Length, RgbaToPixelmap(pixelmap.info, buffer.info))
    modifies pixelmap.pixels
    ensures Outcome(ok, pixelmap.pixels[..])
         == CopyPlane(old(pixelmap.pixels[..]), buffer.data[..], RgbaToPixelmap(pixelmap.info, buffer.info))
    ensures ok <==> buffer.info.height == 0 || HasByte(pixelmap.info, buffer.info, 0)
    ensures forall i: nat, j: nat | i < buffer.info.height && HasByte(pixelmap.info, buffer.info, j) ::
              ByteArrived(pixelmap, buffer, i, j)
  {
    ghost var before := pixelmap.pixels[..];
    ok := CopyRows(pixelmap.pixels, buffer.data, RgbaToPixelmap(pixelmap.info, buffer.info));
    forall i: nat, j: nat | i < buffer.info.height && HasByte(pixelmap.info, buffer.info, j)
      ensures ByteArrived(pixelmap, buffer, i, j)
    {
      RgbaByteComesBack(pixelmap.info, buffer.info, before, buffer.data[..], i, j);
    }
  }
}

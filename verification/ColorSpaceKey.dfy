/** Colour-space descriptions packed into 32 bits, and the order of the capability maps. */
module ColorSpaceKey {

  const COLORPRIMARIES_MASK: bv32 := 0x000000FF
  const TRANSFUNC_MASK: bv32 := 0x0000FF00
  const MATRIX_MASK: bv32 := 0x001F0000
  const RANGE_MASK: bv32 := 0xFFE00000

  datatype ColorSpaceInfo = ColorSpaceInfo(primaries: bv32, transfunc: bv32, matrix: bv32, range: bv32)

  datatype ColorSpaceDescription = ColorSpaceDescription(colorSpaceInfo: ColorSpaceInfo, metadataType: int)

  /** The shifted fields are added, not or-ed: a field that is too wide spills into the next. */
  function GetColorSpaceType(info: ColorSpaceInfo): bv32 {
    (info.primaries << 0) + (info.transfunc << 8) + (info.matrix << 16) + (info.range << 21)
  }

  function GetColorSpaceInfo(colorSpaceType: bv32): ColorSpaceInfo {
    ColorSpaceInfo((colorSpaceType & COLORPRIMARIES_MASK) >> 0, (colorSpaceType & TRANSFUNC_MASK) >> 8,
                   (colorSpaceType & MATRIX_MASK) >> 16, (colorSpaceType & RANGE_MASK) >> 21)
  }

  /** Every field fits its bits. */
  predicate InRange(info: ColorSpaceInfo) {
    info.primaries < 0x100 && info.transfunc < 0x100 && info.matrix < 0x20 && info.range < 0x800
  }

  lemma UnpackThenPack(t: bv32)
    ensures GetColorSpaceType(GetColorSpaceInfo(t)) == t
    ensures InRange(GetColorSpaceInfo(t))
  {
  }

  /** Packing loses nothing exactly for descriptions whose fields fit. */
  lemma PackThenUnpackIff(info: ColorSpaceInfo)
    ensures GetColorSpaceInfo(GetColorSpaceType(info)) == info <==> InRange(info)
  {
    UnpackThenPack(GetColorSpaceType(info));
    if InRange(info) {
      PackKeepsFields(info.primaries, info.transfunc, info.matrix, info.range);
    }
  }

  lemma PackKeepsFields(p: bv32, t: bv32, m: bv32, r: bv32)
    requires p < 0x100 && t < 0x100 && m < 0x20 && r < 0x800
    ensures var x := (p << 0) + (t << 8) + (m << 16) + (r << 21);
            && (x & COLORPRIMARIES_MASK) >> 0 == p && (x & TRANSFUNC_MASK) >> 8 == t
            && (x & MATRIX_MASK) >> 16 == m && (x & RANGE_MASK) >> 21 == r
  {
  }

  /** The number that 32 bits stand for. */
  function Num(x: bv32): int {
    x as int
  }

  /** Packed types are compared by that number. */
  predicate PackedLess(x: bv32, m: int, y: bv32, n: int) {
    Num(x) < Num(y) || (x == y && m < n)
  }

  predicate Less(a: ColorSpaceDescription, b: ColorSpaceDescription) {
    PackedLess(GetColorSpaceType(a.colorSpaceInfo), a.metadataType, GetColorSpaceType(b.colorSpaceInfo), b.metadataType)
  }

  predicate Equivalent(a: ColorSpaceDescription, b: ColorSpaceDescription) {
    !Less(a, b) && !Less(b, a)
  }

  lemma SameNumberSameBits(x: bv32, y: bv32)
    requires Num(x) == Num(y)
    ensures x == y
  {
    assert (x as int) as bv32 == x && (y as int) as bv32 == y;
  }

  lemma PackedOrder(x: bv32, m: int, y: bv32, n: int, z: bv32, o: int)
    ensures PackedLess(x, m, y, n) ==> !PackedLess(y, n, x, m)
    ensures PackedLess(x, m, y, n) && PackedLess(y, n, z, o) ==> PackedLess(x, m, z, o)
    ensures !PackedLess(x, m, y, n) && !PackedLess(y, n, x, m) <==> x == y && m == n
  {
    if Num(x) == Num(y) {
      SameNumberSameBits(x, y);
    }
  }

  /** A strict order on all descriptions; two of them fall together in a map exactly when they pack alike
      and have the same metadata type. */
  lemma LessIsStrictOrder(a: ColorSpaceDescription, b: ColorSpaceDescription, c: ColorSpaceDescription)
    ensures Less(a, b) ==> !Less(b, a)
    ensures Less(a, b) && Less(b, c) ==> Less(a, c)
    ensures Equivalent(a, b) <==>
              GetColorSpaceType(a.colorSpaceInfo) == GetColorSpaceType(b.colorSpaceInfo)
                  && a.metadataType == b.metadataType
  {
    PackedOrder(GetColorSpaceType(a.colorSpaceInfo), a.metadataType, GetColorSpaceType(b.colorSpaceInfo),
        b.metadataType,
                GetColorSpaceType(c.colorSpaceInfo), c.metadataType);
  }

  /** Among descriptions in range only equal ones fall together. */
  lemma EquivalentIsEqualInRange(a: ColorSpaceDescription, b: ColorSpaceDescription)
    requires InRange(a.colorSpaceInfo) && InRange(b.colorSpaceInfo)
    ensures Equivalent(a, b) <==> a == b
  {
    LessIsStrictOrder(a, b, a);
    PackThenUnpackIff(a.colorSpaceInfo);
    PackThenUnpackIff(b.colorSpaceInfo);
  }

  /** A description out of range always has a different one in range that it falls together with. */
  lemma WideFieldsCollide(a: ColorSpaceDescription)
    requires !InRange(a.colorSpaceInfo)
    ensures var b := ColorSpaceDescription(GetColorSpaceInfo(GetColorSpaceType(a.colorSpaceInfo)), a.metadataType);
            a != b && InRange(b.colorSpaceInfo) && Equivalent(a, b)
  {
    var b := ColorSpaceDescription(GetColorSpaceInfo(GetColorSpaceType(a.colorSpaceInfo)), a.metadataType);
    UnpackThenPack(GetColorSpaceType(a.colorSpaceInfo));
    LessIsStrictOrder(a, b, a);
  }

  // ---------- Which field counts how much ----------

  /** Which bits are whose: eight for the primaries, eight for the transfer function, five for the matrix, eleven
      for the range, from the lowest bit on. */
  lemma FieldBits(t: bv32)
    ensures var info := GetColorSpaceInfo(t);
            && info.primaries == t & 0xFF && info.transfunc == (t >> 8) & 0xFF
            && info.matrix == (t >> 16) & 0x1F && info.range == t >> 21
  {
  }

  lemma AddTransfunc(p: bv32, t: bv32)
    requires p < 0x100 && t < 0x100
    ensures ((p << 0) + (t << 8)) as int == p as int + 0x100 * (t as int) && (p << 0) + (t << 8) < 0x1_0000
  {
  }

  lemma AddMatrix(x: bv32, m: bv32)
    requires x < 0x1_0000 && m < 0x20
    ensures (x + (m << 16)) as int == x as int + 0x1_0000 * (m as int) && x + (m << 16) < 0x20_0000
  {
  }

  lemma AddRange(x: bv32, r: bv32)
    requires x < 0x20_0000 && r < 0x800
    ensures (x + (r << 21)) as int == x as int + 0x20_0000 * (r as int)
  {
  }

  function Two(p: bv32, t: bv32): bv32 {
    (p << 0) + (t << 8)
  }

  function Three(x: bv32, m: bv32): bv32 {
    x + (m << 16)
  }

  function Four(x: bv32, r: bv32): bv32 {
    x + (r << 21)
  }

  lemma TwoFields(p: bv32, t: bv32)
    requires p < 0x100 && t < 0x100
    ensures Num(Two(p, t)) == Num(p) + 0x100 * Num(t) && Two(p, t) < 0x1_0000
  {
    AddTransfunc(p, t);
  }

  lemma ThreeFields(x: bv32, m: bv32)
    requires x < 0x1_0000 && m < 0x20
    ensures Num(Three(x, m)) == Num(x) + 0x1_0000 * Num(m) && Three(x, m) < 0x20_0000
  {
    AddMatrix(x, m);
  }

  lemma FourFields(x: bv32, r: bv32)
    requires x < 0x20_0000 && r < 0x800
    ensures Num(Four(x, r)) == Num(x) + 0x20_0000 * Num(r)
  {
    AddRange(x, r);
  }

  lemma PackedNumber(p: bv32, t: bv32, m: bv32, r: bv32)
    requires p < 0x100 && t < 0x100 && m < 0x20 && r < 0x800
    ensures Num(Four(Three(Two(p, t), m), r)) == Num(p) + 0x100 * Num(t) + 0x1_0000 * Num(m) + 0x20_0000 * Num(r)
  {
    hide Two, Three, Four, Num;
    TwoFields(p, t);
    ThreeFields(Two(p, t), m);
    FourFields(Three(Two(p, t), m), r);
  }

  lemma SmallNumber(x: bv32, bound: int)
    requires (bound == 0x100 && x < 0x100) || (bound == 0x20 && x < 0x20)
    ensures 0 <= Num(x) < bound
  {
  }

  /** The number of a description in range, and how far its parts reach. */
  lemma PacksToNumber(info: ColorSpaceInfo)
    requires InRange(info)
    ensures Num(GetColorSpaceType(info)) == Num(info.primaries) + 0x100 * Num(info.transfunc)
                                            + 0x1_0000 * Num(info.matrix) + 0x20_0000 * Num(info.range)
    ensures 0 <= Num(info.primaries) < 0x100 && 0 <= Num(info.transfunc) < 0x100 && 0 <= Num(info.matrix) < 0x20
  {
    hide Num;
    PackedNumber(info.primaries, info.transfunc, info.matrix, info.range);
    SmallNumber(info.primaries, 0x100);
    SmallNumber(info.transfunc, 0x100);
    SmallNumber(info.matrix, 0x20);
  }

  /** Digits decide from the highest on. */
  lemma HighestDigitFirst(p: int, t: int, m: int, r: int, q: int, u: int, n: int, s: int)
    requires 0 <= p < 0x100 && 0 <= t < 0x100 && 0 <= m < 0x20
    requires 0 <= q < 0x100 && 0 <= u < 0x100 && 0 <= n < 0x20
    ensures var x, y := p + 0x100 * t + 0x1_0000 * m + 0x20_0000 * r, q + 0x100 * u + 0x1_0000 * n + 0x20_0000 * s;
            && (x < y <==> DigitsLess(p, t, m, r, q, u, n, s))
            && (x == y <==> p == q && t == u && m == n && r == s)
  {
  }

  /** Compared by r and s first, then m and n, then t and u, then p and q. */
  predicate DigitsLess(p: int, t: int, m: int, r: int, q: int, u: int, n: int, s: int) {
    if r != s then r < s else if m != n then m < n else if t != u then t < u else p < q
  }

  lemma NumbersDecide(x: bv32, m: int, y: bv32, n: int)
    ensures PackedLess(x, m, y, n) <==> Num(x) < Num(y) || (Num(x) == Num(y) && m < n)
  {
    if Num(x) == Num(y) {
      SameNumberSameBits(x, y);
    }
  }

  /** Descriptions in range are ordered by range, then matrix, then transfer function, then primaries, and those
      that agree in all four by metadata type. */
  lemma LessIsLexicographic(a: ColorSpaceDescription, b: ColorSpaceDescription)
    requires InRange(a.colorSpaceInfo) && InRange(b.colorSpaceInfo)
    ensures var x, y := a.colorSpaceInfo, b.colorSpaceInfo;
            Less(a, b) <==>
              || DigitsLess(Num(x.primaries), Num(x.transfunc), Num(x.matrix), Num(x.range),
                            Num(y.primaries), Num(y.transfunc), Num(y.matrix), Num(y.range))
              || (&& Num(x.primaries) == Num(y.primaries) && Num(x.transfunc) == Num(y.transfunc)
                  && Num(x.matrix) == Num(y.matrix) && Num(x.range) == Num(y.range)
                  && a.metadataType < b.metadataType)
  {
    hide Num, GetColorSpaceType, InRange, PackedLess, DigitsLess;
    var x, y := a.colorSpaceInfo, b.colorSpaceInfo;
    PacksToNumber(x);
    PacksToNumber(y);
    HighestDigitFirst(Num(x.primaries), Num(x.transfunc), Num(x.matrix), Num(x.range),
                      Num(y.primaries), Num(y.transfunc), Num(y.matrix), Num(y.range));
    NumbersDecide(GetColorSpaceType(x), a.metadataType, GetColorSpaceType(y), b.metadataType);
  }
}

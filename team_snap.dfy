/**
 * The party-snapshot page: each of the opponent's six party icons is cut out
 * of a screenshot, reduced to a 64-bit difference hash, and matched against
 * the hashes of every tile of a sprite sheet by Hamming distance.
 *
 * Hashes are pairs of unsigned 32-bit words. Every intermediate value of the
 * page's bit arithmetic stays below 2^53 (the widest is the product in the
 * last popcount step, below 2^51), so the page's Number arithmetic agrees
 * with 32-bit word arithmetic, which is how it is modelled.
 */
module TeamSnap {
  import opened Common
  import opened Raster

  // ---- popcount ----

  /** The four stages of the page's branch-free popcount. */
  function Pairs(v: bv32): bv32 { v - ((v >> 1) & 0x55555555) }
  function Quads(v: bv32): bv32 { (v & 0x33333333) + ((v >> 2) & 0x33333333) }
  function Octets(v: bv32): bv32 { (v + (v >> 4)) & 0x0F0F0F0F }
  function Gather(v: bv32): bv32 { (v * 0x01010101) >> 24 }

  /** popcnt32 */
  function Popcnt32(v: bv32): bv32 { Gather(Octets(Quads(Pairs(v)))) }

  function Sum4(a: bv32, b: bv32, c: bv32, d: bv32): bv32 { (a + b) + (c + d) }

  /** The sum of the low eight bits of x, bit by bit. */
  function Bits8(x: bv32): bv32 {
    (x & 1) + ((x >> 1) & 1) + ((x >> 2) & 1) + ((x >> 3) & 1) +
    ((x >> 4) & 1) + ((x >> 5) & 1) + ((x >> 6) & 1) + ((x >> 7) & 1)
  }

  /** The number of set bits of v: each of its 32 bits added up, byte by byte. */
  function BitCount(v: bv32): bv32 {
    Sum4(Bits8(v), Bits8(v >> 8), Bits8(v >> 16), Bits8(v >> 24))
  }

  /** The first stage leaves in each 2-bit field the sum of its two bits. */
  function PairSums(v: bv32): bv32 { (v & 0x55555555) + ((v >> 1) & 0x55555555) }
  /** Adding neighbouring nibbles leaves in each byte the sum of its bits. */
  function NibbleSums(x: bv32): bv32 { (x & 0x0F0F0F0F) + ((x >> 4) & 0x0F0F0F0F) }
  function ByteSums(v: bv32): bv32 { NibbleSums(Quads(PairSums(v))) }
  /** The multiplication adds up the four bytes into the top one. */
  function AddBytes(y: bv32): bv32 { Sum4(y & 0xFF, (y >> 8) & 0xFF, (y >> 16) & 0xFF, y >> 24) }

  lemma PairsStep(v: bv32)
    ensures Pairs(v) == PairSums(v)
  {
  }

  lemma OctetsStep(v: bv32)
    ensures Octets(Quads(PairSums(v))) == ByteSums(v)
  {
    assert Quads(PairSums(v)) & 0x88888888 == 0;
  }

  /** With every byte below 16, the multiplication cannot carry between bytes. */
  lemma GatherSmall(y: bv32)
    ensures y & 0xF0F0F0F0 == 0 ==> Gather(y) == AddBytes(y)
  {
  }

  lemma ByteSumsSmall(v: bv32)
    ensures ByteSums(v) & 0xF0F0F0F0 == 0
  {
  }

  lemma GatherStep(v: bv32)
    ensures Gather(ByteSums(v)) == AddBytes(ByteSums(v))
  {
    ByteSumsSmall(v);
    GatherSmall(ByteSums(v));
  }

  lemma ByteSum0(v: bv32)
    ensures ByteSums(v) & 0xFF == Bits8(v)
  {
  }

  lemma ByteSum1(v: bv32)
    ensures (ByteSums(v) >> 8) & 0xFF == Bits8(v >> 8)
  {
  }

  lemma ByteSum2(v: bv32)
    ensures (ByteSums(v) >> 16) & 0xFF == Bits8(v >> 16)
  {
  }

  lemma ByteSum3(v: bv32)
    ensures ByteSums(v) >> 24 == Bits8(v >> 24)
  {
  }

  lemma StagesToBytes(v: bv32)
    ensures Popcnt32(v) == AddBytes(ByteSums(v))
  {
    PairsStep(v);
    OctetsStep(v);
    GatherStep(v);
  }

  lemma BytesToCount(v: bv32)
    ensures AddBytes(ByteSums(v)) == BitCount(v)
  {
    ByteSum0(v);
    ByteSum1(v);
    ByteSum2(v);
    ByteSum3(v);
  }

  /** popcnt32 counts the set bits of its argument. */
  lemma Popcnt32Counts(v: bv32)
    ensures Popcnt32(v) == BitCount(v)
  {
    StagesToBytes(v);
    BytesToCount(v);
  }

  lemma Bits8Bound(x: bv32)
    ensures Bits8(x) <= 8
  {
  }

  lemma Bits8Zero(x: bv32)
    ensures Bits8(x) == 0 <==> x & 0xFF == 0
  {
  }

  lemma Add4(a: bv32, b: bv32, c: bv32, d: bv32)
    ensures a <= 8 && b <= 8 && c <= 8 && d <= 8 ==>
      Sum4(a, b, c, d) <= 32 &&
      (Sum4(a, b, c, d) == 0 <==> a == 0 && b == 0 && c == 0 && d == 0)
  {
  }

  lemma BytesZero(v: bv32)
    ensures v == 0 <==> v & 0xFF == 0 && (v >> 8) & 0xFF == 0 && (v >> 16) & 0xFF == 0 && (v >> 24) & 0xFF == 0
  {
  }

  /** A 32-bit word has at most 32 set bits. */
  lemma BitCountBound(v: bv32)
    ensures BitCount(v) <= 32
  {
    Bits8Bound(v);
    Bits8Bound(v >> 8);
    Bits8Bound(v >> 16);
    Bits8Bound(v >> 24);
    Add4(Bits8(v), Bits8(v >> 8), Bits8(v >> 16), Bits8(v >> 24));
  }

  /** Only the zero word has no set bit. */
  lemma BitCountZero(v: bv32)
    ensures BitCount(v) == 0 <==> v == 0
  {
    Bits8Bound(v);
    Bits8Bound(v >> 8);
    Bits8Bound(v >> 16);
    Bits8Bound(v >> 24);
    Add4(Bits8(v), Bits8(v >> 8), Bits8(v >> 16), Bits8(v >> 24));
    Bits8Zero(v);
    Bits8Zero(v >> 8);
    Bits8Zero(v >> 16);
    Bits8Zero(v >> 24);
    BytesZero(v);
  }

  /** popcnt32 lies in 0..32 and is 0 only for 0. */
  lemma PopcntRange(v: bv32)
    ensures Popcnt32(v) <= 32
    ensures Popcnt32(v) == 0 <==> v == 0
  {
    Popcnt32Counts(v);
    BitCountBound(v);
    BitCountZero(v);
  }

  // ---- Hamming distance ----

  /** A 64-bit difference hash as its high and low words. */
  datatype Hash = Hash(hi: bv32, lo: bv32)

  /** hamming64: the number of bit positions in which the two hashes differ. */
  function Hamming64(a: Hash, b: Hash): (d: nat)
  {
    Popcnt32(a.hi ^ b.hi) as int + Popcnt32(a.lo ^ b.lo) as int
  }

  /** The distance is symmetric. */
  lemma HammingSymmetric(a: Hash, b: Hash)
    ensures Hamming64(a, b) == Hamming64(b, a)
  {
    assert a.hi ^ b.hi == b.hi ^ a.hi && a.lo ^ b.lo == b.lo ^ a.lo;
  }

  /** A count of at most 32 as a number. */
  lemma CountValue(p: bv32)
    ensures p <= 32 ==> p as int <= 32
    ensures p as int == 0 <==> p == 0
  {
  }

  /** Two 64-bit hashes differ in at most 64 positions. */
  lemma HammingBound(a: Hash, b: Hash)
    ensures Hamming64(a, b) <= 64
  {
    hide Popcnt32;
    var p, q := Popcnt32(a.hi ^ b.hi), Popcnt32(a.lo ^ b.lo);
    PopcntRange(a.hi ^ b.hi);
    PopcntRange(a.lo ^ b.lo);
    CountValue(p);
    CountValue(q);
  }

  lemma HammingSelf(a: Hash)
    ensures Hamming64(a, a) == 0
  {
  }

  lemma HammingZeroEqual(a: Hash, b: Hash)
    ensures Hamming64(a, b) == 0 ==> a == b
  {
    hide Popcnt32;
    var p, q := Popcnt32(a.hi ^ b.hi), Popcnt32(a.lo ^ b.lo);
    PopcntRange(a.hi ^ b.hi);
    PopcntRange(a.lo ^ b.lo);
    CountValue(p);
    CountValue(q);
    if Hamming64(a, b) == 0 {
      assert p == 0 && q == 0;
      XorZero(a.hi, b.hi);
      XorZero(a.lo, b.lo);
    }
  }

  /** The distance is 0 exactly for equal hashes. */
  lemma HammingZero(a: Hash, b: Hash)
    ensures Hamming64(a, b) == 0 <==> a == b
  {
    HammingZeroEqual(a, b);
    if a == b {
      HammingSelf(a);
    }
  }

  lemma XorZero(p: bv32, q: bv32)
    ensures p ^ q == 0 <==> p == q
  {
  }

  // ---- packing the difference hash ----

  /** The value of bit b. */
  function B(b: bool): nat { if b then 1 else 0 }

  function Pow2(n: nat): (p: nat)
    ensures p > 0
  {
    if n == 0 then 1 else 2 * Pow2(n - 1)
  }

  lemma Pow2Word()
    ensures Pow2(32) == 0x1_0000_0000
  {
    assert Pow2(8) == 256;
    assert Pow2(16) == 65536;
    assert Pow2(24) == 16777216;
  }

  /** The number that shifting the bits in one at a time from the right
      produces: the first bit ends up as the most significant one. */
  function Value(bs: seq<bool>): nat {
    if |bs| == 0 then 0 else 2 * Value(bs[..|bs| - 1]) + B(bs[|bs| - 1])
  }

  lemma {:induction false} ValueBound(bs: seq<bool>)
    ensures Value(bs) < Pow2(|bs|)
  {
    if |bs| > 0 {
      ValueBound(bs[..|bs| - 1]);
    }
  }

  /** Shifting in one more bit. */
  lemma ValueSnoc(bs: seq<bool>, k: nat)
    requires k < |bs|
    ensures Value(bs[..k + 1]) == 2 * Value(bs[..k]) + B(bs[k])
  {
    assert bs[..k + 1][..k] == bs[..k];
  }

  lemma DivUnique(x: int, d: int, q: int, r: int)
    requires d > 0 && 0 <= r < d && x == q * d + r
    ensures x / d == q
  {
    var m := x / d - q;
    assert m * d == r - x % d;
    if m >= 1 {
      MulLe(1, m, d);
    } else if m <= -1 {
      MulLe(1, -m, d);
    }
  }

  /** Dropping the bit shifted in last. */
  lemma DivShifted(v: nat, b: nat, p: nat)
    requires b < 2 && p > 0
    ensures (2 * v + b) / (2 * p) == v / p
  {
    var q, r := v / p, v % p;
    assert 2 * v + b == q * (2 * p) + (2 * r + b);
    DivUnique(2 * v + b, 2 * p, q, 2 * r + b);
  }

  /** Bit k of the bits shifted in ends up at position |bs| - 1 - k. */
  lemma {:induction false} ValueBit(bs: seq<bool>, k: nat)
    requires k < |bs|
    ensures (Value(bs) / Pow2(|bs| - 1 - k)) % 2 == B(bs[k])
  {
    var n := |bs| - 1;
    var v, b := Value(bs[..n]), B(bs[n]);
    assert Value(bs) == 2 * v + b;
    if k == n {
      assert Pow2(0) == 1;
    } else {
      var p := Pow2(n - 1 - k);
      assert Pow2(n - k) == 2 * p;
      ValueBit(bs[..n], k);
      DivShifted(v, b, p);
    }
  }

  /** The cell of comparison x of row y in a 9 by 8 grayscale thumbnail. */
  lemma CellIndex(y: nat, x: nat)
    requires y < 8 && x < 8
    ensures (8 * y + x) / 8 == y && (8 * y + x) % 8 == x
    ensures y * 9 + x + 1 < 72
  {
  }

  /** The 64 comparison bits of a 9 by 8 grayscale thumbnail: bit 8y + x is
      set when pixel (x, y) is darker than its right-hand neighbour. */
  function DiffBits(gray: seq<real>): (bits: seq<bool>)
    requires |gray| == 72
    ensures |bits| == 64
  {
    seq(64, k requires 0 <= k < 64 =>
      CellIndex(k / 8, k % 8);
      gray[(k / 8) * 9 + k % 8] < gray[(k / 8) * 9 + k % 8 + 1])
  }

  lemma DiffBitAt(gray: seq<real>, y: nat, x: nat)
    requires |gray| == 72 && y < 8 && x < 8
    ensures y * 9 + x + 1 < 72
    ensures DiffBits(gray)[8 * y + x] == (gray[y * 9 + x] < gray[y * 9 + x + 1])
  {
    CellIndex(y, x);
  }

  /** The first 32 comparisons as a number, most significant bit first. */
  function HighValue(gray: seq<real>): (v: nat)
    requires |gray| == 72
    ensures v < 0x1_0000_0000
  {
    ValueBound(DiffBits(gray)[..32]);
    Pow2Word();
    Value(DiffBits(gray)[..32])
  }

  /** The other 32 comparisons as a number. */
  function LowValue(gray: seq<real>): (v: nat)
    requires |gray| == 72
    ensures v < 0x1_0000_0000
  {
    ValueBound(DiffBits(gray)[32..]);
    Pow2Word();
    Value(DiffBits(gray)[32..])
  }

  /** The difference hash of a thumbnail. */
  function DHash(gray: seq<real>): Hash
    requires |gray| == 72
  {
    Words(HighValue(gray), LowValue(gray))
  }

  /** The hash with the given unsigned words. */
  function Words(hi: nat, lo: nat): Hash
    requires hi < 0x1_0000_0000 && lo < 0x1_0000_0000
  {
    Hash(hi as bv32, lo as bv32)
  }

  /** Comparison 8y + x of the top four rows is bit 31 - (8y + x) of the high word. */
  lemma DHashHighBits(gray: seq<real>, y: nat, x: nat)
    requires |gray| == 72 && y < 4 && x < 8
    ensures y * 9 + x + 1 < 72
    ensures (HighValue(gray) / Pow2(31 - (8 * y + x))) % 2 == B(gray[y * 9 + x] < gray[y * 9 + x + 1])
  {
    DiffBitAt(gray, y, x);
    ValueBit(DiffBits(gray)[..32], 8 * y + x);
  }

  /** Comparison 8y + x of the bottom four rows is bit 63 - (8y + x) of the low word. */
  lemma DHashLowBits(gray: seq<real>, y: nat, x: nat)
    requires |gray| == 72 && 4 <= y < 8 && x < 8
    ensures y * 9 + x + 1 < 72
    ensures (LowValue(gray) / Pow2(63 - (8 * y + x))) % 2 == B(gray[y * 9 + x] < gray[y * 9 + x + 1])
  {
    DiffBitAt(gray, y, x);
    ValueBit(DiffBits(gray)[32..], 8 * y + x - 32);
  }

  /** The two words after the first k bits have been shifted in. */
  ghost predicate Packed(bits: seq<bool>, k: nat, hi: int, lo: int)
    requires |bits| == 64 && k <= 64
  {
    if k <= 32 then hi == Value(bits[..k]) && lo == 0
    else hi == Value(bits[..32]) && lo == Value(bits[32..k])
  }

  lemma PackedStart(bits: seq<bool>)
    requires |bits| == 64
    ensures Packed(bits, 0, 0, 0)
  {
  }

  lemma PackedDone(bits: seq<bool>, hi: int, lo: int)
    requires |bits| == 64 && Packed(bits, 64, hi, lo)
    ensures hi == Value(bits[..32]) && lo == Value(bits[32..])
  {
    assert bits[32..64] == bits[32..];
  }

  lemma PackedStep(bits: seq<bool>, k: nat, hi: int, lo: int)
    requires |bits| == 64 && k < 64 && Packed(bits, k, hi, lo)
    ensures k < 32 ==> Packed(bits, k + 1, 2 * hi + B(bits[k]), lo)
    ensures k >= 32 ==> Packed(bits, k + 1, hi, 2 * lo + B(bits[k]))
  {
    if k < 32 {
      ValueSnoc(bits, k);
    } else {
      ValueSnoc(bits[32..], k - 32);
      assert bits[32..][..k - 32] == bits[32..k];
      assert bits[32..][..k + 1 - 32] == bits[32..k + 1];
    }
  }

  /**
   * dHash64FromCanvas, from the grayscale values of the 9 by 8 thumbnail on.
   * (hi << 1) | b on a word of fewer than 32 significant bits is 2 * hi + b
   * once the final >>> 0 has read the result as unsigned, which is how the
   * words are kept here.
   */
  method PackHash(gray: seq<real>) returns (h: Hash)
    requires |gray| == 72
    ensures h == DHash(gray)
  {
    hide Packed;
    ghost var bits := DiffBits(gray);
    PackedStart(bits);
    var hi, lo := 0, 0;
    var bit := 0;
    var y := 0;
    while y < 8
      invariant 0 <= y <= 8 && bit == 8 * y
      invariant Packed(bits, bit, hi, lo)
    {
      var x := 0;
      while x < 8
        invariant 0 <= x <= 8 && bit == 8 * y + x
        invariant Packed(bits, bit, hi, lo)
      {
        DiffBitAt(gray, y, x);
        var b := gray[y * 9 + x] < gray[y * 9 + x + 1];
        PackedStep(bits, bit, hi, lo);
        if bit < 32 {
          hi := 2 * hi + B(b);
        } else {
          lo := 2 * lo + B(b);
        }
        bit := bit + 1;
        x := x + 1;
      }
      y := y + 1;
    }
    PackedDone(bits, hi, lo);
    assert hi == HighValue(gray) && lo == LowValue(gray);
    h := Words(hi, lo);
  }

  // ---- reference hashes of the icon sheet ----

  /** ICON_W and ICON_H: the size of one tile of the icon sheet. */
  const IconW := 40
  const IconH := 30
  /** The sheet holds twelve tiles per row, national number n at index n. */
  const PerRow := 12

  /** The top-left corner of the tile of national number n. */
  function TileX(n: nat): nat { (n % PerRow) * IconW }
  function TileY(n: nat): nat { (n / PerRow) * IconH }

  /** The tile lies wholly inside a sheet of the given size. */
  predicate TileFits(n: nat, sheetW: int, sheetH: int) {
    TileX(n) + IconW <= sheetW && TileY(n) + IconH <= sheetH
  }

  /** The tile's corner gives the number back, so no two numbers share a tile. */
  lemma TileIndex(n: nat)
    ensures TileX(n) < PerRow * IconW
    ensures (TileY(n) / IconH) * PerRow + TileX(n) / IconW == n
  {
  }

  lemma TilesDistinct(n: nat, m: nat)
    ensures n != m ==> TileX(n) != TileX(m) || TileY(n) != TileY(m)
  {
    TileIndex(n);
    TileIndex(m);
  }

  /** The reference hash of number n: the hash of its tile's thumbnail, or the
      zero hash (the typed array's initial value) when n is 0 or its tile
      does not fit in the sheet. */
  function Reference(n: nat, sheetW: int, sheetH: int, thumb: (int, int) -> seq<real>): Hash
    requires forall x, y :: |thumb(x, y)| == 72
  {
    if 1 <= n && TileFits(n, sheetW, sheetH) then DHash(thumb(TileX(n), TileY(n))) else Hash(0, 0)
  }

  /**
   * The loop of ensureRef. The tile's 9 by 8 grayscale thumbnail is a
   * parameter, since drawing the sheet onto a canvas is not part of the model.
   */
  method BuildReference(sheetW: int, sheetH: int, maxNational: nat, thumb: (int, int) -> seq<real>)
    returns (refHi: array<bv32>, refLo: array<bv32>)
    requires forall x, y :: |thumb(x, y)| == 72
    ensures fresh(refHi) && fresh(refLo)
    ensures refHi.Length == maxNational + 1 && refLo.Length == maxNational + 1
    ensures forall n :: 0 <= n <= maxNational ==>
      Hash(refHi[n], refLo[n]) == Reference(n, sheetW, sheetH, thumb)
  {
    hide DHash;
    refHi := new bv32[maxNational + 1](_ => 0);
    refLo := new bv32[maxNational + 1](_ => 0);
    var n := 1;
    while n <= maxNational
      invariant 1 <= n <= maxNational + 1
      invariant forall k :: 0 <= k < n ==> Hash(refHi[k], refLo[k]) == Reference(k, sheetW, sheetH, thumb)
      invariant forall k :: n <= k <= maxNational ==> refHi[k] == 0 && refLo[k] == 0
    {
      var sx, sy := (n % PerRow) * IconW, (n / PerRow) * IconH;
      if sx + IconW > sheetW || sy + IconH > sheetH {
        n := n + 1;
        continue;
      }
      var h := PackHash(thumb(sx, sy));
      refHi[n] := h.hi;
      refLo[n] := h.lo;
      n := n + 1;
    }
  }

  // ---- nearest reference ----

  /** bestD's starting value, 1e9. */
  const Unmatched := 1000000000

  /** Number n has a reference hash: the loop skips the ones whose two words are 0. */
  predicate Listed(hi: seq<bv32>, lo: seq<bv32>, n: int) {
    1 <= n < |hi| && n < |lo| && (hi[n] != 0 || lo[n] != 0)
  }

  function Dist(h: Hash, hi: seq<bv32>, lo: seq<bv32>, n: nat): nat
    requires n < |hi| && n < |lo|
  {
    Hamming64(h, Hash(hi[n], lo[n]))
  }

  /** n is the smallest listed number at the least distance d from h. */
  ghost predicate Nearest(h: Hash, hi: seq<bv32>, lo: seq<bv32>, n: nat, d: int) {
    Listed(hi, lo, n) && d == Dist(h, hi, lo, n) &&
    forall m :: Listed(hi, lo, m) ==>
      d <= Dist(h, hi, lo, m) && (Dist(h, hi, lo, m) == d ==> n <= m)
  }

  /** What the search knows once it has looked at the numbers below n. */
  ghost predicate SoFar(h: Hash, hi: seq<bv32>, lo: seq<bv32>, n: nat, bestN: Option<nat>, bestD: int) {
    match bestN
    case None => bestD == Unmatched && forall m :: m < n ==> !Listed(hi, lo, m)
    case Some(b) =>
      Listed(hi, lo, b) && b < n && bestD == Dist(h, hi, lo, b) &&
      forall m :: m < n && Listed(hi, lo, m) ==>
        bestD <= Dist(h, hi, lo, m) && (Dist(h, hi, lo, m) == bestD ==> b <= m)
  }

  lemma SoFarSkip(h: Hash, hi: seq<bv32>, lo: seq<bv32>, n: nat, bestN: Option<nat>, bestD: int)
    requires SoFar(h, hi, lo, n, bestN, bestD) && !Listed(hi, lo, n)
    ensures SoFar(h, hi, lo, n + 1, bestN, bestD)
  {
    hide Hamming64;
  }

  lemma SoFarKeep(h: Hash, hi: seq<bv32>, lo: seq<bv32>, n: nat, bestN: Option<nat>, bestD: int)
    requires SoFar(h, hi, lo, n, bestN, bestD) && Listed(hi, lo, n)
    requires bestD <= Dist(h, hi, lo, n) && bestN.Some?
    ensures SoFar(h, hi, lo, n + 1, bestN, bestD)
  {
    hide Hamming64;
  }

  lemma SoFarTake(h: Hash, hi: seq<bv32>, lo: seq<bv32>, n: nat, bestN: Option<nat>, bestD: int)
    requires SoFar(h, hi, lo, n, bestN, bestD) && Listed(hi, lo, n)
    requires Dist(h, hi, lo, n) < bestD
    ensures SoFar(h, hi, lo, n + 1, Some(n), Dist(h, hi, lo, n))
  {
    hide Hamming64;
    var d := Dist(h, hi, lo, n);
    forall m | m < n + 1 && Listed(hi, lo, m)
      ensures d <= Dist(h, hi, lo, m) && (Dist(h, hi, lo, m) == d ==> n <= m)
    {
      if m < n {
        assert bestN.Some?;
      }
    }
  }


  /** Every number has been looked at. */
  lemma SoFarAll(h: Hash, hi: seq<bv32>, lo: seq<bv32>, n: nat, bestN: Option<nat>, bestD: int)
    requires SoFar(h, hi, lo, n, bestN, bestD) && |hi| <= n
    ensures bestN.None? <==> forall m :: !Listed(hi, lo, m)
    ensures bestN.Some? ==> Nearest(h, hi, lo, bestN.value, bestD)
  {
    hide Hamming64;
    if bestN.None? {
      forall m ensures !Listed(hi, lo, m) {
        assert m < n || !Listed(hi, lo, m);
      }
    }
  }

  /** Distance 0 cannot be beaten, and later numbers are larger: stopping early is safe. */
  lemma SoFarZero(h: Hash, hi: seq<bv32>, lo: seq<bv32>, n: nat)
    requires SoFar(h, hi, lo, n + 1, Some(n), 0)
    ensures Nearest(h, hi, lo, n, 0)
  {
    hide Hamming64;
  }

  /** The brute-force search of runAuto over numbers 1 to maxNational. */
  method NearestDex(h: Hash, refHi: array<bv32>, refLo: array<bv32>, maxNational: nat)
    returns (bestN: Option<nat>, bestD: int)
    requires refHi.Length == maxNational + 1 && refLo.Length == maxNational + 1
    ensures bestN.None? <==> forall m :: !Listed(refHi[..], refLo[..], m)
    ensures bestN.None? ==> bestD == Unmatched
    ensures bestN.Some? ==> Nearest(h, refHi[..], refLo[..], bestN.value, bestD)
  {
    hide Hamming64;
    ghost var hi, lo := refHi[..], refLo[..];
    bestN, bestD := None, Unmatched;
    var n := 1;
    while n <= maxNational
      invariant 1 <= n <= maxNational + 1
      invariant SoFar(h, hi, lo, n, bestN, bestD)
    {
      var rh, rl := refHi[n], refLo[n];
      if rh == 0 && rl == 0 {
        SoFarSkip(h, hi, lo, n, bestN, bestD);
        n := n + 1;
        continue;
      }
      var d := Hamming64(h, Hash(rh, rl));
      assert d == Dist(h, hi, lo, n);
      HammingBound(h, Hash(rh, rl));
      if d < bestD {
        SoFarTake(h, hi, lo, n, bestN, bestD);
        bestD, bestN := d, Some(n);
        if bestD == 0 {
          SoFarZero(h, hi, lo, n);
          assert Listed(hi, lo, n);
          return;
        }
      } else {
        SoFarKeep(h, hi, lo, n, bestN, bestD);
      }
      n := n + 1;
    }
    SoFarAll(h, hi, lo, n, bestN, bestD);
  }

  /** The slot's label: the name of the match, or "?" when nothing matched,
      the number has no (non-empty) name, or the distance exceeds 22. */
  function Label(bestN: Option<nat>, bestD: int, names: map<nat, string>): (shown: string)
    ensures shown != "?" ==> bestN.Some? && bestN.value in names && shown == names[bestN.value]
    ensures shown != "?" ==> bestD <= 22
    ensures bestN.Some? && bestN.value in names && names[bestN.value] != "" && bestD <= 22 ==>
      shown == names[bestN.value]
  {
    var ja := if bestN.Some? && bestN.value in names && names[bestN.value] != "" then names[bestN.value] else "?";
    if bestD > 22 then "?" else ja
  }

  /**
   * One slot of runAuto: hash the slot's thumbnail, find the nearest
   * reference and label it.
   */
  method MatchSlot(gray: seq<real>, refHi: array<bv32>, refLo: array<bv32>, maxNational: nat, names: map<nat, string>)
    returns (h: Hash, bestN: Option<nat>, bestD: int, shown: string)
    requires |gray| == 72
    requires refHi.Length == maxNational + 1 && refLo.Length == maxNational + 1
    ensures h == DHash(gray)
    ensures bestN.None? <==> forall m :: !Listed(refHi[..], refLo[..], m)
    ensures bestN.None? ==> bestD == Unmatched
    ensures bestN.Some? ==> Nearest(h, refHi[..], refLo[..], bestN.value, bestD)
    ensures shown == Label(bestN, bestD, names)
    ensures shown != "?" ==>
      bestN.Some? && bestD <= 22 && bestN.value in names && shown == names[bestN.value]
    ensures (forall m :: !Listed(refHi[..], refLo[..], m)) ==> shown == "?"
  {
    hide DHash;
    h := PackHash(gray);
    bestN, bestD := NearestDex(h, refHi, refLo, maxNational);
    shown := Label(bestN, bestD, names);
  }

  // ---- the six party slots ----

  /** A pixel the scan keeps: not (nearly) transparent, not near-white and
      not a light-gray separator. */
  predicate Ink(r: int, g: int, b: int, a: int) {
    !(a < 10) && !(r > 240 && g > 240 && b > 240) && !(r > 225 && g > 225 && b > 225)
  }

  /** Pixel (x, y) of the frame is ink; no pixel outside the frame is. */
  predicate InkAt(img: Image, y: int, x: int) {
    img.Valid() && 0 <= y < img.h && 0 <= x < img.w &&
    (PixelInBounds(img.w, img.h, y, x);
     var i := (y * img.w + x) * 4;
     Ink(img.data[i], img.data[i + 1], img.data[i + 2], img.data[i + 3]))
  }

  /** Reads the pixel at (x, y) of the buffer and classifies it. */
  method PixelIsInk(img: Image, y: int, x: int) returns (ok: bool)
    requires img.Valid() && 0 <= y < img.h && 0 <= x < img.w
    ensures ok == InkAt(img, y, x)
  {
    PixelInBounds(img.w, img.h, y, x);
    var i := (y * img.w + x) * 4;
    ok := Ink(img.data[i], img.data[i + 1], img.data[i + 2], img.data[i + 3]);
  }

  /** Pixel (xx, yy) of the band of sw by sh pixels whose top row is y0 is
      ink. The band is what getImageData copies out of the frame. */
  predicate InkIn(img: Image, y0: int, sw: int, sh: int, xx: int, yy: int) {
    0 <= xx < sw && 0 <= yy < sh && InkAt(img, y0 + yy, xx)
  }

  ghost predicate NoInk(img: Image, y0: int, sw: int, sh: int) {
    forall xx, yy :: !InkIn(img, y0, sw, sh, xx, yy)
  }

  /** Columns minX..maxX and rows minY..maxY bound the band's ink, and each
      side of that box touches an ink pixel. */
  ghost predicate InkBox(img: Image, y0: int, sw: int, sh: int, minX: int, minY: int, maxX: int, maxY: int) {
    (forall xx, yy :: InkIn(img, y0, sw, sh, xx, yy) ==> minX <= xx <= maxX && minY <= yy <= maxY) &&
    (exists yy :: InkIn(img, y0, sw, sh, minX, yy)) && (exists yy :: InkIn(img, y0, sw, sh, maxX, yy)) &&
    (exists xx :: InkIn(img, y0, sw, sh, xx, minY)) && (exists xx :: InkIn(img, y0, sw, sh, xx, maxY))
  }

  /** The ink determines its box. */
  lemma InkBoxUnique(img: Image, y0: int, sw: int, sh: int,
                     a: int, b: int, c: int, d: int, a': int, b': int, c': int, d': int)
    requires InkBox(img, y0, sw, sh, a, b, c, d) && InkBox(img, y0, sw, sh, a', b', c', d')
    ensures a == a' && b == b' && c == c' && d == d'
  {
    var y1 :| InkIn(img, y0, sw, sh, a, y1);
    var y2 :| InkIn(img, y0, sw, sh, a', y2);
    var y3 :| InkIn(img, y0, sw, sh, c, y3);
    var y4 :| InkIn(img, y0, sw, sh, c', y4);
    var x1 :| InkIn(img, y0, sw, sh, x1, b);
    var x2 :| InkIn(img, y0, sw, sh, x2, b');
    var x3 :| InkIn(img, y0, sw, sh, x3, d);
    var x4 :| InkIn(img, y0, sw, sh, x4, d');
  }

  /** minX and minY start at 1e9, maxX and maxY at -1. */
  const Far := 1000000000

  /** (x', y') comes before (xx, yy) in the row-by-row scan. */
  predicate Seen(yy: int, xx: int, y': int, x': int) {
    y' < yy || (y' == yy && x' < xx)
  }

  /** What the scan knows once it stands at (xx, yy). */
  ghost predicate Scanned(img: Image, y0: int, sw: int, sh: int, yy: int, xx: int,
                          minX: int, minY: int, maxX: int, maxY: int) {
    if maxX < 0 then
      minX == Far && minY == Far && maxY == -1 &&
      forall x', y' :: Seen(yy, xx, y', x') ==> !InkIn(img, y0, sw, sh, x', y')
    else
      (forall x', y' :: Seen(yy, xx, y', x') && InkIn(img, y0, sw, sh, x', y') ==>
         minX <= x' <= maxX && minY <= y' <= maxY) &&
      (exists y' :: Seen(yy, xx, y', minX) && InkIn(img, y0, sw, sh, minX, y')) &&
      (exists y' :: Seen(yy, xx, y', maxX) && InkIn(img, y0, sw, sh, maxX, y')) &&
      (exists x' :: Seen(yy, xx, minY, x') && InkIn(img, y0, sw, sh, x', minY)) &&
      (exists x' :: Seen(yy, xx, maxY, x') && InkIn(img, y0, sw, sh, x', maxY))
  }

  lemma ScannedStart(img: Image, y0: int, sw: int, sh: int)
    ensures Scanned(img, y0, sw, sh, 0, 0, Far, Far, -1, -1)
  {
  }

  lemma ScannedSkip(img: Image, y0: int, sw: int, sh: int, yy: int, xx: int,
                    minX: int, minY: int, maxX: int, maxY: int)
    requires Scanned(img, y0, sw, sh, yy, xx, minX, minY, maxX, maxY)
    requires !InkIn(img, y0, sw, sh, xx, yy)
    ensures Scanned(img, y0, sw, sh, yy, xx + 1, minX, minY, maxX, maxY)
  {
    hide InkIn;
    if maxX >= 0 {
      var a :| Seen(yy, xx, a, minX) && InkIn(img, y0, sw, sh, minX, a);
      var b :| Seen(yy, xx, b, maxX) && InkIn(img, y0, sw, sh, maxX, b);
      var c :| Seen(yy, xx, minY, c) && InkIn(img, y0, sw, sh, c, minY);
      var d :| Seen(yy, xx, maxY, d) && InkIn(img, y0, sw, sh, d, maxY);
      assert Seen(yy, xx + 1, a, minX) && Seen(yy, xx + 1, b, maxX);
      assert Seen(yy, xx + 1, minY, c) && Seen(yy, xx + 1, maxY, d);
    }
  }

  lemma ScannedInk(img: Image, y0: int, sw: int, sh: int, yy: int, xx: int,
                   minX: int, minY: int, maxX: int, maxY: int)
    requires Scanned(img, y0, sw, sh, yy, xx, minX, minY, maxX, maxY)
    requires InkIn(img, y0, sw, sh, xx, yy) && sw < Far && sh < Far
    ensures Scanned(img, y0, sw, sh, yy, xx + 1,
      if xx < minX then xx else minX, if yy < minY then yy else minY,
      if xx > maxX then xx else maxX, if yy > maxY then yy else maxY)
  {
    if maxX < 0 {
      assert Seen(yy, xx + 1, yy, xx);
    } else {
      ScannedMoreInk(img, y0, sw, sh, yy, xx, minX, minY, maxX, maxY);
    }
  }

  lemma ScannedMoreInk(img: Image, y0: int, sw: int, sh: int, yy: int, xx: int,
                   minX: int, minY: int, maxX: int, maxY: int)
    requires Scanned(img, y0, sw, sh, yy, xx, minX, minY, maxX, maxY)
    requires InkIn(img, y0, sw, sh, xx, yy) && sw < Far && sh < Far && maxX >= 0
    ensures Scanned(img, y0, sw, sh, yy, xx + 1,
      if xx < minX then xx else minX, if yy < minY then yy else minY,
      if xx > maxX then xx else maxX, if yy > maxY then yy else maxY)
  {
    hide InkIn;
    var minX', minY' := if xx < minX then xx else minX, if yy < minY then yy else minY;
    var maxX', maxY' := if xx > maxX then xx else maxX, if yy > maxY then yy else maxY;
    assert Seen(yy, xx + 1, yy, xx);
    {
      var a :| Seen(yy, xx, a, minX) && InkIn(img, y0, sw, sh, minX, a);
      var b :| Seen(yy, xx, b, maxX) && InkIn(img, y0, sw, sh, maxX, b);
      var c :| Seen(yy, xx, minY, c) && InkIn(img, y0, sw, sh, c, minY);
      var d :| Seen(yy, xx, maxY, d) && InkIn(img, y0, sw, sh, d, maxY);
      assert Seen(yy, xx + 1, a, minX) && Seen(yy, xx + 1, b, maxX);
      assert Seen(yy, xx + 1, minY, c) && Seen(yy, xx + 1, maxY, d);
      if minX' != xx { assert Seen(yy, xx + 1, a, minX') && InkIn(img, y0, sw, sh, minX', a); }
      if maxX' != xx { assert Seen(yy, xx + 1, b, maxX') && InkIn(img, y0, sw, sh, maxX', b); }
      if minY' != yy { assert Seen(yy, xx + 1, minY', c) && InkIn(img, y0, sw, sh, c, minY'); }
    }
  }

  lemma ScannedRow(img: Image, y0: int, sw: int, sh: int, yy: int,
                   minX: int, minY: int, maxX: int, maxY: int)
    requires Scanned(img, y0, sw, sh, yy, sw, minX, minY, maxX, maxY)
    ensures Scanned(img, y0, sw, sh, yy + 1, 0, minX, minY, maxX, maxY)
  {
    if maxX >= 0 {
      var a :| Seen(yy, sw, a, minX) && InkIn(img, y0, sw, sh, minX, a);
      var b :| Seen(yy, sw, b, maxX) && InkIn(img, y0, sw, sh, maxX, b);
      var c :| Seen(yy, sw, minY, c) && InkIn(img, y0, sw, sh, c, minY);
      var d :| Seen(yy, sw, maxY, d) && InkIn(img, y0, sw, sh, d, maxY);
      assert Seen(yy + 1, 0, a, minX) && Seen(yy + 1, 0, b, maxX);
      assert Seen(yy + 1, 0, minY, c) && Seen(yy + 1, 0, maxY, d);
    }
  }

  lemma ScannedDone(img: Image, y0: int, sw: int, sh: int,
                    minX: int, minY: int, maxX: int, maxY: int)
    requires Scanned(img, y0, sw, sh, sh, 0, minX, minY, maxX, maxY)
    ensures maxX < 0 <==> NoInk(img, y0, sw, sh)
    ensures maxX >= 0 ==> InkBox(img, y0, sw, sh, minX, minY, maxX, maxY)
  {
    if maxX >= 0 {
      var a :| Seen(sh, 0, a, minX) && InkIn(img, y0, sw, sh, minX, a);
      assert !NoInk(img, y0, sw, sh);
    }
  }

  /** The bounding-box scan of one band, with the page's sentinels. */
  method ScanInk(img: Image, y0: int, sw: int, sh: int) returns (minX: int, minY: int, maxX: int, maxY: int)
    requires img.Valid() && 0 <= y0 && 0 <= sw <= img.w && 0 <= sh && y0 + sh <= img.h
    requires sw < Far && sh < Far
    ensures maxX < 0 <==> NoInk(img, y0, sw, sh)
    ensures maxX >= 0 ==> InkBox(img, y0, sw, sh, minX, minY, maxX, maxY)
  {
    hide Scanned;
    minX, minY, maxX, maxY := Far, Far, -1, -1;
    ScannedStart(img, y0, sw, sh);
    var yy := 0;
    while yy < sh
      invariant 0 <= yy <= sh
      invariant Scanned(img, y0, sw, sh, yy, 0, minX, minY, maxX, maxY)
    {
      var xx := 0;
      while xx < sw
        invariant 0 <= xx <= sw
        invariant Scanned(img, y0, sw, sh, yy, xx, minX, minY, maxX, maxY)
      {
        var ink := PixelIsInk(img, y0 + yy, xx);
        if !ink {
          ScannedSkip(img, y0, sw, sh, yy, xx, minX, minY, maxX, maxY);
        } else {
          ScannedInk(img, y0, sw, sh, yy, xx, minX, minY, maxX, maxY);
          if xx < minX { minX := xx; }
          if yy < minY { minY := yy; }
          if xx > maxX { maxX := xx; }
          if yy > maxY { maxY := yy; }
        }
        xx := xx + 1;
      }
      ScannedRow(img, y0, sw, sh, yy, minX, minY, maxX, maxY);
      yy := yy + 1;
    }
    ScannedDone(img, y0, sw, sh, minX, minY, maxX, maxY);
  }

  /** The rows of band i of six: from floor(i * H / 6) up to the next band's. */
  function BandTop(i: nat, h: nat): nat { (i * h) / 6 }

  /** The searched columns: the left 45 percent of the frame. */
  function SearchWidth(w: nat): (sw: nat)
    ensures sw <= w
  {
    (w * 45) / 100
  }

  /** The six bands cover the frame's rows, top to bottom, without overlap. */
  lemma BandsTile(h: nat)
    ensures BandTop(0, h) == 0 && BandTop(6, h) == h
    ensures forall i :: 0 <= i < 6 ==> BandTop(i, h) <= BandTop(i + 1, h)
  {
    forall i | 0 <= i < 6 ensures BandTop(i, h) <= BandTop(i + 1, h) {
      assert (i + 1) * h == i * h + h;
    }
  }

  lemma BandInside(i: nat, h: nat)
    requires i < 6
    ensures BandTop(i, h) <= BandTop(i + 1, h) <= h
  {
    BandsTile(h);
    if i + 1 < 6 {
      MulLe(i + 2, 6, h);
      assert (i + 2) * h == (i + 1) * h + h;
    }
    MulLe(i + 1, 6, h);
  }

  /** Band i has no rows; getImageData throws on it. */
  predicate EmptyBand(i: nat, h: nat) { BandTop(i + 1, h) == BandTop(i, h) }

  const Pad := 2

  /**
   * The crop of a slot whose ink spans columns minX..maxX and rows
   * minY..maxY of the band at row y0: the box widened by two pixels on each
   * side as far as the band allows, then moved by the fractions dx and dy of
   * its size and scaled by sc (the page's three adjustment knobs; 0, 0 and 1
   * by default).
   */
  function CropRect(y0: int, sw: int, sh: int, minX: int, minY: int, maxX: int, maxY: int,
                    dx: real, dy: real, sc: real): Rect
  {
    var left := if minX - Pad > 0 then minX - Pad else 0;
    var top := if minY - Pad > 0 then minY - Pad else 0;
    var right := if maxX + Pad < sw - 1 then maxX + Pad else sw - 1;
    var bottom := if maxY + Pad < sh - 1 then maxY + Pad else sh - 1;
    var bw, bh := right - left + 1, bottom - top + 1;
    Rect(left + (bw as real * dx).Floor, y0 + top + (bh as real * dy).Floor,
         (bw as real * sc).Floor, (bh as real * sc).Floor)
  }

  /** With the knobs at their defaults the crop lies inside the band, holds
      every ink pixel, and keeps a margin of two pixels where the band has room. */
  lemma CropCoversInk(img: Image, y0: int, sw: int, sh: int, minX: int, minY: int, maxX: int, maxY: int)
    requires InkBox(img, y0, sw, sh, minX, minY, maxX, maxY)
    ensures var r := CropRect(y0, sw, sh, minX, minY, maxX, maxY, 0.0, 0.0, 1.0);
      0 <= r.x && r.x + r.w <= sw && y0 <= r.y && r.y + r.h <= y0 + sh &&
      (r.x == 0 || r.x + Pad == minX) && (r.x + r.w == sw || r.x + r.w == maxX + Pad + 1) &&
      (r.y == y0 || r.y + Pad == y0 + minY) && (r.y + r.h == y0 + sh || r.y + r.h == y0 + maxY + Pad + 1) &&
      forall xx, yy :: InkIn(img, y0, sw, sh, xx, yy) ==>
        r.x <= xx < r.x + r.w && r.y <= y0 + yy < r.y + r.h
  {
    var a :| InkIn(img, y0, sw, sh, minX, a);
    var b :| InkIn(img, y0, sw, sh, maxX, b);
    var c :| InkIn(img, y0, sw, sh, c, minY);
    var d :| InkIn(img, y0, sw, sh, d, maxY);
  }

  /** One slot: a band with no ink, or the crop around its ink. */
  datatype Slot = Blank | Box(crop: Rect)

  ghost predicate SlotOf(img: Image, i: nat, dx: real, dy: real, sc: real, s: Slot) {
    var y0, sw := BandTop(i, img.h), SearchWidth(img.w);
    var sh := BandTop(i + 1, img.h) - y0;
    match s
    case Blank => NoInk(img, y0, sw, sh)
    case Box(r) => exists minX, minY, maxX, maxY ::
      InkBox(img, y0, sw, sh, minX, minY, maxX, maxY) &&
      r == CropRect(y0, sw, sh, minX, minY, maxX, maxY, dx, dy, sc)
  }

  /**
   * extractSixIconsFromRightPanel on the (already cropped) frame: None when
   * one of the bands is empty, where getImageData throws and the page's run
   * stops.
   */
  method ExtractSlots(img: Image, dx: real, dy: real, sc: real) returns (slots: Option<seq<Slot>>)
    requires img.Valid() && img.w < Far && img.h < Far
    ensures slots.None? <==> SearchWidth(img.w) == 0 || exists i :: 0 <= i < 6 && EmptyBand(i, img.h)
    ensures slots.Some? ==> |slots.value| == 6
    ensures slots.Some? ==> forall i :: 0 <= i < 6 ==> SlotOf(img, i, dx, dy, sc, slots.value[i])
  {
    hide SlotOf;
    var out: seq<Slot> := [];
    var sw := (img.w * 45) / 100;
    for i := 0 to 6
      invariant |out| == i
      invariant forall k :: 0 <= k < i ==> SlotOf(img, k, dx, dy, sc, out[k])
      invariant i > 0 ==> sw > 0
      invariant forall k :: 0 <= k < i ==> !EmptyBand(k, img.h)
    {
      var y0, y1 := (i * img.h) / 6, ((i + 1) * img.h) / 6;
      var sh := y1 - y0;
      if sw == 0 || sh == 0 {
        assert sw == SearchWidth(img.w) && (sh == 0 ==> EmptyBand(i, img.h));
        return None;
      }
      var s := BandSlot(img, i, dx, dy, sc);
      out := out + [s];
    }
    slots := Some(out);
  }

  /** The body of the page's loop for band i, once the band is known to have rows. */
  method BandSlot(img: Image, i: nat, dx: real, dy: real, sc: real) returns (s: Slot)
    requires img.Valid() && img.w < Far && img.h < Far && i < 6
    requires SearchWidth(img.w) > 0 && !EmptyBand(i, img.h)
    ensures SlotOf(img, i, dx, dy, sc, s)
  {
    hide InkBox, NoInk, CropRect;
    var sw := (img.w * 45) / 100;
    var y0, y1 := (i * img.h) / 6, ((i + 1) * img.h) / 6;
    var sh := y1 - y0;
    BandInside(i, img.h);
    var minX, minY, maxX, maxY := ScanInk(img, y0, sw, sh);
    if maxX < 0 {
      s := Blank;
    } else {
      var r := CropRect(y0, sw, sh, minX, minY, maxX, maxY, dx, dy, sc);
      assert InkBox(img, y0, sw, sh, minX, minY, maxX, maxY);
      s := Box(r);
    }
  }

  // ---- escapeHtml ----

  function EscapeChar(c: char): string {
    match c
    case '&' => "&amp;"
    case '<' => "&lt;"
    case '>' => "&gt;"
    case '"' => "&quot;"
    case '\'' => "&#39;"
    case _ => [c]
  }

  /** Markup characters other than the ampersand never appear in the output. */
  predicate Inert(c: char) { c != '<' && c != '>' && c != '"' && c != '\'' }

  /** escapeHtml: each of the five markup characters becomes its entity. */
  function EscapeHtml(s: string): (r: string)
    ensures forall i :: 0 <= i < |r| ==> Inert(r[i])
  {
    if |s| == 0 then "" else EscapeChar(s[0]) + EscapeHtml(s[1..])
  }

  /** Decoding of the five entities, the other direction. */
  function Unescape(t: string): string {
    if |t| == 0 then ""
    else if StartsWith(t, "&amp;") then "&" + Unescape(t[5..])
    else if StartsWith(t, "&lt;") then "<" + Unescape(t[4..])
    else if StartsWith(t, "&gt;") then ">" + Unescape(t[4..])
    else if StartsWith(t, "&quot;") then "\"" + Unescape(t[6..])
    else if StartsWith(t, "&#39;") then "'" + Unescape(t[5..])
    else [t[0]] + Unescape(t[1..])
  }

  /** t does not start with p when they differ at position k. */
  lemma Differs(t: string, p: string, k: nat)
    requires k < |t| && k < |p| && t[k] != p[k]
    ensures !StartsWith(t, p)
  {
  }

  lemma Starts(e: string, rest: string)
    ensures StartsWith(e + rest, e) && (e + rest)[|e|..] == rest
  {
    assert (e + rest)[..|e|] == e;
  }

  /** An entity decodes to its character, whatever follows it. */
  lemma UnescapeChar(c: char, rest: string)
    ensures Unescape(EscapeChar(c) + rest) == [c] + Unescape(rest)
  {
    var e := EscapeChar(c);
    var t := e + rest;
    Starts(e, rest);
    match c
    case '&' =>
    case '<' =>
      Differs(t, "&amp;", 1);
    case '>' =>
      Differs(t, "&amp;", 1);
      Differs(t, "&lt;", 1);
    case '"' =>
      Differs(t, "&amp;", 1);
      Differs(t, "&lt;", 1);
      Differs(t, "&gt;", 1);
    case '\'' =>
      Differs(t, "&amp;", 1);
      Differs(t, "&lt;", 1);
      Differs(t, "&gt;", 1);
      Differs(t, "&quot;", 1);
    case _ =>
      Differs(t, "&amp;", 0);
      Differs(t, "&lt;", 0);
      Differs(t, "&gt;", 0);
      Differs(t, "&quot;", 0);
      Differs(t, "&#39;", 0);
  }

  /** Nothing is lost: decoding gives the original text back. */
  lemma {:induction false} UnescapeEscape(s: string)
    ensures Unescape(EscapeHtml(s)) == s
  {
    if |s| > 0 {
      UnescapeChar(s[0], EscapeHtml(s[1..]));
      UnescapeEscape(s[1..]);
    }
  }
}

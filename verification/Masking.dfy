/**
 Masking a coordinate to a number of precision bits, in 32-bit two's complement arithmetic.
 */
module Masking {
  import opened Arithmetic

  const TWO_32: int := 0x1_0000_0000
  const TWO_31: int := 0x8000_0000

  predicate IsCoordinate(v: int) {
    -TWO_31 <= v < TWO_31
  }

  function Pow2(n: nat): (p: int)
    ensures p > 0
  {
    if n == 0 then 1 else 2 * Pow2(n - 1)
  }

  /** Width of the cells at a precision: 2 to the power of the masked bits. */
  function Width(bits: nat): (w: int)
    requires bits <= 32
    ensures w > 0
  {
    Pow2(32 - bits)
  }

  /** Bitwise AND of two numbers that are not negative. */
  function And(a: nat, b: nat): nat {
    if a == 0 || b == 0 then 0 else (a % 2) * (b % 2) + 2 * And(a / 2, b / 2)
  }

  /** Reading 32 bits in two's complement. */
  function Signed(unsigned: int): int {
    if unsigned >= TWO_31 then unsigned - TWO_32 else unsigned
  }

  /** Reducing modulo a power of two is an AND with all ones below it. */
  function MaskPositionCoordinate(value: int, bits: nat): int {
    if bits >= 32 then value
    else
      var unsigned := value % TWO_32;
      var mask := ((TWO_32 - 1) * Pow2(32 - bits)) % TWO_32;
      var masked := And(unsigned, mask);
      Signed((masked + Pow2(31 - bits)) % TWO_32)
  }

  /** The cell of a coordinate starts at the multiple of the width at or below it. */
  ghost predicate InCell(value: int, start: int, w: int)
    requires w > 0
  {
    start % w == 0 && start <= value < start + w
  }

  lemma WidthDivides(bits: nat)
    requires 1 <= bits <= 31
    ensures TWO_31 % Width(bits) == 0 && TWO_32 % Width(bits) == 0
    ensures Width(bits) == 2 * Pow2(31 - bits) && Width(bits) <= TWO_31
  {
    PowersAre();
    PowSum(bits - 1, 32 - bits);
    PowSum(bits, 32 - bits);
    Multiple(Pow2(bits - 1), Width(bits));
    Multiple(Pow2(bits), Width(bits));
    PowGrows(32 - bits, 31);
  }

  lemma PowersAre()
    ensures Pow2(30) == 0x4000_0000 && Pow2(31) == TWO_31 && Pow2(32) == TWO_32
  {
    assert Pow2(10) == 1024;
    PowSum(10, 10);
    PowSum(20, 10);
    PowSum(30, 1);
    assert Pow2(20) == 1024 * 1024;
  }

  lemma {:induction false} PowSum(a: nat, b: nat)
    ensures Pow2(a + b) == Pow2(a) * Pow2(b)
  {
    if b > 0 {
      PowSum(a, b - 1);
      assert Pow2(a + b) == 2 * Pow2(a + b - 1);
    }
  }

  /** ANDing with ones above bit k clears the k bits below. */
  lemma {:induction false} AndClears(x: nat, m: nat, n: nat, k: nat)
    requires k <= n && x < Pow2(n) && m == Pow2(n) - Pow2(k)
    ensures And(x, m) == x - x % Pow2(k)
    decreases n
  {
    if n > 0 {
      var y := x / 2;
      if k == 0 {
        assert m == 2 * (Pow2(n - 1) - 1) + 1 && m % 2 == 1 && m / 2 == Pow2(n - 1) - 1;
        AndClears(y, m / 2, n - 1, 0);
      } else {
        PowGrows(k - 1, n - 1);
        assert m == 2 * (Pow2(n - 1) - Pow2(k - 1));
        if m == 0 {
          PowGrows(k, n);
          SmallRemainder(x, Pow2(k));
        } else {
          AndClears(y, m / 2, n - 1, k - 1);
          AndOfEven(x, m / 2);
          HalfRemainder(x, Pow2(k - 1));
        }
      }
    }
  }

  lemma AndOfEven(x: nat, half: nat)
    ensures And(x, 2 * half) == 2 * And(x / 2, half)
  {
  }

  lemma SmallRemainder(x: nat, w: nat)
    requires x < w
    ensures x % w == x
  {
    Euclid(0, x, w);
  }

  lemma HalfRemainder(x: nat, h: nat)
    requires h > 0
    ensures x - x % (2 * h) == 2 * (x / 2 - x / 2 % h)
  {
    var y := x / 2;
    var q, r := y / h, y % h;
    assert y == q * h + r;
    assert x == q * (2 * h) + (2 * r + x % 2);
    Euclid(q, 2 * r + x % 2, 2 * h);
  }

  lemma {:induction false} PowGrows(a: nat, b: nat)
    requires a <= b
    ensures Pow2(a) <= Pow2(b) && (a < b ==> Pow2(a) < Pow2(b))
  {
    if a < b {
      PowGrows(a, b - 1);
    }
  }

  /** The mask has its ones above the masked bits. */
  lemma MaskIs(bits: nat)
    requires 1 <= bits <= 31
    ensures ((TWO_32 - 1) * Pow2(32 - bits)) % TWO_32 == TWO_32 - Width(bits)
  {
    WidthDivides(bits);
    var w := Width(bits);
    assert (TWO_32 - 1) * w == (w - 1) * TWO_32 + (TWO_32 - w);
    Euclid(w - 1, TWO_32 - w, TWO_32);
  }

  /** Multiples of a width are added and subtracted without leaving the cells. */
  lemma SumOfMultiples(a: int, b: int, w: int)
    requires w > 0 && a % w == 0 && b % w == 0
    ensures (a + b) % w == 0 && (a - b) % w == 0
  {
    var x, y := a / w, b / w;
    assert a == x * w && b == y * w;
    assert a + b == (x + y) * w && a - b == (x - y) * w;
    Multiple(x + y, w);
    Multiple(x - y, w);
  }

  lemma StartIsUnique(value: int, a: int, b: int, w: int)
    requires w > 0 && InCell(value, a, w) && InCell(value, b, w)
    ensures a == b
  {
    var x, y := a / w, b / w;
    assert a == x * w && b == y * w;
    var d := x - y;
    assert d * w == a - b;
    Growth(d, w);
  }

  /** The cell of a 32-bit value and its unsigned form, and nothing wraps around. */
  lemma CellOf(value: int, bits: nat) returns (start: int)
    requires IsCoordinate(value) && 1 <= bits <= 31
    ensures InCell(value, start, Width(bits)) && -TWO_31 <= start && start + Width(bits) <= TWO_31
    ensures MaskPositionCoordinate(value, bits) == start + Pow2(31 - bits)
  {
    var masked := And(value % TWO_32, ((TWO_32 - 1) * Pow2(32 - bits)) % TWO_32);
    MaskedIs(value % TWO_32, bits);
    start := CellOfMasked(value, bits, masked);
  }

  lemma CellOfMasked(value: int, bits: nat, masked: int) returns (start: int)
    requires IsCoordinate(value) && 1 <= bits <= 31 && InCell(value % TWO_32, masked, Width(bits))
    ensures InCell(value, start, Width(bits)) && -TWO_31 <= start && start + Width(bits) <= TWO_31
    ensures Signed((masked + Pow2(31 - bits)) % TWO_32) == start + Pow2(31 - bits)
  {
    WidthDivides(bits);
    var base := if value < 0 then TWO_32 else 0;
    assert value % TWO_32 == value + base;
    start := masked - base;
    ShiftedCell(value, masked, base, Width(bits));
    InRange(value, start, bits);
    SignedCentre(masked, base, Pow2(31 - bits));
  }

  /** Adding half a cell does not change the sign, so reading the sum as signed undoes the shift. */
  lemma SignedCentre(masked: int, base: int, half: int)
    requires half > 0 && (if base == 0 then 0 <= masked && masked + 2 * half <= TWO_31
                          else base == TWO_32 && TWO_31 <= masked && masked + 2 * half <= TWO_32)
    ensures Signed((masked + half) % TWO_32) == masked - base + half
  {
  }

  lemma ShiftedCell(value: int, masked: int, base: int, w: int)
    requires w > 0 && InCell(value + base, masked, w) && (base == 0 || base % w == 0)
    ensures InCell(value, masked - base, w)
  {
    Multiple(0, w);
    SumOfMultiples(masked, base, w);
  }

  lemma MaskedIs(unsigned: nat, bits: nat)
    requires unsigned < TWO_32 && 1 <= bits <= 31
    ensures InCell(unsigned, And(unsigned, ((TWO_32 - 1) * Pow2(32 - bits)) % TWO_32), Width(bits))
  {
    MaskIs(bits);
    PowersAre();
    AndClears(unsigned, TWO_32 - Width(bits), 32, 32 - bits);
    FloorCell(unsigned, Width(bits));
  }

  lemma FloorCell(x: nat, w: int)
    requires w > 0
    ensures InCell(x, x - x % w, w)
  {
    assert x - x % w == (x / w) * w;
    Multiple(x / w, w);
  }

  /** Cells never straddle the ends of the 32-bit range, nor zero. */
  lemma InRange(value: int, start: int, bits: nat)
    requires IsCoordinate(value) && 1 <= bits <= 31 && InCell(value, start, Width(bits))
    ensures -TWO_31 <= start && start + Width(bits) <= TWO_31 && (value < 0 ==> start + Width(bits) <= 0) && (value >= 0 ==> start >= 0)
  {
    var w := Width(bits);
    WidthDivides(bits);
    NotAcross(value, start, w, -TWO_31);
    NotAcross(value, start, w, TWO_31);
    NotAcross(value, start, w, 0);
  }

  /** A multiple of the width never lies strictly inside a cell. */
  lemma NotAcross(value: int, start: int, w: int, edge: int)
    requires w > 0 && InCell(value, start, w) && (edge % w == 0 || (-edge) % w == 0)
    ensures edge <= value ==> edge <= start
    ensures value < edge ==> start + w <= edge
  {
    var x := start / w;
    assert start == x * w;
    var y := if edge % w == 0 then edge / w else -((-edge) / w);
    assert edge == y * w;
    var d := y - x;
    assert d * w == edge - start;
    Growth(d, w);
  }

  /**
   The masked coordinate is the centre of the aligned cell that holds the value: it stays in range
   and is at most half a cell away.
   */
  lemma MaskIsCellCentre(value: int, bits: nat)
    requires IsCoordinate(value) && 1 <= bits <= 31
    ensures exists start :: InCell(value, start, Width(bits)) && MaskPositionCoordinate(value, bits) == start + Pow2(31 - bits)
    ensures IsCoordinate(MaskPositionCoordinate(value, bits))
    ensures -Pow2(31 - bits) <= MaskPositionCoordinate(value, bits) - value <= Pow2(31 - bits)
  {
    var start := CellOf(value, bits);
    WidthDivides(bits);
  }

  /** At full precision nothing is masked, and without any precision every coordinate becomes the lowest one. */
  lemma MaskAtEnds(value: int, bits: nat)
    ensures bits >= 32 ==> MaskPositionCoordinate(value, bits) == value
    ensures bits == 0 ==> MaskPositionCoordinate(value, bits) == -TWO_31
  {
    if bits == 0 {
      PowersAre();
      Multiple(TWO_32 - 1, TWO_32);
      assert And(value % TWO_32, 0) == 0;
    }
  }

  /** Two coordinates are masked to the same one exactly when they share a cell. */
  lemma SameMaskIffSameCell(a: int, b: int, bits: nat, start: int)
    requires IsCoordinate(a) && IsCoordinate(b) && 1 <= bits <= 31 && InCell(a, start, Width(bits))
    ensures MaskPositionCoordinate(a, bits) == MaskPositionCoordinate(b, bits) <==> InCell(b, start, Width(bits))
  {
    var s := CellOf(a, bits);
    var t := CellOf(b, bits);
    StartIsUnique(a, s, start, Width(bits));
    if InCell(b, start, Width(bits)) {
      StartIsUnique(b, t, start, Width(bits));
    }
  }

  /** Masking coarsely after masking finely, or at the same precision again, gives the coarse masking alone. */
  lemma CoarseAfterFine(value: int, coarse: nat, fine: nat)
    requires IsCoordinate(value) && 1 <= coarse <= fine <= 31
    ensures MaskPositionCoordinate(MaskPositionCoordinate(value, fine), coarse) == MaskPositionCoordinate(value, coarse)
  {
    var small := CellOf(value, fine);
    var big := CellOf(value, coarse);
    var masked := MaskPositionCoordinate(value, fine);
    WidthDivides(fine);
    NestedWidths(coarse, fine);
    BigEdge(big, Width(coarse), Width(fine), Pow2(fine - coarse));
    NotAcross(value, small, Width(fine), big);
    NotAcross(value, small, Width(fine), big + Width(coarse));
    MaskIsCellCentre(value, fine);
    assert InCell(masked, big, Width(coarse));
    SameMaskIffSameCell(value, masked, coarse, big);
  }

  lemma NestedWidths(coarse: nat, fine: nat)
    requires 1 <= coarse <= fine <= 31
    ensures Width(coarse) == Pow2(fine - coarse) * Width(fine)
  {
    PowSum(fine - coarse, 32 - fine);
  }

  lemma Nested(x: int, c: int, f: int, k: int)
    requires c > 0 && f > 0 && c == k * f && x % c == 0
    ensures x % f == 0
  {
    var q := x / c;
    assert x == q * c;
    assert q * (k * f) == (q * k) * f;
    Multiple(q * k, f);
  }

  lemma BigEdge(big: int, c: int, f: int, k: int)
    requires c > 0 && f > 0 && c == k * f && big % c == 0
    ensures (big + c) % f == 0 && big % f == 0
  {
    Multiple(1, c);
    SumOfMultiples(big, c, c);
    Nested(big, c, f, k);
    Nested(big + c, c, f, k);
  }
}

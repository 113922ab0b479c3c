/** Widening and narrowing of GDTF DMX values (DIN SPEC 15800, attribute value type DMXValue). */
module DmxValue {
  import opened Prelude

  datatype Conversion = Mirror | Shift
  datatype Parsed = Parsed(value: nat, bytes: nat, conversion: Conversion)

  const WORD := 0x1_0000_0000

  function Power256(k: nat): (r: nat)
    requires k <= 4
    ensures r == if k == 0 then 1 else 256 * Power256(k - 1)
  {
    if k == 0 then 1 else if k == 1 then 0x100 else if k == 2 then 0x1_0000 else if k == 3 then 0x100_0000 else WORD
  }

  function Maximum(bytes: nat): nat
    requires 1 <= bytes <= 4
  {
    Power256(bytes) - 1
  }

  /** What the parser guarantees: one to four bytes and a value of that width. */
  predicate WellFormed(p: Parsed) {
    1 <= p.bytes <= 4 && p.value <= Maximum(p.bytes)
  }

  /** Left shift by `k` bytes in a 32-bit word. */
  function ShiftLeft(x: nat, k: nat): nat
    requires k < 4
  {
    if k == 0 then x else if k == 1 then x * 0x100 % WORD
    else if k == 2 then x * 0x1_0000 % WORD else x * 0x100_0000 % WORD
  }

  function ShiftRight(x: nat, k: nat): nat
    requires k < 4
  {
    if k == 0 then x else if k == 1 then x / 0x100 else if k == 2 then x / 0x1_0000 else x / 0x100_0000
  }

  function Min(a: nat, b: nat): nat {
    if a < b then a else b
  }

  /** The bytes of the value written again and again until `filled` bytes are in place. */
  function Tiled(value: nat, bytes: nat, filled: nat): nat
    requires 1 <= bytes <= filled <= 4
  {
    if bytes == filled then value
    else if bytes == 1 then (if filled == 2 then 0x101 * value else if filled == 3 then 0x1_0101 * value else 0x101_0101 * value)
    else if bytes == 2 then (if filled == 3 then 0x100 * value + value / 0x100 else 0x1_0001 * value)
    else 0x100 * value + value / 0x1_0000
  }

  /** One round of the widening loop appends up to `bytes` leading bytes of the value, without carry or overflow. */
  lemma TileOnce(value: nat, bytes: nat, filled: nat, target: nat)
    requires 1 <= bytes <= filled < target <= 4 && value <= Maximum(bytes) && filled % bytes == 0
    ensures var take := Min(bytes, target - filled);
            && ShiftLeft(Tiled(value, bytes, filled), take) + ShiftRight(value, bytes - take) ==
                 Tiled(value, bytes, filled + take)
            && ShiftLeft(Tiled(value, bytes, filled), take) % Power256(take) == 0
            && ShiftRight(value, bytes - take) < Power256(take)
            && (filled + take == target || (filled + take) % bytes == 0)
  {
    if bytes == 1 {
      TileOneByte(value, filled);
    } else {
      TileWord(value, bytes, target);
    }
  }

  lemma TileOneByte(value: nat, filled: nat)
    requires 1 <= filled < 4 && value <= 0xFF
    ensures ShiftLeft(Tiled(value, 1, filled), 1) + value == Tiled(value, 1, filled + 1)
    ensures ShiftLeft(Tiled(value, 1, filled), 1) % 0x100 == 0
  {
    if filled == 1 {
    } else if filled == 2 {
    } else {
      assert filled == 3;
    }
  }

  lemma TileTwoIntoThree(value: nat)
    requires value <= 0xFFFF
    ensures ShiftLeft(value, 1) + ShiftRight(value, 1) == Tiled(value, 2, 3)
    ensures ShiftLeft(value, 1) % 0x100 == 0 && ShiftRight(value, 1) < 0x100
  {
    assert ShiftLeft(value, 1) == value * 0x100;
  }

  lemma TileTwoIntoFour(value: nat)
    requires value <= 0xFFFF
    ensures ShiftLeft(value, 2) + ShiftRight(value, 0) == Tiled(value, 2, 4)
    ensures ShiftLeft(value, 2) % 0x1_0000 == 0 && ShiftRight(value, 0) < 0x1_0000
  {
    assert ShiftLeft(value, 2) == value * 0x1_0000;
  }

  lemma TileThreeIntoFour(value: nat)
    requires value <= 0xFF_FFFF
    ensures ShiftLeft(value, 1) + ShiftRight(value, 2) == Tiled(value, 3, 4)
    ensures ShiftLeft(value, 1) % 0x100 == 0 && ShiftRight(value, 2) < 0x100
  {
    assert ShiftLeft(value, 1) == value * 0x100;
  }

  lemma TileWord(value: nat, bytes: nat, target: nat)
    requires 2 <= bytes < target <= 4 && value <= Maximum(bytes)
    ensures var take := Min(bytes, target - bytes);
            && ShiftLeft(value, take) + ShiftRight(value, bytes - take) == Tiled(value, bytes, bytes + take)
            && ShiftLeft(value, take) % Power256(take) == 0 && ShiftRight(value, bytes - take) < Power256(take)
            && bytes + take == target
  {
    if bytes == 3 {
      TileThreeIntoFour(value);
    } else if target == 3 {
      TileTwoIntoThree(value);
    } else {
      TileTwoIntoFour(value);
    }
  }

  function Converted(p: Parsed, target: nat): nat
    requires 1 <= p.bytes <= 4 && 1 <= target <= 4
  {
    if p.bytes == target then p.value
    else if p.bytes > target then ShiftRight(p.value, p.bytes - target)
    else if p.conversion == Shift then ShiftLeft(p.value, target - p.bytes)
    else Tiled(p.value, p.bytes, target)
  }

  /** The conversion as written. In the loop `|` of disjoint bit ranges appears as a sum; TileOnce justifies it. */
  method ConvertDmxValue(p: Parsed, target: nat) returns (out: Option<nat>)
    requires p.bytes == 0 || p.bytes > 4 || WellFormed(p)
    ensures out.Some? <==> 1 <= p.bytes <= 4 && 1 <= target <= 4
    ensures out.Some? ==> out.value == Converted(p, target)
  {
    if p.bytes == 0 || p.bytes > 4 || target == 0 || target > 4 {
      return None;
    }
    if p.bytes == target {
      return Some(p.value);
    }
    if p.bytes > target {
      return Some(ShiftRight(p.value, p.bytes - target));
    }
    if p.conversion == Shift {
      return Some(ShiftLeft(p.value, target - p.bytes));
    }
    var converted := p.value;
    var filled := p.bytes;
    while filled < target
      invariant p.bytes <= filled <= target
      invariant filled < target ==> filled % p.bytes == 0
      invariant converted == Tiled(p.value, p.bytes, filled)
    {
      var take := Min(p.bytes, target - filled);
      TileOnce(p.value, p.bytes, filled, target);
      converted := ShiftLeft(converted, take) + ShiftRight(p.value, p.bytes - take);
      filled := filled + take;
    }
    return Some(converted);
  }

  // ----- properties of the conversion -----

  /** Mirroring is floor(v * 256^t / (256^s - 1)) below the maximum, and maximum to maximum. */
  lemma MirrorIsTheRepeatingFraction(p: Parsed, target: nat)
    requires WellFormed(p) && p.conversion == Mirror && p.bytes <= target <= 4
    ensures p.value == Maximum(p.bytes) ==> Converted(p, target) == Maximum(target)
    ensures p.value < Maximum(p.bytes) ==>
              Converted(p, target) == p.value * Power256(target) / (Power256(p.bytes) - 1)
  {
    var v, d := p.value, Power256(p.bytes) - 1;
    if v < Maximum(p.bytes) {
      MirrorRemainder(p, target);
      var x := v * Power256(target);
      Quotient(x, d, Converted(p, target), x - Converted(p, target) * d);
    }
  }

  /** What is left of v * 256^t after taking the mirrored multiple of 256^s - 1: a rotation of v's bytes. */
  lemma MirrorRemainder(p: Parsed, target: nat)
    requires WellFormed(p) && p.conversion == Mirror && p.bytes <= target <= 4 && p.value < Maximum(p.bytes)
    ensures 0 <= p.value * Power256(target) - Converted(p, target) * (Power256(p.bytes) - 1) < Power256(p.bytes) - 1
  {
    if p.bytes == target {
      assert p.value * Power256(target) - p.value * (Power256(p.bytes) - 1) == p.value;
    } else if p.bytes == 1 {
      MirrorByteRemainder(p.value, target);
    } else if p.bytes == 2 {
      MirrorWordRemainder(p.value, target);
    } else {
      MirrorTripleRemainder(p.value);
    }
  }

  lemma MirrorByteRemainder(v: nat, target: nat)
    requires v < 0xFF && 1 < target <= 4
    ensures v * Power256(target) - Tiled(v, 1, target) * 0xFF == v
  {
    if target == 2 {
    } else if target == 3 {
    } else {
      assert target == 4;
    }
  }

  lemma MirrorWordRemainder(v: nat, target: nat)
    requires v < 0xFFFF && 2 < target <= 4
    ensures 0 <= v * Power256(target) - Tiled(v, 2, target) * 0xFFFF < 0xFFFF
  {
    if target == 3 {
      var a, b := v / 256, v % 256;
      assert v == 256 * a + b;
      assert v * 0x100_0000 - (0x100 * v + a) * 0xFFFF == 256 * b + a;
    } else {
      assert target == 4;
    }
  }

  lemma MirrorTripleRemainder(v: nat)
    requires v < 0xFF_FFFF
    ensures 0 <= v * WORD - Tiled(v, 3, 4) * 0xFF_FFFF < 0xFF_FFFF
  {
    var a, b := v / 0x1_0000, v % 0x1_0000;
    assert v == 0x1_0000 * a + b;
    assert v * WORD - (0x100 * v + a) * 0xFF_FFFF == 256 * b + a;
  }

  /** Byte `k` of a value of the given width, the most significant first. */
  function ByteAt(x: nat, width: nat, k: nat): nat
    requires k < width <= 4
  {
    ShiftRight(x, width - 1 - k) % 256
  }

  /** Mirroring repeats the bytes of the value for ever and keeps the first `target` of them. */
  lemma MirrorRepeatsBytes(p: Parsed, target: nat, k: nat)
    requires WellFormed(p) && p.conversion == Mirror && p.bytes < target <= 4 && k < target
    ensures ByteAt(Converted(p, target), target, k) == ByteAt(p.value, p.bytes, k % p.bytes)
  {
    if p.bytes == 1 {
      MirrorOneByte(p.value, target, k);
    } else if p.bytes == 2 {
      MirrorTwoBytes(p.value, target, k);
    } else {
      MirrorThreeBytes(p.value, k);
    }
  }

  /** Four bytes in place, the most significant first. */
  lemma BytesOf(x: nat, a: nat, b: nat, c: nat, d: nat)
    requires a < 256 && b < 256 && c < 256 && d < 256
    requires x == 0x100_0000 * a + 0x1_0000 * b + 0x100 * c + d
    ensures x % 256 == d && x / 0x100 % 256 == c && x / 0x1_0000 % 256 == b && x / 0x100_0000 == a
  {
    Quotient(x, 0x100, 0x1_0000 * a + 0x100 * b + c, d);
    Quotient(0x1_0000 * a + 0x100 * b + c, 0x100, 0x100 * a + b, c);
    Quotient(x, 0x1_0000, 0x100 * a + b, 0x100 * c + d);
    Quotient(0x100 * a + b, 0x100, a, b);
    Quotient(x, 0x100_0000, a, 0x1_0000 * b + 0x100 * c + d);
  }

  lemma MirrorOneByte(v: nat, target: nat, k: nat)
    requires v <= 0xFF && 1 < target <= 4 && k < target
    ensures ByteAt(Tiled(v, 1, target), target, k) == ByteAt(v, 1, 0)
  {
    BytesOf(Tiled(v, 1, target), if target > 3 then v else 0, if target > 2 then v else 0, v, v);
  }

  lemma MirrorTwoBytes(v: nat, target: nat, k: nat)
    requires v <= 0xFFFF && 2 < target <= 4 && k < target
    ensures ByteAt(Tiled(v, 2, target), target, k) == ByteAt(v, 2, k % 2)
  {
    var a, b := v / 256, v % 256;
    assert v == 256 * a + b;
    BytesOf(v, 0, 0, a, b);
    if target == 3 {
      BytesOf(Tiled(v, 2, 3), 0, a, b, a);
    } else {
      BytesOf(Tiled(v, 2, 4), a, b, a, b);
    }
  }

  lemma MirrorThreeBytes(v: nat, k: nat)
    requires v <= 0xFF_FFFF && k < 4
    ensures ByteAt(Tiled(v, 3, 4), 4, k) == ByteAt(v, 3, k % 3)
  {
    var a, b, c := v / 0x1_0000, v % 0x1_0000 / 0x100, v % 0x1_0000 % 0x100;
    assert v == 0x1_0000 * a + 0x100 * b + c;
    BytesOf(v, 0, a, b, c);
    BytesOf(Tiled(v, 3, 4), a, b, c, a);
  }

  /** Widening is strictly monotone and stays within the wider range. */
  lemma WideningIsStrictlyMonotone(p: Parsed, q: Parsed, target: nat)
    requires WellFormed(p) && WellFormed(q) && p.bytes == q.bytes <= target <= 4 && p.conversion == q.conversion
    requires p.value < q.value
    ensures Converted(p, target) < Converted(q, target) <= Maximum(target)
  {
    WideningFits(q, target);
    if p.conversion == Shift {
      ShiftGrows(p.value, q.value, p.bytes, target);
    } else {
      TiledGrows(p.value, q.value, p.bytes, target);
    }
  }

  lemma ShiftGrows(v: nat, w: nat, bytes: nat, target: nat)
    requires 1 <= bytes <= target <= 4 && v < w <= Maximum(bytes)
    ensures ShiftLeft(v, target - bytes) < ShiftLeft(w, target - bytes)
  {
    if target - bytes == 1 {
    } else if target - bytes == 2 {
    } else if target - bytes == 3 {
    }
  }

  lemma TiledGrows(v: nat, w: nat, bytes: nat, target: nat)
    requires 1 <= bytes <= target <= 4 && v < w <= Maximum(bytes)
    ensures Tiled(v, bytes, target) < Tiled(w, bytes, target)
  {
    if bytes == 1 {
    } else if bytes == 2 {
    } else {
    }
  }

  lemma WideningFits(p: Parsed, target: nat)
    requires WellFormed(p) && p.bytes <= target <= 4
    ensures Converted(p, target) <= Maximum(target)
  {
  }

  /** Shift widening appends zero bytes, narrowing drops the last bytes. */
  lemma ShiftAppendsZeros(p: Parsed, target: nat)
    requires WellFormed(p) && 1 <= target <= 4
    ensures p.conversion == Shift && p.bytes <= target ==> Converted(p, target) == p.value * Power256(target - p.bytes)
    ensures target <= p.bytes ==> Converted(p, target) == p.value / Power256(p.bytes - target)
  {
    if target - p.bytes == 1 {
    } else if target - p.bytes == 2 {
    } else if target - p.bytes == 3 {
    }
  }

  /** A value that is not zero in its last byte tells the two widenings apart, zero never does. */
  lemma MirrorIsNotShift(p: Parsed, target: nat)
    requires WellFormed(p) && p.bytes < target <= 4
    ensures Converted(p.(conversion := Mirror), target) - Converted(p.(conversion := Shift), target) ==
              if target <= 2 * p.bytes then p.value / Power256(2 * p.bytes - target)
              else if target == 3 then 0x101 * p.value else 0x1_0101 * p.value
  {
    ShiftAppendsZeros(p.(conversion := Shift), target);
    if p.bytes == 1 {
    } else if p.bytes == 2 {
    } else {
    }
  }

  /** Narrowing a widened value back returns it. */
  lemma NarrowingUndoesWidening(p: Parsed, target: nat, back: Conversion)
    requires WellFormed(p) && p.bytes < target <= 4
    ensures Converted(Parsed(Converted(p, target), target, back), p.bytes) == p.value
  {
    var v := p.value;
    if p.conversion == Shift {
      assert ShiftRight(ShiftLeft(v, target - p.bytes), target - p.bytes) == v;
    } else {
      TiledNarrows(v, p.bytes, p.bytes, target);
    }
  }

  lemma TiledNarrows(v: nat, bytes: nat, middle: nat, target: nat)
    requires 1 <= bytes <= middle < target <= 4 && v <= Maximum(bytes)
    ensures ShiftRight(Tiled(v, bytes, target), target - middle) == Tiled(v, bytes, middle)
  {
    if bytes == 1 {
    } else if bytes == 2 {
      var a, b := v / 256, v % 256;
      assert v == 256 * a + b;
      if target == 4 {
        assert Tiled(v, 2, 4) == 0x1_0000 * v + v;
      }
    } else {
      assert v / 0x1_0000 < 256;
    }
  }

  /** Narrowing a mirrored value to any width in between is the same as mirroring to that width directly. */
  lemma NarrowingAMirrorIsMirroring(p: Parsed, middle: nat, target: nat, back: Conversion)
    requires WellFormed(p) && p.conversion == Mirror && p.bytes <= middle < target <= 4
    ensures Converted(Parsed(Converted(p, target), target, back), middle) == Converted(p, middle)
  {
    TiledNarrows(p.value, p.bytes, middle, target);
  }
}

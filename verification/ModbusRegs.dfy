/** The register codec: how integers and single-precision patterns are laid out
    in one or two 16-bit registers under the four byte orders. */
module ModbusRegs {
  import opened Bytes
  import opened Messages

  datatype DataType = Int16 | UInt16 | Int32 | UInt32 | Float32

  datatype ByteOrder = ABCD | DCBA | BADC | CDAB

  /** A float64. Finite values are reals; the result of widening a float32
      register pair is kept as the 32-bit pattern that narrowing it gives. */
  datatype Float = Finite(r: real) | NaN | PosInf | NegInf | Single(bits: uint32)

  function Words(t: DataType): (n: nat)
    ensures n == 1 || n == 2
  {
    match t
    case Int32 => 2
    case UInt32 => 2
    case Float32 => 2
    case _ => 1
  }

  function High(r: uint16): byte { r / 256 }

  function Low(r: uint16): byte { r % 256 }

  function Pair(hi: byte, lo: byte): uint16 { 256 * hi + lo }

  predicate Swapped(o: ByteOrder) {
    o == DCBA || o == BADC
  }

  /** canonical: the value's bytes, most significant first. */
  function Canonical(o: ByteOrder, regs: seq<uint16>): (bs: bytes)
    requires |regs| == 1 || |regs| == 2
    ensures |bs| == 2 * |regs|
  {
    if |regs| == 1 then
      if Swapped(o) then [Low(regs[0]), High(regs[0])] else [High(regs[0]), Low(regs[0])]
    else
      var a, b, c, d := High(regs[0]), Low(regs[0]), High(regs[1]), Low(regs[1]);
      match o
      case DCBA => [d, c, b, a]
      case BADC => [b, a, d, c]
      case CDAB => [c, d, a, b]
      case ABCD => [a, b, c, d]
  }

  function FromCanonical(o: ByteOrder, bs: bytes): (regs: seq<uint16>)
    requires |bs| == 2 || |bs| == 4
    ensures |regs| == |bs| / 2
  {
    if |bs| == 2 then
      if Swapped(o) then [Pair(bs[1], bs[0])] else [Pair(bs[0], bs[1])]
    else
      var a, b, c, d := bs[0], bs[1], bs[2], bs[3];
      var w := match o
        case DCBA => [d, c, b, a]
        case BADC => [b, a, d, c]
        case CDAB => [c, d, a, b]
        case ABCD => [a, b, c, d];
      [Pair(w[0], w[1]), Pair(w[2], w[3])]
  }

  /** The two are inverse to each other for every byte order and width. */
  lemma CanonicalInverse(o: ByteOrder, regs: seq<uint16>, bs: bytes)
    ensures |regs| == 1 || |regs| == 2 ==> FromCanonical(o, Canonical(o, regs)) == regs
    ensures |bs| == 2 || |bs| == 4 ==> Canonical(o, FromCanonical(o, bs)) == bs
  {
    forall r: uint16 ensures Pair(High(r), Low(r)) == r {
    }
    forall x: byte, y: byte ensures High(Pair(x, y)) == x && Low(Pair(x, y)) == y {
    }
  }

  // ----- Integers ----------------------------------------------------------------

  function Lo(t: DataType): int
    requires t != Float32
  {
    match t
    case Int16 => -0x8000
    case Int32 => -0x8000_0000
    case _ => 0
  }

  function Hi(t: DataType): int
    requires t != Float32
  {
    match t
    case Int16 => 0x7FFF
    case UInt16 => 0xFFFF
    case Int32 => 0x7FFF_FFFF
    case UInt32 => 0xFFFF_FFFF
  }

  /** Two's complement in the type's width. */
  function Pattern(t: DataType, n: int): (p: nat)
    requires t != Float32 && Lo(t) <= n <= Hi(t)
    ensures p < Pow256(2 * Words(t))
  {
    PowersOf256();
    if n >= 0 then n else n + Pow256(2 * Words(t))
  }

  function FromPattern(t: DataType, p: nat): (n: int)
    requires t != Float32 && p < Pow256(2 * Words(t))
    ensures Lo(t) <= n <= Hi(t)
  {
    PowersOf256();
    if p <= Hi(t) then p else p - Pow256(2 * Words(t))
  }

  /** math.Trunc */
  function Trunc(r: real): int {
    if r >= 0.0 then r.Floor else -((-r).Floor)
  }

  function Clamp(v: Float, lo: int, hi: int): int
    requires !v.Single?
  {
    match v
    case NaN => 0
    case NegInf => lo
    case PosInf => hi
    case Finite(r) => if r < lo as real then lo else if r > hi as real then hi else Trunc(r)
  }

  /** Clamping before truncating is the same as truncating and then forcing the
      integer into the range. */
  lemma ClampMeaning(r: real, lo: int, hi: int)
    requires lo <= 0 <= hi
    ensures var n := Trunc(r);
      Clamp(Finite(r), lo, hi) == if n < lo then lo else if n > hi then hi else n
    ensures lo <= Clamp(Finite(r), lo, hi) <= hi
  {
  }

  /** A NaN whose quiet bit is clear: exponent all ones, mantissa below 2^22 and
      not zero. */
  predicate Signalling(bits: uint32) {
    bits / 0x80_0000 % 0x100 == 0xFF && 0 < bits % 0x80_0000 < 0x40_0000
  }

  /** Widening to float64 and narrowing back: exact, except that a signalling NaN
      becomes quiet. */
  function Widened(bits: uint32): (r: uint32)
    ensures r == bits <==> !Signalling(bits)
    ensures !Signalling(r)
  {
    if Signalling(bits) then bits + 0x40_0000 else bits
  }

  function Decode(t: DataType, o: ByteOrder, regs: seq<uint16>): Result<Float, ()> {
    if |regs| != Words(t) then Err(()) else
    var p := Value(Canonical(o, regs));
    if t == Float32 then
      PowersOf256();
      Ok(Single(Widened(p)))
    else Ok(Finite(FromPattern(t, p) as real))
  }

  /** Encode for the integer types. */
  function EncodeInteger(t: DataType, o: ByteOrder, v: Float): (regs: seq<uint16>)
    requires t != Float32 && !v.Single?
    ensures |regs| == Words(t)
  {
    var n := Clamp(v, Lo(t), Hi(t));
    assert Lo(t) <= n <= Hi(t) by {
      if v.Finite? {
        ClampMeaning(v.r, Lo(t), Hi(t));
      }
    }
    FromCanonical(o, BigEndian(Pattern(t, n), 2 * Words(t)))
  }

  /** Encode for float32, from the bit pattern of the rounded value. */
  function EncodeSingle(o: ByteOrder, bits: uint32): (regs: seq<uint16>)
    ensures |regs| == 2
  {
    FromCanonical(o, BigEndian(bits, 4))
  }

  /** The bytes of a register exchanged. */
  function Flipped(r: uint16): uint16 {
    256 * (r % 256) + r / 256
  }

  /** The number the registers hold, by arithmetic on them: the first register is
      the high one except in CDAB and DCBA, and each has its bytes exchanged in
      BADC and DCBA. */
  function Held(o: ByteOrder, regs: seq<uint16>): nat
    requires |regs| == 1 || |regs| == 2
  {
    if |regs| == 1 then
      match o
      case ABCD => regs[0]
      case CDAB => regs[0]
      case BADC => Flipped(regs[0])
      case DCBA => Flipped(regs[0])
    else
      match o
      case ABCD => 65536 * regs[0] + regs[1]
      case CDAB => 65536 * regs[1] + regs[0]
      case BADC => 65536 * Flipped(regs[0]) + Flipped(regs[1])
      case DCBA => 65536 * Flipped(regs[1]) + Flipped(regs[0])
  }

  lemma CanonicalHolds(o: ByteOrder, regs: seq<uint16>)
    requires |regs| == 1 || |regs| == 2
    ensures Value(Canonical(o, regs)) == Held(o, regs)
  {
    if |regs| == 1 {
      var a, b := High(regs[0]), Low(regs[0]);
      ValueOfTwo(a, b);
      ValueOfTwo(b, a);
    } else {
      var a, b, c, d := High(regs[0]), Low(regs[0]), High(regs[1]), Low(regs[1]);
      ValueOfFour(a, b, c, d);
      ValueOfFour(d, c, b, a);
      ValueOfFour(b, a, d, c);
      ValueOfFour(c, d, a, b);
    }
  }

  /** The value of Decode for every type and byte order: unsigned as held, signed
      in two's complement, float32 by its bit pattern with a signalling NaN made
      quiet, and an error for any other number of registers. */
  lemma DecodeMeaning(t: DataType, o: ByteOrder, regs: seq<uint16>)
    ensures
      match t
      case UInt16 => |regs| == 1 ==> Decode(t, o, regs) == Ok(Finite(Held(o, regs) as real))
      case Int16 =>
        |regs| == 1 ==>
          var n := Held(o, regs);
          Decode(t, o, regs) == Ok(Finite((if n < 32768 then n else n - 65536) as real))
      case UInt32 => |regs| == 2 ==> Decode(t, o, regs) == Ok(Finite(Held(o, regs) as real))
      case Int32 =>
        |regs| == 2 ==>
          var n := Held(o, regs);
          Decode(t, o, regs) == Ok(Finite((if n < 2147483648 then n else n - 4294967296) as real))
      case Float32 =>
        |regs| == 2 ==>
          var n := Held(o, regs);
          var signalling := n / 8388608 % 256 == 255 && 0 < n % 8388608 < 4194304;
          n < 4294967296 && Decode(t, o, regs) == Ok(Single(if signalling then n + 4194304 else n))
    ensures Decode(t, o, regs).Err? <==> |regs| != if t == Int16 || t == UInt16 then 1 else 2
  {
    PowersOf256();
    if |regs| == 1 || |regs| == 2 {
      CanonicalHolds(o, regs);
    }
    hide Canonical, Value, Held;
  }

  lemma PatternInverse(t: DataType, n: int, p: nat)
    requires t != Float32
    ensures Lo(t) <= n <= Hi(t) ==> FromPattern(t, Pattern(t, n)) == n
    ensures p < Pow256(2 * Words(t)) ==> Pattern(t, FromPattern(t, p)) == p
  {
    PowersOf256();
  }

  /** Decoding what was encoded gives the value truncated toward zero and clamped
      to the type's range, whatever the byte order. */
  lemma DecodeEncoded(t: DataType, o: ByteOrder, v: Float)
    requires t != Float32 && !v.Single?
    ensures Decode(t, o, EncodeInteger(t, o, v)) == Ok(Finite(Clamp(v, Lo(t), Hi(t)) as real))
  {
    var n := Clamp(v, Lo(t), Hi(t));
    if v.Finite? {
      ClampMeaning(v.r, Lo(t), Hi(t));
    }
    var p := Pattern(t, n);
    PatternInverse(t, n, p);
    CanonicalInverse(o, [], BigEndian(p, 2 * Words(t)));
    ValueOfBigEndian(p, 2 * Words(t));
    SmallMod(p, Pow256(2 * Words(t)));
  }

  /** n is v cut off toward zero, forced into the range, and zero for a NaN. */
  predicate Cut(v: Float, lo: int, hi: int, n: int) {
    match v
    case NaN => n == 0
    case PosInf => n == hi
    case NegInf => n == lo
    case Finite(r) =>
      if r < lo as real then n == lo
      else if r > hi as real then n == hi
      else if r >= 0.0 then n as real <= r < n as real + 1.0
      else n as real - 1.0 < r <= n as real
    case Single(_) => false
  }

  /** The registers Encode gives an integer type hold such an n, modulo 2 to the
      number of bits. */
  lemma EncodeMeaning(t: DataType, o: ByteOrder, v: Float)
    requires t != Float32 && !v.Single?
    ensures var held := Held(o, EncodeInteger(t, o, v));
      match t
      case UInt16 => Cut(v, 0, 65535, held)
      case Int16 => held < 65536 && Cut(v, -32768, 32767, if held < 32768 then held else held - 65536)
      case UInt32 => Cut(v, 0, 4294967295, held)
      case Int32 =>
        held < 4294967296 && Cut(v, -2147483648, 2147483647, if held < 2147483648 then held else held - 4294967296)
  {
    var n := Clamp(v, Lo(t), Hi(t));
    ClampCuts(v, Lo(t), Hi(t));
    EncodeHolds(t, o, v, n);
    PowersOf256();
    hide Held, Cut, Clamp, EncodeInteger;
  }

  lemma ClampCuts(v: Float, lo: int, hi: int)
    requires lo <= 0 <= hi && !v.Single?
    ensures Cut(v, lo, hi, Clamp(v, lo, hi)) && lo <= Clamp(v, lo, hi) <= hi
  {
    if v.Finite? {
      ClampMeaning(v.r, lo, hi);
    }
  }

  lemma EncodeHolds(t: DataType, o: ByteOrder, v: Float, n: int)
    requires t != Float32 && !v.Single? && n == Clamp(v, Lo(t), Hi(t)) && Lo(t) <= n <= Hi(t)
    ensures Held(o, EncodeInteger(t, o, v)) == Pattern(t, n)
  {
    var p, k := Pattern(t, n), 2 * Words(t);
    CanonicalHolds(o, EncodeInteger(t, o, v));
    CanonicalInverse(o, [], BigEndian(p, k));
    ValueOfBigEndian(p, k);
    SmallMod(p, Pow256(k));
    hide Canonical, FromCanonical, Value, Held, BigEndian, Clamp, Pattern;
  }

  /** The two registers Encode gives a float32 pattern hold it. */
  lemma EncodeSingleMeaning(o: ByteOrder, bits: uint32)
    ensures Held(o, EncodeSingle(o, bits)) == bits
  {
    CanonicalHolds(o, EncodeSingle(o, bits));
    CanonicalInverse(o, [], BigEndian(bits, 4));
    ValueOf32(bits);
  }

  lemma SmallMod(p: nat, m: nat)
    requires p < m
    ensures p % m == p
  {
  }

  /** Encoding what was decoded gives the registers back: always for the integer
      types, and for float32 exactly when the registers do not hold a signalling
      NaN. */
  lemma EncodeDecoded(t: DataType, o: ByteOrder, regs: seq<uint16>)
    requires |regs| == Words(t)
    ensures Decode(t, o, regs).Ok?
    ensures var v := Decode(t, o, regs).value;
      if t == Float32 then
        v.Single? && Value(Canonical(o, regs)) < 0x1_0000_0000 &&
        (EncodeSingle(o, v.bits) == regs <==> !Signalling(Value(Canonical(o, regs))))
      else v.Finite? && EncodeInteger(t, o, v) == regs
  {
    var bs := Canonical(o, regs);
    var p := Value(bs);
    PowersOf256();
    if t != Float32 {
      CanonicalInverse(o, regs, []);
      BigEndianOfValue(bs);
      var n := FromPattern(t, p);
      PatternInverse(t, n, p);
      ClampMeaning(n as real, Lo(t), Hi(t));
      assert Trunc(n as real) == n;
    } else {
      // Only a pattern's own registers encode it.
      var bits := Widened(p);
      CanonicalInverse(o, regs, BigEndian(bits, 4));
      BigEndianOfValue(bs);
      ValueOf32(bits);
      hide Canonical, FromCanonical, BigEndian, Value;
    }
  }
}

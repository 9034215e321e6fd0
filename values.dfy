/**
 * Captured column values, the unsigned-aware cast `castUnsigned` and the canonical text
 * `columnValue` that identity keys are built from.
 */
module Values {
  import opened Wrappers
  import opened Strings

  /** A captured value: the closed set of dynamic types the binlog decoder produces.
      Integers keep their Go width as the constructor; floating-point values and values of
      any other kind are opaque and carry the text Go's formatter gives them. */
  datatype Value =
    | Null
    | Bool(b: bool)
    | Int(v: int) | Int8(v: int) | Int16(v: int) | Int32(v: int) | Int64(v: int)
    | Uint(v: int) | Uint8(v: int) | Uint16(v: int) | Uint32(v: int) | Uint64(v: int)
    | Float32(text: string) | Float64(text: string)
    | Str(s: string)
    | Bytes(bytes: seq<bv8>)
    | Other(text: string)

  const U8: int := 0x100
  const U16: int := 0x1_0000
  const U24: int := 0x100_0000
  const U32: int := 0x1_0000_0000
  const U64: int := 0x1_0000_0000_0000_0000

  predicate IsSignedInt(v: Value)
  {
    v.Int? || v.Int8? || v.Int16? || v.Int32? || v.Int64?
  }

  predicate IsIntegral(v: Value)
  {
    IsSignedInt(v) || v.Uint? || v.Uint8? || v.Uint16? || v.Uint32? || v.Uint64?
  }

  /** `r` is the unsigned representative of `x` modulo `m`: in range and congruent. */
  predicate Represents(r: int, x: int, m: int)
  {
    0 <= r < m && (r - x) % m == 0
  }

  /** Euclidean remainder picks the representative, one lemma per width the cast uses. */
  lemma Mod8Represents(x: int) ensures Represents(x % U8, x, U8) {}
  lemma Mod16Represents(x: int) ensures Represents(x % U16, x, U16) {}
  lemma Mod24Represents(x: int) ensures Represents(x % U24, x, U24) {}
  lemma Mod32Represents(x: int) ensures Represents(x % U32, x, U32) {}
  lemma Mod64Represents(x: int) ensures Represents(x % U64, x, U64) {}

  /** The declared type is a 3-byte MEDIUMINT: `strings.Contains(strings.ToLower(tp), "mediumint")`. */
  predicate IsMediumint(tp: string)
  {
    Contains(ToLowerAscii(tp), "mediumint")
  }

  /** `binary.LittleEndian.PutUint32`: the four bytes of `u`, least significant first. */
  function LittleEndian32(u: nat): (b: seq<nat>)
    requires u < U32
    ensures |b| == 4 && forall i :: 0 <= i < 4 ==> b[i] < U8
  {
    [u % 256, (u / 0x100) % 256, (u / 0x1_0000) % 256, (u / 0x100_0000) % 256]
  }

  /** `uint32(b[0]) | uint32(b[1])<<8 | uint32(b[2])<<16`: each byte is below 256, so the
      shifted bytes occupy disjoint bits and the bitwise or is their sum. */
  function LowThreeBytes(b: seq<nat>): nat
    requires |b| == 4
  {
    b[0] + b[1] * 0x100 + b[2] * 0x1_0000
  }

  /** Reassembling the low three little-endian bytes of a 32-bit word keeps it modulo 2^24. */
  lemma LowThreeBytesMod(u: nat)
    requires u < U32
    ensures LowThreeBytes(LittleEndian32(u)) == u % U24
  {
    var q1 := u / 0x100;
    var q2 := u / 0x1_0000;
    assert q2 == q1 / 0x100;
    assert u % 0x1_0000 == u % 0x100 + 0x100 * (q1 % 0x100);
    assert u % U24 == u % 0x1_0000 + 0x1_0000 * (q2 % 0x100);
  }

  /** Reducing modulo 2^32 first does not change the residue modulo 2^24. */
  lemma ModNarrow(x: int)
    ensures (x % U32) % U24 == x % U24
  {
    var q := x / U32;
    assert x == q * U32 + x % U32;
    assert q * U32 == (q * 0x100) * U24;
  }

  /** `castUnsigned(data, unsigned, tp)`: reinterprets a signed captured integer in the unsigned
      domain of its column's width; every other value, and every value of a signed column,
      passes through unchanged. */
  function CastUnsigned(data: Value, unsigned: bool, tp: string): (r: Value)
    ensures !unsigned || !IsSignedInt(data) ==> r == data
    ensures unsigned && data.Int? ==> r.Uint? && Represents(r.v, data.v, U64)
    ensures unsigned && data.Int8? ==> r.Uint8? && Represents(r.v, data.v, U8)
    ensures unsigned && data.Int16? ==> r.Uint16? && Represents(r.v, data.v, U16)
    ensures unsigned && data.Int32? && IsMediumint(tp) ==> r.Uint32? && Represents(r.v, data.v, U24)
    ensures unsigned && data.Int32? && !IsMediumint(tp) ==> r.Uint32? && Represents(r.v, data.v, U32)
    ensures unsigned && data.Int64? ==>
              r.Str? && ParseNat(r.s).Some? && Represents(ParseNat(r.s).value, data.v, U64)
  {
    if unsigned && IsSignedInt(data) then CastSigned(data, tp) else data
  }

  /** The switch of `castUnsigned` over the signed integer kinds. Go's `int` is taken to be
      64 bits wide, so `uint(v)` keeps `v` modulo 2^64. */
  function CastSigned(data: Value, tp: string): (r: Value)
    requires IsSignedInt(data)
    ensures data.Int? ==> r.Uint? && Represents(r.v, data.v, U64)
    ensures data.Int8? ==> r.Uint8? && Represents(r.v, data.v, U8)
    ensures data.Int16? ==> r.Uint16? && Represents(r.v, data.v, U16)
    ensures data.Int32? && IsMediumint(tp) ==> r.Uint32? && Represents(r.v, data.v, U24)
    ensures data.Int32? && !IsMediumint(tp) ==> r.Uint32? && Represents(r.v, data.v, U32)
    ensures data.Int64? ==> r.Str? && ParseNat(r.s).Some? && Represents(ParseNat(r.s).value, data.v, U64)
  {
    match data
    case Int(v) => Mod64Represents(v); Uint(v % U64)
    case Int8(v) => Mod8Represents(v); Uint8(v % U8)
    case Int16(v) => Mod16Represents(v); Uint16(v % U16)
    case Int32(v) =>
      if IsMediumint(tp) then
        LowThreeBytesMod(v % U32);
        ModNarrow(v);
        Mod24Represents(v);
        Uint32(LowThreeBytes(LittleEndian32(v % U32)))
      else Mod32Represents(v); Uint32(v % U32)
    case Int64(v) =>
      ParseFormatNat(v % U64);
      Mod64Represents(v);
      Str(FormatNat(v % U64))
  }

  /** The number an integer column holds once its unsigned flag and width are taken into
      account, defined by modular arithmetic alone: the reference for `CastUnsigned`. */
  function UnsignedView(v: Value, unsigned: bool, tp: string): int
    requires IsIntegral(v)
  {
    if !unsigned then v.v
    else match v
      case Int(x) => x % U64
      case Int8(x) => x % U8
      case Int16(x) => x % U16
      case Int32(x) => if IsMediumint(tp) then x % U24 else x % U32
      case Int64(x) => x % U64
      case _ => v.v
  }

  /** The text of an already cast value: the type switch of `columnValue`. An unsigned Go
      `uint` falls to the `%v` fallback, which prints it in base 10 as well. */
  function Render(v: Value): string
  {
    match v
    case Null => "null"
    case Bool(b) => if b then "1" else "0"
    case Float32(text) => text
    case Float64(text) => text
    case Str(s) => s
    case Bytes(bytes) => seq(|bytes|, i requires 0 <= i < |bytes| => (bytes[i] as int) as char)
    case Other(text) => text
    case _ => FormatInt(v.v)
  }

  /** For an integer, the rendered cast is the base-10 text of the unsigned-aware number. */
  lemma RenderCastIntegral(value: Value, unsigned: bool, tp: string)
    requires IsIntegral(value)
    ensures Render(CastUnsigned(value, unsigned, tp)) == FormatInt(UnsignedView(value, unsigned, tp))
  {
    if unsigned && value.Int32? && IsMediumint(tp) {
      LowThreeBytesMod(value.v % U32);
      ModNarrow(value.v);
    }
  }

  /** `columnValue(value, unsigned, tp)`: the canonical text of one column value in an identity
      key. For integers it is the base-10 text of the unsigned-aware number. */
  function ColumnValue(value: Value, unsigned: bool, tp: string): (s: string)
    ensures IsIntegral(value) ==> ParseInt(s) == Some(UnsignedView(value, unsigned, tp))
    ensures IsIntegral(value) ==> ',' !in s
    ensures value.Null? ==> s == "null"
  {
    if IsIntegral(value) then
      var n := UnsignedView(value, unsigned, tp);
      RenderCastIntegral(value, unsigned, tp);
      ParseFormatInt(n);
      FormatIntNoComma(n);
      Render(CastUnsigned(value, unsigned, tp))
    else
      Render(CastUnsigned(value, unsigned, tp))
  }

  /** Casting is idempotent, so rendering the already cast row (as the key builder does)
      gives the same text as rendering the captured row. */
  lemma ColumnValueOfCast(value: Value, unsigned: bool, tp: string)
    ensures CastUnsigned(CastUnsigned(value, unsigned, tp), unsigned, tp) == CastUnsigned(value, unsigned, tp)
    ensures ColumnValue(CastUnsigned(value, unsigned, tp), unsigned, tp) == ColumnValue(value, unsigned, tp)
  {
  }

  /** The 3-byte rule: -4692783 in an unsigned MEDIUMINT column is 2^24 - 4692783, where a
      plain unsigned 32-bit column would give 2^32 - 4692783. */
  lemma MediumintExample()
    ensures CastUnsigned(Int32(-4692783), true, "MEDIUMINT(8) UNSIGNED") == Uint32(12084433)
    ensures CastUnsigned(Int32(-4692783), true, "int") == Uint32(4290274513)
  {
    var tp := "MEDIUMINT(8) UNSIGNED";
    assert ToLowerAscii(tp)[..9] == "mediumint";
    assert IsMediumint(tp);
    assert !IsMediumint("int");
  }
}

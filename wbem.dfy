/**
 * The COM/WMI values the program reads: a VARIANT (a type tag over a value
 * union), the fixed-width integer types its fields and C++ casts use, a
 * result object (IWbemClassObject) and one step of a result enumerator.
 */
module Wbem {

  /** VARTYPE codes, as numbered by the Windows headers. */
  type VarType = nat

  const VtEmpty: VarType := 0
  const VtNull: VarType := 1
  const VtI2: VarType := 2
  const VtI4: VarType := 3
  const VtR4: VarType := 4
  const VtR8: VarType := 5
  const VtDate: VarType := 7
  const VtBstr: VarType := 8
  const VtBool: VarType := 11
  const VtUI1: VarType := 17
  const VtUI2: VarType := 18
  const VtUI4: VarType := 19
  const VtInt: VarType := 22
  const VtUInt: VarType := 23

  /** The fixed-width integer types of the VARIANT fields and of the targets of C++ casts. */
  datatype IntType = UInt8 | Int16 | UInt16 | Int32 | UInt32 | Int64 | UInt64 {
    function Modulus(): (m: nat)
      ensures m >= 256
    {
      match this
      case UInt8 => 0x100
      case Int16 | UInt16 => 0x1_0000
      case Int32 | UInt32 => 0x1_0000_0000
      case Int64 | UInt64 => 0x1_0000_0000_0000_0000
    }

    predicate Signed() { Int16? || Int32? || Int64? }

    predicate Contains(x: int) {
      if Signed() then -(Modulus() / 2) <= x < Modulus() / 2 else 0 <= x < Modulus()
    }
  }

  /**
   * The conversion `(T)x` to a fixed-width integer type: the value in the
   * type's range that is congruent to `x` modulo 2^bits (two's complement
   * wrap-around for the signed types).
   */
  function Cast(t: IntType, x: int): (r: int)
    ensures t.Contains(r)
    ensures (x - r) % t.Modulus() == 0
  {
    var m := t.Modulus();
    WrapCongruent(x, m, t.Signed());
    var u := x % m;
    if t.Signed() && u >= m / 2 then u - m else u
  }

  /** Both readings of the residue of `x` modulo one of the four moduli are congruent to `x`. */
  lemma WrapCongruent(x: int, m: nat, signed: bool)
    requires m == 0x100 || m == 0x1_0000 || m == 0x1_0000_0000 || m == 0x1_0000_0000_0000_0000
    ensures var u := x % m; (x - u) % m == 0 && (x - (u - m)) % m == 0
  {
    if m == 0x100 {
      Residue8(x);
    } else if m == 0x1_0000 {
      Residue16(x);
    } else if m == 0x1_0000_0000 {
      Residue32(x);
    } else {
      Residue64(x);
    }
  }

  lemma Residue8(x: int)
    ensures (x - x % 0x100) % 0x100 == 0 && (x - (x % 0x100 - 0x100)) % 0x100 == 0
  {
  }

  lemma Residue16(x: int)
    ensures (x - x % 0x1_0000) % 0x1_0000 == 0 && (x - (x % 0x1_0000 - 0x1_0000)) % 0x1_0000 == 0
  {
  }

  lemma Residue32(x: int)
    ensures (x - x % 0x1_0000_0000) % 0x1_0000_0000 == 0
    ensures (x - (x % 0x1_0000_0000 - 0x1_0000_0000)) % 0x1_0000_0000 == 0
  {
  }

  lemma Residue64(x: int)
    ensures (x - x % 0x1_0000_0000_0000_0000) % 0x1_0000_0000_0000_0000 == 0
    ensures (x - (x % 0x1_0000_0000_0000_0000 - 0x1_0000_0000_0000_0000)) % 0x1_0000_0000_0000_0000 == 0
  {
  }

  /** A value already in range is left unchanged by a cast. */
  lemma CastInRange(t: IntType, x: int)
    requires t.Contains(x)
    ensures Cast(t, x) == x
  {
  }

  /**
   * A VARIANT: its type tag, the raw bits of its value union (every numeric
   * field is a view of its low bits), and the text of the BSTR it points to.
   */
  datatype Variant = Variant(vt: VarType, data: nat, bstr: string) {
    function BVal(): int { Cast(UInt8, data) }     // BYTE bVal
    function UiVal(): int { Cast(UInt16, data) }   // USHORT uiVal
    function IVal(): int { Cast(Int16, data) }     // SHORT iVal
    function BoolVal(): int { Cast(Int16, data) }  // VARIANT_BOOL boolVal
    function LVal(): int { Cast(Int32, data) }     // LONG lVal
    function IntVal(): int { Cast(Int32, data) }   // INT intVal
    function UlVal(): int { Cast(UInt32, data) }   // ULONG ulVal
    function UintVal(): int { Cast(UInt32, data) } // UINT uintVal
  }

  /** A WMI result object: its named properties; a name it lacks makes Get fail. */
  type WbemObject = map<string, Variant>

  /** The outcome of one IEnumWbemClassObject::Next call for a single object. */
  datatype FetchOutcome =
    | Fetched(obj: WbemObject)   // succeeded and returned one object
    | NoMoreRows                 // succeeded and returned zero objects
    | FetchFailed                // FAILED(hr)
}

// The type vocabulary of the Go cursor: type codes as integers whose ranges classify
// them (the negative values are the SLEB128 readings of the one-byte type constructors
// of the WebAssembly binary format, positive values are concrete type indices), and the
// records the type-grammar readers produce.

module IsolateTypes {
  import opened Base

  // numtype
  const NT_I32: int := -1   // 0x7F
  const NT_I64: int := -2   // 0x7E
  const NT_F32: int := -3   // 0x7D
  const NT_F64: int := -4   // 0x7C
  const NT_FIRST: int := NT_F64
  const NT_LAST: int := NT_I32

  // vectype
  const VT_V128: int := -5  // 0x7B
  const VT_FIRST: int := VT_V128
  const VT_LAST: int := VT_V128

  // abstract heap types
  const HT_NO_EXN: int := -12     // 0x74
  const HT_NO_FUNC: int := -13    // 0x73
  const HT_NO_EXTERN: int := -14  // 0x72
  const HT_NONE: int := -15       // 0x71
  const HT_FUNC: int := -16       // 0x70
  const HT_EXTERN: int := -17     // 0x6F
  const HT_ANY: int := -18        // 0x6E
  const HT_EQ: int := -19         // 0x6D
  const HT_I31: int := -20        // 0x6C
  const HT_STRUCT: int := -21     // 0x6B
  const HT_ARRAY: int := -22      // 0x6A
  const HT_EXN: int := -23        // 0x69
  const HT_FIRST: int := HT_EXN
  const HT_LAST: int := HT_NO_EXN

  /** Marker bytes announcing that a reference type's heap type follows. */
  const RT_NON_NULL: int := -28   // 0x64
  const RT_NULL: int := -29       // 0x63

  predicate IsNumType(tc: int) {
    NT_FIRST <= tc <= NT_LAST
  }

  predicate IsVecType(tc: int) {
    VT_FIRST <= tc <= VT_LAST
  }

  predicate IsAbstractHeapType(tc: int) {
    HT_FIRST <= tc <= HT_LAST
  }

  /** Positive codes are indices into the type section; 0 is not one of them. */
  predicate IsConcreteHeapType(tc: int) {
    tc > 0
  }

  predicate IsHeapType(tc: int) {
    IsAbstractHeapType(tc) || IsConcreteHeapType(tc)
  }

  datatype AddressType = AtI32 | AtI64

  datatype Limits = Limits(at: AddressType, min: u64, max: u64, hasMax: bool)

  /** A reference type; ht is an abstract heap type when negative, a type index when positive. */
  datatype RefType = RefType(nullable: bool, ht: int)

  /** The Go zero values of the records, as a failed reader returns them. */
  const ZERO_LIMITS: Limits := Limits(AtI32, 0, 0, false)
  const ZERO_REF: RefType := RefType(false, 0)

  /** A value type: a numeric or vector type code, or (isRef) a reference type. */
  datatype ValType = ValType(isRef: bool, numOrVecType: int, refType: RefType)
  {
    /** valType.IsNumType */
    predicate IsNum() {
      !isRef && IsNumType(numOrVecType)
    }

    /** valType.IsVecType */
    predicate IsVec() {
      !isRef && IsVecType(numOrVecType)
    }

    /** valType.IsRefType */
    predicate IsRef() {
      isRef
    }

    /** The numeric type code, or a panic when this is not a numeric type. */
    function NumType(): (r: Option<int>)
      ensures r.Some? <==> !isRef && NT_FIRST <= numOrVecType <= NT_LAST
      ensures r.Some? ==> r.value == numOrVecType
    {
      if !IsNum() then None else Some(numOrVecType)
    }

    /** The vector type code, or a panic when this is not a vector type. */
    function VecType(): (r: Option<int>)
      ensures r.Some? <==> !isRef && numOrVecType == VT_V128
      ensures r.Some? ==> r.value == numOrVecType
    {
      if !IsVec() then None else Some(numOrVecType)
    }

    /** The reference type, or a panic when this is not a reference type. */
    function RefTypeOf(): (r: Option<RefType>)
      ensures r.Some? <==> isRef
      ensures r.Some? ==> r.value == refType
    {
      if !IsRef() then None else Some(refType)
    }
  }

  datatype MemType = MemType(lim: Limits)
  datatype TableType = TableType(et: RefType, lim: Limits)
  datatype GlobalType = GlobalType(mut: bool, t: ValType)

  // ---------------------------------------------------------------------------
  // Properties of the classification
  // ---------------------------------------------------------------------------

  /** The four numeric codes are exactly the numeric class. */
  lemma NumTypeCodes(tc: int)
    ensures IsNumType(tc) <==> tc == NT_I32 || tc == NT_I64 || tc == NT_F32 || tc == NT_F64
  {
  }

  lemma VecTypeCodes(tc: int)
    ensures IsVecType(tc) <==> tc == VT_V128
  {
  }

  /** The twelve abstract heap types are exactly the abstract class; 0 is no heap type. */
  lemma HeapTypeCodes(tc: int)
    ensures IsAbstractHeapType(tc) <==> -23 <= tc <= -12
    ensures IsAbstractHeapType(tc) <==> tc in {HT_NO_EXN, HT_NO_FUNC, HT_NO_EXTERN, HT_NONE, HT_FUNC, HT_EXTERN, HT_ANY, HT_EQ, HT_I31, HT_STRUCT, HT_ARRAY, HT_EXN}
    ensures IsHeapType(tc) <==> (-23 <= tc <= -12 || tc >= 1)
    ensures !IsHeapType(0)
  {
  }

  /** The classes are pairwise disjoint, and the reference markers belong to none. */
  lemma ClassesDisjoint(tc: int)
    ensures !(IsNumType(tc) && IsVecType(tc))
    ensures !(IsNumType(tc) && IsHeapType(tc))
    ensures !(IsVecType(tc) && IsHeapType(tc))
    ensures !(IsAbstractHeapType(tc) && IsConcreteHeapType(tc))
    ensures tc == RT_NON_NULL || tc == RT_NULL ==> !IsNumType(tc) && !IsVecType(tc) && !IsHeapType(tc)
  {
  }

  /** A reference value type is neither numeric nor vector, and only its RefTypeOf succeeds. */
  lemma RefValTypeAccessors(vt: ValType)
    requires vt.isRef
    ensures !vt.IsNum() && !vt.IsVec()
    ensures vt.NumType() == None && vt.VecType() == None && vt.RefTypeOf() == Some(vt.refType)
  {
  }
}

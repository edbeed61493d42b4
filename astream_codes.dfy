/**
 The numbering scheme of the asynchronous stream (src/stream/astream.h):
 the stream type tags, the filter sub-types, and the three packing macros
 that combine a type tag with a per-type index into one integer, so that
 within the command enum, and within the state enum, generic and
 backend-specific constants share one namespace.

 The header only encodes. The decoders here (`>> 16` with `& 0xFFFF` for
 the outer level, `>> 8` with `& 0xFF` for the filter level) are the
 inverses the namespacing relies on, and the lemmas state when encoding
 and decoding undo each other.
 */
module AStreamCodes {
  import opened Bits
  import opened Options

  /** Bit position of the stream type in a command or state code. */
  const TypeShift: nat := 16

  /** Bit position of the filter type inside a filter command's index. */
  const FilterShift: nat := 8

  /** Width of the `type` bit-field of the stream struct. */
  const TypeFieldWidth: nat := 8

  /** The concrete powers of two the header's constants are built from. */
  lemma PowersOfTwo()
    ensures Pow2(FilterShift) == 0x100 && LowMask(FilterShift) == 0xFF
    ensures Pow2(TypeShift) == 0x1_0000 && LowMask(TypeShift) == 0xFFFF
    ensures Pow2(TypeFieldWidth) == 0x100
    ensures Pow2(TypeShift + TypeFieldWidth) == 0x100_0000
  {
    PowAdd(TypeShift, TypeFieldWidth);
  }

  // ---------------------------------------------------------------------
  // Stream types and filter types

  /** The backend behind a stream (tb_astream_type_e). */
  datatype StreamType = TypeNone | TypeFile | TypeSock | TypeHttp | TypeFltr

  /** The integer each stream type tag stands for. */
  function TypeValue(t: StreamType): (v: nat)
    ensures v <= 4
  {
    match t
    case TypeNone => 0
    case TypeFile => 1
    case TypeSock => 2
    case TypeHttp => 3
    case TypeFltr => 4
  }

  /** The stream type an integer tag names, if any. */
  function TypeOf(v: nat): (r: Option<StreamType>)
    ensures r.Some? <==> v <= 4
    ensures r.Some? ==> TypeValue(r.value) == v
  {
    if v == 0 then Some(TypeNone)
    else if v == 1 then Some(TypeFile)
    else if v == 2 then Some(TypeSock)
    else if v == 3 then Some(TypeHttp)
    else if v == 4 then Some(TypeFltr)
    else None
  }

  /** The transform a filter stream applies (tb_astream_filter_type_e). */
  datatype FilterType = FilterNone | FilterCharset | FilterZip | FilterChunked

  /** The integer each filter type stands for. */
  function FilterValue(f: FilterType): (v: nat)
    ensures v <= 3
  {
    match f
    case FilterNone => 0
    case FilterCharset => 1
    case FilterZip => 2
    case FilterChunked => 3
  }

  /** The filter type an integer names, if any. */
  function FilterOf(v: nat): (r: Option<FilterType>)
    ensures r.Some? <==> v <= 3
    ensures r.Some? ==> FilterValue(r.value) == v
  {
    if v == 0 then Some(FilterNone)
    else if v == 1 then Some(FilterCharset)
    else if v == 2 then Some(FilterZip)
    else if v == 3 then Some(FilterChunked)
    else None
  }

  /** Each stream type tag names exactly one stream type. */
  lemma TypeRoundTrip(t: StreamType)
    ensures TypeOf(TypeValue(t)) == Some(t)
  {
  }

  /** Each filter type number names exactly one filter type. */
  lemma FilterRoundTrip(f: FilterType)
    ensures FilterOf(FilterValue(f)) == Some(f)
  {
  }

  /** Storing a value in the 8-bit `type` bit-field keeps only its low 8 bits. */
  function StoreTypeField(v: nat): (r: nat)
    ensures r < Pow2(TypeFieldWidth)
    ensures v < Pow2(TypeFieldWidth) ==> r == v
  {
    v % Pow2(TypeFieldWidth)
  }

  /** Every stream type survives being stored in the 8-bit `type` field and read back. */
  lemma TypeFitsField(t: StreamType)
    ensures StoreTypeField(TypeValue(t)) == TypeValue(t)
    ensures TypeOf(StoreTypeField(TypeValue(t))) == Some(t)
  {
    PowersOfTwo();
  }

  /** Every filter type fits the 8-bit filter slot of a filter command. */
  lemma FilterFitsSlot(f: FilterType)
    ensures FilterValue(f) < Pow2(FilterShift)
  {
    PowersOfTwo();
  }

  // ---------------------------------------------------------------------
  // The packing macros and their decoders

  /** TB_ASTREAM_CTRL(type, ctrl): `(type << 16) | ctrl`. */
  function Ctrl(t: nat, c: nat): (r: nat)
    ensures c <= 0xFFFF ==> r == t * 0x1_0000 + c
  {
    PowersOfTwo();
    PackIsSum(t, c, TypeShift);
    Pack(t, c, TypeShift)
  }

  /** TB_ASTREAM_CTRL_FLTR(type, ctrl): `(filtertype << 8) | ctrl` in the FLTR namespace. */
  function CtrlFltr(ft: nat, c: nat): (r: nat)
    ensures TypeValue(TypeFltr) * 0x1_0000 <= r
    ensures ft <= 0xFF && c <= 0xFF ==> r == TypeValue(TypeFltr) * 0x1_0000 + ft * 0x100 + c
  {
    PowersOfTwo();
    PackIsSum(ft, c, FilterShift);
    FilterIndexFits(ft, c);
    Ctrl(TypeValue(TypeFltr), Pack(ft, c, FilterShift))
  }

  /** TB_ASTREAM_STATE(type, state): `(type << 16) | state`. */
  function State(t: nat, s: nat): (r: nat)
    ensures s <= 0xFFFF ==> r == t * 0x1_0000 + s
  {
    PowersOfTwo();
    PackIsSum(t, s, TypeShift);
    Pack(t, s, TypeShift)
  }

  /** The stream type of a command or state code, `code >> 16`. */
  function CodeType(code: nat): (r: nat)
    ensures r == code / 0x1_0000
  {
    PowersOfTwo();
    ShiftRightIsDiv(code, TypeShift);
    High(code, TypeShift)
  }

  /** The per-type index of a command or state code, `code & 0xFFFF`. */
  function CodeIndex(code: nat): (i: nat)
    ensures i <= 0xFFFF
    ensures i == code % 0x1_0000
  {
    PowersOfTwo();
    LowIsMod(code, TypeShift);
    Low(code, TypeShift)
  }

  /** The filter type of a filter command, `(code & 0xFFFF) >> 8`. */
  function FilterCodeType(code: nat): (r: nat)
    ensures r <= 0xFF
    ensures r == CodeIndex(code) / 0x100
  {
    PowersOfTwo();
    ShiftRightIsDiv(CodeIndex(code), FilterShift);
    High(CodeIndex(code), FilterShift)
  }

  /** The per-filter index of a filter command, `(code & 0xFFFF) & 0xFF`. */
  function FilterCodeIndex(code: nat): (i: nat)
    ensures i <= 0xFF
    ensures i == CodeIndex(code) % 0x100
  {
    PowersOfTwo();
    LowIsMod(CodeIndex(code), FilterShift);
    Low(CodeIndex(code), FilterShift)
  }

  /** Decoding a command gives back the type and the index it was built from. */
  lemma CtrlDecode(t: nat, c: nat)
    requires c <= 0xFFFF
    ensures CodeType(Ctrl(t, c)) == t
    ensures CodeIndex(Ctrl(t, c)) == c
  {
    PowersOfTwo();
    UnpackPack(t, c, TypeShift);
  }

  /** Every code is the command built from its own decoded type and index. */
  lemma CtrlEncodeDecoded(code: nat)
    ensures Ctrl(CodeType(code), CodeIndex(code)) == code
  {
    PackUnpack(code, TypeShift);
  }

  /** Distinct (type, index) pairs with indices below 65536 never give the same command. */
  lemma CtrlInjective(t1: nat, c1: nat, t2: nat, c2: nat)
    requires c1 <= 0xFFFF && c2 <= 0xFFFF
    requires Ctrl(t1, c1) == Ctrl(t2, c2)
    ensures t1 == t2 && c1 == c2
  {
    CtrlDecode(t1, c1);
    CtrlDecode(t2, c2);
  }

  /** Without the index bound the scheme collides: index 65537 of NONE is index 1 of FILE. */
  lemma CtrlCollidesWithoutBound()
    ensures Ctrl(TypeValue(TypeNone), 0x1_0001) == Ctrl(TypeValue(TypeFile), 1)
  {
  }

  /** A command whose type fits the 8-bit `type` field stays below 2^24, well inside a C `int`. */
  lemma CtrlFitsInt(t: nat, c: nat)
    requires t < Pow2(TypeFieldWidth) && c <= 0xFFFF
    ensures Ctrl(t, c) < 0x100_0000
  {
    PowersOfTwo();
    PackBound(t, c, TypeShift, TypeFieldWidth);
  }

  /** The nested filter index `(filtertype << 8) | ctrl` fits the 16-bit outer index. */
  lemma FilterIndexFits(ft: nat, c: nat)
    ensures ft <= 0xFF && c <= 0xFF ==> Pack(ft, c, FilterShift) <= 0xFFFF
  {
    PowersOfTwo();
    if ft <= 0xFF && c <= 0xFF {
      PackBound(ft, c, FilterShift, FilterShift);
    }
  }

  /** A filter command decodes to type FLTR, then to its filter type and index. */
  lemma CtrlFltrDecode(ft: nat, c: nat)
    requires ft <= 0xFF && c <= 0xFF
    ensures CodeType(CtrlFltr(ft, c)) == TypeValue(TypeFltr)
    ensures FilterCodeType(CtrlFltr(ft, c)) == ft
    ensures FilterCodeIndex(CtrlFltr(ft, c)) == c
  {
    PowersOfTwo();
    var inner := Pack(ft, c, FilterShift);
    FilterIndexFits(ft, c);
    CtrlDecode(TypeValue(TypeFltr), inner);
    UnpackPack(ft, c, FilterShift);
  }

  /** Distinct (filter type, index) pairs below 256 never give the same filter command. */
  lemma CtrlFltrInjective(ft1: nat, c1: nat, ft2: nat, c2: nat)
    requires ft1 <= 0xFF && c1 <= 0xFF && ft2 <= 0xFF && c2 <= 0xFF
    requires CtrlFltr(ft1, c1) == CtrlFltr(ft2, c2)
    ensures ft1 == ft2 && c1 == c2
  {
    CtrlFltrDecode(ft1, c1);
    CtrlFltrDecode(ft2, c2);
  }

  /** A filter command never equals a command built in any other namespace. */
  lemma CtrlFltrApart(ft: nat, fc: nat, t: nat, c: nat)
    requires ft <= 0xFF && fc <= 0xFF && c <= 0xFFFF
    requires t != TypeValue(TypeFltr)
    ensures CtrlFltr(ft, fc) != Ctrl(t, c)
  {
    CtrlFltrDecode(ft, fc);
    CtrlDecode(t, c);
  }

  /** Without the filter bound the nested level collides: index 256 of filter 0 is index 0 of filter 1. */
  lemma CtrlFltrCollidesWithoutBound()
    ensures CtrlFltr(FilterValue(FilterNone), 0x100) == CtrlFltr(FilterValue(FilterCharset), 0)
  {
    PowersOfTwo();
    PackIsSum(FilterValue(FilterCharset), 0, FilterShift);
  }

  /** State codes are packed exactly as commands are. */
  lemma StateIsCtrl(t: nat, s: nat)
    ensures State(t, s) == Ctrl(t, s)
  {
  }

  /** Decoding a state code gives back the type and the state it was built from. */
  lemma StateDecode(t: nat, s: nat)
    requires s <= 0xFFFF
    ensures CodeType(State(t, s)) == t
    ensures CodeIndex(State(t, s)) == s
  {
    CtrlDecode(t, s);
  }
}

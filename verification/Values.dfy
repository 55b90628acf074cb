/** SQL parameter values as they leave Python (src/parameter_conversion.rs). */
module Values {

  datatype TypedNull =
    | U8 | I16 | I32 | I64 | F32 | F64 | Bit | String | Guid | Binary | Numeric | Xml
    | DateTime | SmallDateTime | Time | Date | DateTime2 | DateTimeOffset

  /** Floats are carried as their bit pattern, dates and times as counts from their epoch. */
  datatype FastParameter =
    | Null(nullType: TypedNull)
    | BoolParam(flag: bool)
    | I64Param(number: int)
    | F64Param(bits: bv64)
    | StringParam(text: string)
    | BytesParam(bytes: seq<bv8>)
    | DateParam(days: int)
    | DateTimeParam(ticks: int)

  /** What Python's `None` becomes: a tinyint NULL. */
  const UNTYPED_NULL: FastParameter := Null(U8)
}

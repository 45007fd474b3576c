/** The error values the parsers return (src/errors.rs), the table-lookup
    error `TableIdxError` that the renderers use (its declaration is not part
    of the shown source; its variants are those the renderers construct), and
    `std::io::Error` as a kind plus its message. */
module Errors {
  import opened Utils

  datatype InstructionError =
    | UnknownOpcode(opcode: U8)
    | EmptyBuffer
    | Size(opcode: U8, expected: nat, actual: nat)

  datatype DexParseError =
    | InvalidElementSize(field: string, expected: nat, actual: nat)

  datatype TableIdxError =
    | String(idx: nat)
    | Type(idx: nat)
    | FieldId(idx: nat)
    | MethodId(idx: nat)
    | ProtoId(idx: nat)
    | CallSite(idx: nat)
    | MethodHandle(idx: nat)

  datatype IoErrorKind = UnexpectedEof | InvalidData

  datatype IoError = IoError(kind: IoErrorKind, message: string)
}

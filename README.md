# A verified model of a Dalvik Executable (DEX) disassembler

The repository is a Rust reader for Android's Dalvik Executable format. It has
three parts, plus two small Java programs whose compiled `.dex` files it reads.

- **The library** (`src/`):
  - byte primitives: little-endian reads, ULEB128, nibbles;
  - the fixed-size records of a DEX file and the `type_list` and `code_item`
    structures;
  - the six id tables of the file;
  - the Dalvik instruction set with its size table, decoder, branch offsets and
    smali-like renderer;
  - the `access_flags` renderer.
- **`dex2smali`**: an earlier version of the same reader, with its own header,
  id-table, field/method id and `class_data_item` readers.
- **`lab1`**: a first stand-alone version with its own header, string, type-id,
  class-def and class-data readers.
- **The Java samples**: `HelloWorld` (two factorials) and `TestClass1` (a class
  with a static counter).

The model is one Dafny module per source file. Record parsers and pure
computations are functions. Every loop of the source (table readers, the
instruction loop of `code_item`, ULEB128 decoding, the register-list loops of
the renderer, the access-flag tests, the Java factorial loop) is a `method`
proved against a specification function. The Java classes whose fields change
are Dafny classes.

Decoding is paired with a reference encoder written for the proofs: every
well-formed instruction decodes back from its encoding. This holds for the
decoder with the corrected 35c argument order (opcodes 24, 6E-72, FA and FC)
and the corrected move/16 size; the code as written is modelled beside it,
see "## Findings". Every record parser round-trips with its encoding.

Some of the copies of a reader in `lab1` and `dex2smali` are proved to agree
with another version, each under the stated condition:
- `Lab1.HeaderAgreesWithDex2Smali`: lab1's header parser against dex2smali's;
- `Lab1.ClassDataAgreesWithDex2Smali`: lab1's `class_data_item` reader against
  dex2smali's, on the count errors and when all four counts are zero;
- `Lab1.TypeIdsAgreeWithLibrary`: lab1's type ids against the library's
  `read_types`, when every descriptor index is in range;
- `Dex.OutOfRangeTypeSkipped` and `Dex2SmaliDex.TypesAreInRangeDescriptors`:
  the library's and dex2smali's types tables meet the same reference
  (`Dex.InRangeDescriptors`).
The string readers of the three versions are not proved equal to each other.

Integer widths are subset types `U8`…`U64` and `I8`…`I64`. `usize` is an
unbounded `nat`. Java `int` arithmetic wraps explicitly (`JavaInt.Wrap`). The
functions the source takes from outside the core are parameters of the model:
- `String::from_utf8_lossy`;
- the opcode mnemonic;
- the `Debug` texts of call sites and method handles;
- the rendering of a prototype;
- the readers of `EncodedField` and `EncodedMethod`;
- the library's header parser;
- the `dex2smali` string and `class_def_item` parsers.

## Model

| member | source | states |
|---|---|---|
| Utils.ReadU16Le | src/utils.rs:15-17 | the value is the one whose 2-byte little-endian encoding is the bytes at the offset |
| Utils.ReadU32Le | src/utils.rs:6-8 | the value is the one whose 4-byte little-endian encoding is the bytes at the offset, and equals the weighted sum of the four bytes |
| Utils.ReadU32LeOfEncode | src/utils.rs:6-8 | reading back a 4-byte encoding placed at an offset yields the encoded value |
| Utils.ToNibbles | src/utils.rs:52-54 | both halves are below 16 and lo + 16·hi is the byte |
| Utils.DecodeUleb128 | src/utils.rs:25-49 | the loop returns exactly the ULEB128 specification: None when no byte among the first ten has its high bit clear, else the value and the bytes used |
| Utils.UlebResultShape | src/utils.rs:25-49 | None iff the first min(10, len) bytes all have the continuation bit; on success 1 ≤ used ≤ len, the last used byte ends the number and the earlier ones continue it |
| Utils.UlebRoundTrip | src/utils.rs:25-49 | any u64 encodes in at most 10 bytes, and decoding its encoding followed by anything returns the value and the encoding's length |
| Utils.UlebSingleByte | src/utils.rs:36-38 | a byte below 0x80 decodes to itself using one byte |
| Parse.TryParseFromBytes | src/traits/parse.rs:8-21 | Ok iff the buffer is at least SIZE long; the error carries the name, SIZE and the actual length; Ok holds the record parsed from the buffer |
| RustTypes.KeptIsOrderedSubsequence | src/dex/mod.rs:74-82 | the items a table reader keeps are the successful results, in their original order (at strictly increasing positions) |
| RustTypes.KeptAllOk | src/dex/mod.rs:105-114 | when every parse succeeds, nothing is dropped and item i is the value of result i |
| DexString.UntilNul | src/dex/string.rs:14-19 | None iff there is no NUL; otherwise the longest NUL-free prefix, followed in the input by a NUL |
| DexString.ReadUntilNul | src/dex/string.rs:14-19 | succeeds exactly when a NUL follows the start, with the lossy decoding of the bytes before it; fails with `InvalidData` otherwise |
| DexString.ReadStringFromBytesShape | src/dex/string.rs:5-25 | a ULEB128 length that does not decode is `InvalidData` with its message; a missing NUL is `InvalidData`; otherwise the lossy decoding of the bytes between the length and the NUL |
| ClassDefItem.TryParseFromBytes | src/dex/class_def_item.rs:25-48 | Ok iff at least 32 bytes; the error is `InvalidElementSize`; the record's encoding is the first 32 bytes |
| ClassDefItem.ParseEncode | src/dex/class_def_item.rs:29-48 | parsing the encoding of any record, followed by anything, gives the record back |
| FieldIdItem.TryParseFromBytes | src/dex/field_id_item.rs:37-50 | Ok iff at least 8 bytes; the error is `InvalidElementSize`; the record's encoding (u16, u16, u32) is the first 8 bytes |
| FieldIdItem.ParseEncode | src/dex/field_id_item.rs:41-50 | parsing the encoding of any record gives it back |
| FieldIdItem.ToHumanReadable | src/dex/field_id_item.rs:20-34 | Ok iff the class, type and name indices are in their tables; the first missing index is the error (Type, Type, String in that order); Ok is `class->name:type` |
| MethodIdItem.TryParseFromBytes | src/dex/method_id_item.rs:40-53 | Ok iff at least 8 bytes; the error is `InvalidElementSize`; the encoding is the first 8 bytes |
| MethodIdItem.ParseEncode | src/dex/method_id_item.rs:44-53 | parsing the encoding of any record gives it back |
| MethodIdItem.ToHumanReadable | src/dex/method_id_item.rs:20-37 | errors Type, ProtoId, String for the first missing index in that order, then the prototype's error; Ok is `class->name` followed by the prototype text |
| ProtoIdItem.TryParseFromBytes | src/dex/proto_id_item.rs:14-30 | Ok iff at least 12 bytes; otherwise `InvalidData` "Buffer too short to parse ProtoIdItem"; the encoding is the first 12 bytes |
| ProtoIdItem.ParseEncode | src/dex/proto_id_item.rs:14-30 | parsing the encoding of any record followed by anything is Ok with the record |
| MethodHandleItem.ParseFromBytes | src/dex/method_handle_item.rs:16-23 | the type is the u16 at 0 and the id the u16 at 4 |
| MethodHandleItem.TryParseFromBytes | src/dex/method_handle_item.rs:12-23 | Ok iff at least 8 bytes, with the `InvalidElementSize` error otherwise |
| MethodHandleItem.UnusedBytesIgnored | src/dex/method_handle_item.rs:16-23 | bytes 2-3 and 6-7 do not affect the parsed record |
| MethodHandleItem.ParseEncode | src/dex/method_handle_item.rs:16-23 | the two u16 fields with any padding parse back to the record |
| TypeList.TryParseItem | src/dex/type_list.rs:48-60 | Ok iff at least 2 bytes; the item's index encodes as the first 2 bytes |
| TypeList.TypeListOf | src/dex/type_list.rs:15-40 | with the corrected guard: fewer than 4 bytes, or fewer than 4 + 2·size, is `InvalidElementSize` with the expected length; otherwise item i is the u16 at 4 + 2i |
| TypeList.TryParseFromBytesUnsized | src/dex/type_list.rs:15-40 | the loop returns `TypeListOf(buffer)` |
| TypeList.TryParseFromBytesUnsizedAsWritten | src/dex/type_list.rs:16-23 | as written: it panics exactly on 2 or 3 bytes, returns the 2-byte error below 2, and agrees with the corrected parser from 4 bytes on |
| TypeList.AsWrittenPanicsOnThreeBytes | src/dex/type_list.rs:16-23 | on `[1, 0, 0]` the guard lets the u32 read run past the buffer, where the corrected parser returns an error |
| AccessFlags.ToHumanReadable | src/dex/access_flags.rs:29-74 | the fourteen tests build the words of the specification table in order, joined by single spaces |
| AccessFlags.WordPresence | src/dex/access_flags.rs:29-74 | a word appears iff its flag bit is set |
| AccessFlags.SynchronizedTwice | src/dex/access_flags.rs:46-48 | "synchronized" appears twice when bit 0x20 is set (tested at the 6th and the 14th if) and never otherwise |
| AccessFlags.NoBridgeOrVarargs | src/dex/access_flags.rs:13-15 | "bridge" and "varargs" (sharing bits with volatile and transient) are never printed |
| AccessFlags.UnrenderedBitsIgnored | src/dex/access_flags.rs:5-25 | bits without a test (synthetic, annotation, enum, declared-synchronized, unnamed) do not change the output |
| AccessFlags.NoFlagsRenderEmpty | src/dex/access_flags.rs:73 | no flags render as the empty string |
| InstructionSize.InstructionSizeBytes | src/dex/instruction/size.rs:236-303 | `UnknownOpcode` exactly for the unused opcodes 3E-43, 73, 79-7A, E3-F9; otherwise a size in {2,4,6,8,10}; 10 only for 0x18; 8 only for FA and FB |
| InstructionSize.SizeBytes | src/dex/instruction/size.rs:6-234 | every variant's size is an even number from 2 to 10 (with move/16 corrected to 6) |
| InstructionSize.SizeBytesAsWritten | src/dex/instruction/size.rs:11-17 | as written, it differs from the corrected size exactly for move/16, move-wide/16 and move-object/16 |
| InstructionSize.SizeBytesAsWrittenDisagrees | src/dex/instruction/size.rs:11 | for move/16 the as-written size is 4 while the opcode table says 6 |
| InstructionDecode.TryDecode | src/dex/instruction/decode.rs:9-767 | with the corrected 35c argument order (opcodes 24, 6E-72, FA, FC): the errors come in order (empty, unknown opcode, `Size` with expected and actual); Ok iff the opcode is used and the buffer is long enough; the instruction belongs to the opcode byte, is well formed and its `size_bytes` is the table's size |
| InstructionDecode.DecodeOperandsShape | src/dex/instruction/decode.rs:25-767 | decoding from exactly the opcode's bytes gives an instruction of that opcode, that size, with fields that fit |
| InstructionDecode.Args35c | src/dex/instruction/decode.rs:182-191 | corrected: the five registers of format 35c are lo/hi of byte 4, lo/hi of byte 5, then lo of byte 1 |
| InstructionDecode.Args35cAsWritten | src/dex/instruction/decode.rs:494-499 | as written: the first two pairs of the corrected order are swapped |
| InstructionEncode.DecodeEncode | src/dex/instruction/decode.rs:9-767 | every well-formed instruction, encoded and followed by anything, decodes back to itself |
| InstructionEncode.EncodeShape | src/dex/instruction/size.rs:236-303 | the encoding has `size_bytes` bytes and starts with the opcode, and the opcode table gives that opcode the same size |
| InstructionEncode.Args35cOfArgBytes | src/dex/instruction/decode.rs:182-191 | the 35c argument bytes of five nibble registers decode back to them |
| DecodeExamples.InvokeVirtualVector | src/dex/instruction/tests.rs:1128-1139 | the test's bytes decode to invoke-virtual method 6 with args 2, 3, 0, 1, 4 and count 5 |
| DecodeExamples.InvokeCustomVector | src/dex/instruction/tests.rs:2330-2341 | the test's bytes decode to invoke-custom 0x221 with args 2, 3, 0, 1, 5 and count 4 |
| DecodeExamples.GotoVector | src/dex/instruction/tests.rs:326-329 | `28 F0` decodes to goto −16 |
| DecodeExamples.Goto16Vector | src/dex/instruction/tests.rs:332-335 | `29 00 0F FE` decodes to goto/16 −497 |
| DecodeExamples.ErrorVectors | src/dex/instruction/decode.rs:10-22 | the three errors on concrete inputs: empty, opcode 3E unknown, const (6 bytes) from 4 bytes |
| DecodeExamples.Args35cAsWrittenMisreadsVector | src/dex/instruction/decode.rs:494-499 | on the invoke-virtual test bytes the as-written order gives 0, 1, 2, 3, 4 where the test expects 2, 3, 0, 1, 4 |
| DecodeExamples.Args35cAsWrittenBreaksRoundTrip | src/dex/instruction/decode.rs:494-499 | the as-written order does not return the registers packed in format 35c |
| InstructionOffset.OffsetIffBranchOpcode | src/dex/instruction/offset.rs:5-24 | there is an offset iff the opcode is one of 26, 28-2C, 32-3D |
| InstructionOffset.OffsetOfDecodedGoto | src/dex/instruction/decode.rs:211-213 | a decoded goto's offset is byte 1 read as signed |
| InstructionOffset.OffsetOfDecoded16 | src/dex/instruction/decode.rs:214-275 | a decoded goto/16 or if-test's offset is the signed u16 at byte 2 |
| InstructionOffset.OffsetOfDecoded32 | src/dex/instruction/decode.rs:203-233 | a decoded goto/32, switch or fill-array-data's offset is the signed u32 at byte 2 |
| LegacyInstruction.Decode | src/dex/instruction.rs:13-47 | short buffers are `UnexpectedEof`; Ok exactly for opcodes 00, 01, 0A and for 1A with 4 bytes; an unknown opcode is `InvalidData` with the message `Unknown opcode: ` and the opcode in `{:#x}` form; the length is 2 or 4 |
| LegacyInstruction.UnknownOpcodeMessage | src/dex/instruction.rs:40-45 | opcode 3E is reported as `Unknown opcode: 0x3e` and 05 as `Unknown opcode: 0x5` |
| LegacyInstruction.DecodeAgreesWithTryDecode | src/dex/instruction.rs:21-38 | whatever the old decoder accepts, the new one decodes to the same instruction with the same size |
| CodeItem.TryParseFromBytesUnsized | src/dex/code_item.rs:23-74 | with the corrected move/16 size: a header under 16 bytes or an instruction area past the buffer is `UnexpectedEof`; otherwise the header fields and the decoding loop's instructions |
| CodeItem.DecodeInstructions | src/dex/code_item.rs:47-63 | the loop yields the instructions decoded back to back from byte 16, stopping at the first failure or once `insns_size` units are covered |
| CodeItem.DecodeFromOffset | src/dex/code_item.rs:49-62 | instruction k is the decode of the bytes at 16 + the sizes of the instructions before it, a position inside the instruction area |
| CodeItem.DecodeFromEnd | src/dex/code_item.rs:49-59 | the loop ends because the covered size reached the area's size or because the next decode fails |
| CodeItem.Move16ItemParse | src/dex/code_item.rs:47-62 | with the corrected move/16 size, code units `0003 0001 0002 0000` parse as move/16 v1, v2 and a nop |
| CodeItem.Move16ItemAsWritten | src/dex/code_item.rs:61 | stepping by the source's 4-byte move/16 size, the same code units give move/16 v1, v2 and a move/from16 read from inside the move/16 |
| CodeItem.LastInstructionMayOverrun | src/dex/code_item.rs:49-62 | with `insns_size` 1 a 4-byte instruction is still decoded, covering 4 bytes |
| Dex.ReadStrings | src/dex/mod.rs:35-46 | the strings that read successfully, in id order |
| Dex.ReadTypes | src/dex/mod.rs:48-67 | for each type id, the string at its descriptor index when in range, in id order; none when there are no type ids |
| Dex.ReadProtoIdItems | src/dex/mod.rs:69-83 | the prototype records that parse, each from its 12-byte slot to the end of the buffer |
| Dex.ReadFieldIdItems | src/dex/mod.rs:85-99 | the field records that parse, each from its 8-byte slot to the end |
| Dex.ReadMethodIdItems | src/dex/mod.rs:101-115 | the method records that parse, each from exactly its 8 bytes |
| Dex.ReadClassDefItems | src/dex/mod.rs:117-131 | the class-def records that parse, each from its 32-byte slot to the end |
| Dex.TryParseFromBytes | src/dex/mod.rs:133-152 | fails iff the header does, with its error; otherwise the header and the six tables as the readers build them |
| Dex.TablesNoLongerThanCounts | src/dex/mod.rs:35-131 | no table has more entries than its id count |
| Dex.MethodIdsComplete | src/dex/mod.rs:101-115 | no method id is skipped: entry i is the record at slot i |
| Dex.KeptLookups | src/dex/mod.rs:54-64 | looking up each index and keeping the successes gives the strings of the in-range indices, in order |
| Dex.OutOfRangeTypeSkipped | src/dex/mod.rs:48-67 | for every buffer, header and string table, the types kept are the strings named by the in-range descriptor indices, in type-id order; out-of-range ones are dropped |
| Dex.OutOfRangeTypeExample | src/dex/mod.rs:54-64 | with one string and descriptor indices 0 and 5, only the first type is kept |
| Dex2SmaliHeader.ParseFromBytes | dex2smali/src/dex/header.rs:74-109 | Ok iff at least 112 bytes, otherwise `InvalidData`; the header's encoding is the first 112 bytes, and the two version-41 fields are 0 |
| Dex2SmaliHeader.ParseEncode | dex2smali/src/dex/header.rs:74-109 | parsing the encoding of any header (version-41 fields 0) gives it back |
| Dex2SmaliHeader.EncodeInjective | dex2smali/src/dex/header.rs:79-106 | two headers with the same encoding are equal |
| Dex2SmaliFieldIdItem.ParseFromBytes | dex2smali/src/dex/field_id_item.rs:14-31 | Ok iff at least 8 bytes, otherwise `UnexpectedEof`; the encoding is the first 8 bytes |
| Dex2SmaliFieldIdItem.AgreesWithLibrary | dex2smali/src/dex/field_id_item.rs:14-31 | succeeds on the same buffers as the library parser, with the same record |
| Dex2SmaliFieldIdItem.ParseEncode | dex2smali/src/dex/field_id_item.rs:14-31 | parsing an encoding gives the record back |
| Dex2SmaliMethodIdItem.TryParseFromBytes | dex2smali/src/dex/method_id_item.rs:14-31 | Ok iff at least 8 bytes, otherwise `UnexpectedEof`; the encoding is the first 8 bytes |
| Dex2SmaliMethodIdItem.AgreesWithLibrary | dex2smali/src/dex/method_id_item.rs:14-31 | succeeds on the same buffers as the library parser, with the same record |
| Dex2SmaliMethodIdItem.ParseEncode | dex2smali/src/dex/method_id_item.rs:14-31 | parsing an encoding gives the record back |
| Dex2SmaliDex.ReadStrings | dex2smali/src/dex/mod.rs:24-35 | the strings that read successfully, in id order |
| Dex2SmaliDex.ReadTypes | dex2smali/src/dex/mod.rs:37-56 | the descriptors of the type ids whose index is in range, in id order |
| Dex2SmaliDex.ReadMethodIdItems | dex2smali/src/dex/mod.rs:58-72 | the method records that parse from their exact 8-byte slices |
| Dex2SmaliDex.ReadClassDefItems | dex2smali/src/dex/mod.rs:74-88 | the class-def records that parse from their exact 32-byte slices |
| Dex2SmaliDex.ParseFromBytes | dex2smali/src/dex/mod.rs:90-108 | fails iff the header is short, with `InvalidData`; otherwise strings, types, method ids and class defs as their readers build them |
| Dex2SmaliDex.MethodIdsComplete | dex2smali/src/dex/mod.rs:58-72 | no method id is skipped, and entry i is the record encoded in slot i |
| Dex2SmaliDex.TypesAreInRangeDescriptors | dex2smali/src/dex/mod.rs:37-56 | the types kept are the strings named by the in-range descriptor indices, in type-id order, the same reference as the library's |
| Dex2SmaliDex.TypesAreStrings | dex2smali/src/dex/mod.rs:37-56 | every type kept is one of the strings |
| ClassDataItem.ReadEncoded | dex2smali/src/dex/class_data_item.rs:19-47 | the loop reads `size` items, each with the previous index, and stops at the first error |
| ClassDataItem.ReadListLength | dex2smali/src/dex/class_data_item.rs:26-30 | a successful read holds exactly `size` items |
| ClassDataItem.ReadEncodedFields | dex2smali/src/dex/class_data_item.rs:19-32 | `read_encoded_fields` is the list reader over the field reader, starting from index 0 |
| ClassDataItem.ReadEncodedMethods | dex2smali/src/dex/class_data_item.rs:34-47 | `read_encoded_methods` is the list reader over the method reader, starting from index 0 |
| ClassDataItem.Count | dex2smali/src/dex/class_data_item.rs:51-56 | a count that does not decode is `InvalidData` with its message; otherwise the ULEB128 value and an offset moved forward within the buffer |
| ClassDataItem.TryParseFromBytes | dex2smali/src/dex/class_data_item.rs:49-97 | the four counts in order, each with its own error message, then the four lists read one after another |
| ClassDataItem.ListsHaveTheirCounts | dex2smali/src/dex/class_data_item.rs:79-96 | on success each list has the length its count gives |
| ClassDataItem.CountOfEncoding | dex2smali/src/dex/class_data_item.rs:51-56 | a count read from the encoding of v is v, and the offset moves by the encoding's length |
| ClassDataItem.EmptyClassData | dex2smali/src/dex/class_data_item.rs:49-97 | four zero counts give an item with four empty lists |
| Lab1.ParseDexHeader | lab1/src/main.rs:72-105 | Ok iff at least 112 bytes, otherwise `InvalidData`; magic and signature are bytes 0-8 and 12-32 |
| Lab1.HeaderAgreesWithDex2Smali | lab1/src/main.rs:72-105 | accepts the same buffers as the dex2smali header parser, with the same error, and the same fields minus the two version-41 ones |
| Lab1.ReadDexStrings | lab1/src/main.rs:107-141 | the offsets are collected, then the strings read in order; the first undecodable length is the error, a string without a NUL is skipped |
| Lab1.StepAgreesWithLibrary | lab1/src/main.rs:122-138 | each step gives the library's string when that succeeds and its error on a bad length, and skips where the library reports a missing NUL |
| Lab1.ReadAllLength | lab1/src/main.rs:122-138 | at most one string per offset, and exactly one each when every step finds a string |
| Lab1.DroppedStringShiftsIndices | lab1/src/main.rs:122-138 | a skipped string moves the later strings to lower indices |
| Lab1.ReadTypeIds | lab1/src/main.rs:242-264 | one type per id, the string at its descriptor index or a placeholder, and never an error |
| Lab1.TypeIdsAgreeWithLibrary | lab1/src/main.rs:242-264 | when every index is in range, the types are those the library's `read_types` keeps from the same strings |
| Lab1.ReadClassDefs | lab1/src/main.rs:266-296 | one record per id, record k read from its 32-byte slot, never an error |
| Lab1.ClassDefAtEncodes | lab1/src/main.rs:266-296 | each record is the library's class-def parse at its offset, and it encodes as its 32 bytes |
| Lab1.ReadClassDataItem | lab1/src/main.rs:298-338 | fails iff one of the four counts does not decode, with `InvalidData`; otherwise four empty lists |
| Lab1.ClassDataAgreesWithDex2Smali | lab1/src/main.rs:298-338 | from the start of a buffer it fails on the counts exactly as dex2smali's reader does, and agrees with it when the counts are 0 |
| InstructionHumanReadable.ArgumentList | src/dex/instruction/human_readable.rs:161-167 | the five-slot loop with `trim_start` gives the names of the first min(arg_cnt, 5) registers separated by single spaces |
| InstructionHumanReadable.RangeArgumentList | src/dex/instruction/human_readable.rs:178-182 | the range loop with `trim_start` gives `arg_cnt` consecutive register names from `first_arg`, wrapping at 2^16, separated by single spaces |
| InstructionHumanReadable.BuildRegisterList | src/dex/instruction/human_readable.rs:151-185 | the register list of the 35c and 3rc forms, and nothing for any other instruction |
| InstructionHumanReadable.ToHumanReadable | src/dex/instruction/human_readable.rs:6-640 | the rendering is the mnemonic, a space, then the operands, or the first lookup error |
| InstructionHumanReadable.MnemonicThenSpace | src/dex/instruction/human_readable.rs:635-638 | any successful rendering starts with the mnemonic and one space |
| InstructionHumanReadable.NoOperands | src/dex/instruction/human_readable.rs:50 | nop and return-void render as the mnemonic and a trailing space |
| InstructionHumanReadable.ConstStringRendering | src/dex/instruction/human_readable.rs:116-120 | const-string renders the register and the quoted string, or `String(idx)` when the index is out of range |
| InstructionHumanReadable.ConstStringJumboRendering | src/dex/instruction/human_readable.rs:121-125 | the same for the 32-bit index |
| InstructionHumanReadable.TypeOperandRendering | src/dex/instruction/human_readable.rs:126-135 | const-class, check-cast and new-instance render the register and the type, or `Type(idx)` |
| InstructionHumanReadable.InstanceFieldRendering | src/dex/instruction/human_readable.rs:268-341 | iget/iput render two registers then the field's text; a missing field is `FieldId(idx)` and a field rendering error is passed on |
| InstructionHumanReadable.StaticFieldRendering | src/dex/instruction/human_readable.rs:343-378 | sget/sput render one register then the field's text, with the same errors |
| InstructionHumanReadable.InvokeMissingMethod | src/dex/instruction/human_readable.rs:405 | an invoke, five-slot or range, with a missing method is `MethodId(idx)` |
| InstructionHumanReadable.InvokeRendering | src/dex/instruction/human_readable.rs:380-415 | the five-slot invokes render the registers of the first min(arg_cnt, 5) slots, then the method's text or its error |
| InstructionHumanReadable.InvokeRangeRendering | src/dex/instruction/human_readable.rs:417-450 | the range invokes render the consecutive registers, then the method's text or its error |
| InstructionHumanReadable.InvokeCustomRendering | src/dex/instruction/human_readable.rs:589-603 | invoke-custom renders its registers and the call site's text, or `CallSite(idx)` |
| InstructionHumanReadable.InvokeCustomRangeUsesMethods | src/dex/instruction/human_readable.rs:605-619 | invoke-custom/range looks its index up in the method table: `MethodId(idx)` when missing, otherwise it succeeds iff that method renders |
| InstructionHumanReadable.PolymorphicLookupOrder | src/dex/instruction/human_readable.rs:543-587 | invoke-polymorphic (both forms) checks the method index before the prototype index |
| InstructionHumanReadable.OnlyLookupsFail | src/dex/instruction/human_readable.rs:49-632 | an instruction without a table lookup always renders |
| Fmt.NatToStringShape | src/dex/instruction/human_readable.rs:116-120 | `{}` of a number is a non-empty digit string without a leading zero whose decimal value is the number |
| Fmt.TrimStartShape | src/dex/instruction/human_readable.rs:167 | `trim_start` removes a whitespace prefix and leaves a suffix that is empty or starts with a non-space |
| HelloWorld.RecursiveIsFactorial | lab1/java/HelloWorld.java:11-17 | `recursive_factorial(n)` for n ≥ 0 is n! reduced to a 32-bit two's-complement int |
| HelloWorld.IterativeFactorial | lab1/java/HelloWorld.java:19-25 | 1 for n < 2; for n ≥ 0 the wrapped n!, equal to the recursive version |
| HelloWorld.FactorialOfFive | lab1/java/HelloWorld.java:6-8 | both print 120 for the program's number 5 |
| HelloWorld.ThirteenWraps | lab1/java/HelloWorld.java:11-17 | from 13 on the int result has wrapped: 13 gives 1932053504 |
| JavaInt.WrapMul | lab1/java/HelloWorld.java:22 | wrapping after each multiplication equals wrapping the whole product |
| TestClass1.Statics.constructor | examples/java/TestClass1.java:6 | the static counter starts at 0 |
| TestClass1.Statics.IncrementCounter | examples/java/TestClass1.java:19-21 | the counter is incremented with 32-bit wrap-around, and is exactly one more below `Integer.MAX_VALUE` |
| TestClass1.TestClass1.constructor | examples/java/TestClass1.java:13-16 | the id and the name are the arguments |
| TestClass1.TestClass1.GetName | examples/java/TestClass1.java:34-36 | returns the name |
| TestClass1.TestClass1.ResetName | examples/java/TestClass1.java:39-41 | the name becomes "Unnamed" and the id does not change |

## Left out

- Console output (`println!`, `eprintln!`, `System.out.println`) is left out. That includes the warnings of `read_types`, of the table readers and of the UTF-16 length check in `read_string_from_bytes`, and `TestClass1.displayInfo` / `logInternal`, whose only effect is printing.
- File I/O and the `main` functions are left out: `src/main.rs`, `dex2smali/src/main.rs`, and lab1's `parse_dex` and `main`.
- Lab1's `read_method_ids` is `todo!()` in the source and is not modelled.
- `String::from_utf8_lossy` is a parameter (`lossy`): UTF-8 decoding is outside the model.
- The opcode mnemonic (`opcode()`), `ProtoIdItem::to_human_readable`, and the `Debug` texts of call-site and method-handle items are not in the source files. They are parameters of `InstructionHumanReadable.Env`. `call_site_items` and `method_handles` are not fields of the `Dex` struct shown, so their rendered texts are passed in `Env` as well.
- The library's `HeaderItem` parser (`header_item.rs`) is not part of this model. `Dex.TryParseFromBytes` takes it as a parameter.
- `dex2smali`'s `string` and `class_def_item` modules and its `EncodedField` / `EncodedMethod` readers are not part of this model. They are parameters of the readers that call them.
- `dex2smali/src/dex/field_id_item.rs` is not declared in that crate's `mod.rs`, so nothing calls it. It is modelled on its own. `dex2smali` calls `MethodIdItem::parse_from_bytes` while the file defines it as `try_parse_from_bytes`; the model uses the definition.
- `read_u64_le` is imported by `decode.rs` but not shown. `Utils.ReadU64Le` models it as an 8-byte little-endian read, by analogy with `read_u32_le`.
- `usize` arithmetic is unbounded, so offset overflow in the table readers is not modelled. Neither is lab1's `class_data_off += bytes_used as u32` wrapping at 2^32.
- `InstructionHumanReadable.RangeArgumentList`: `*first_arg + i as u16` is modelled as a release build (wrap at 2^16). A debug build panics on overflow instead.
- Java `null`: `TestClass1`'s name is a non-null `string`, because Dafny strings cannot be null.
- `HelloWorld.RecursiveIsFactorial`: the contract is for n ≥ 0 only. For negative n the Java method recurses until the stack overflows.
- `TestClass1.Statics`: Dafny has no static fields, so the static counter is a field of this class and `IncrementCounter` is its method.
- `AccessFlags.SynchronizedTwice`: the number of occurrences is proved only for "synchronized". For every other word only presence is proved (`AccessFlags.WordPresence`).
- `ClassDataItem.CountOfEncoding`: the round trip is proved for one count at a time, not for all four chained.
- `InstructionDecode.TryDecode`: the 35c arms (opcodes 24, 6E-72, FA and FC; src/dex/instruction/decode.rs:182-191 and 494-499) are modelled with the corrected argument order, not the source's `[c, d, e, f, g]` built from `(e, f)` of byte 4 and `(c, d)` of byte 5. The source's order is `InstructionDecode.Args35cAsWritten` (see "## Findings").
- `CodeItem.TryParseFromBytesUnsized`: the loop advances by the corrected move/16 size (6 bytes), not the source's 4 (src/dex/code_item.rs:61, src/dex/instruction/size.rs:11-17). The source's walk is `DecodeFrom` with `CodeItem.AsWrittenSize` (see "## Findings").
- Panics on out-of-range reads are not modelled. `read_u32_le` past the end of the buffer and `&buffer[offset..]` with `offset` past its end panic in the source; the model's readers exclude those inputs by their `requires`. The predicates that state this are `Dex.StringIdsInBounds`, `Dex.TypeIdsInBounds`, `Dex.SuffixesInBounds`, `Dex.MethodIdsInBounds`, `Dex.TablesInBounds`, `Dex2SmaliDex.StringIdsInBounds`, `Dex2SmaliDex.TypeIdsInBounds`, `Dex2SmaliDex.SlicesInBounds`, `Dex2SmaliDex.TablesInBounds`, `Lab1.StringIdsInBounds`, `Lab1.TypeIdsInBounds` and `Lab1.ClassDefsInBounds`, together with `offset <= |buffer|` on `DexString.ReadStringFromBytes` and `classDataOff <= |buffer|` on `Lab1.ReadClassDataItem`.
- `HelloWorld.IterativeFactorial`: requires `n < Integer.MAX_VALUE`. For `n == Integer.MAX_VALUE` the Java loop condition `i <= n` stays true as `i` wraps, so the method never returns; that input is excluded.
- `InstructionEncode`: the encoder is a reference written for the round-trip proof. The source has none.
- The `lab0` files are exercises outside the disassembler and are not modelled.

## Findings

| source | as written | input that shows it | evidently intended | confidence | as-written member | corrected member |
|---|---|---|---|---|---|---|
| src/dex/instruction/decode.rs:182-191 | the 35c argument slots are built as `[c, d, e, f, g]` with `(e, f)` from byte 4 and `(c, d)` from byte 5, in every 35c arm | `6E 54 06 00 32 10` (`test_invoke_virtual`) gives args 0, 1, 2, 3, 4; the test expects 2, 3, 0, 1, 4 | C, D from byte 4 and E, F from byte 5, as format 35c `A\|G\|op BBBB F\|E\|D\|C` lays them out | not executed | DecodeExamples.Args35cAsWrittenMisreadsVector | InstructionDecode.Args35c |
| src/dex/instruction/size.rs:11-17 | `size_bytes` gives 4 for move/16, move-wide/16 and move-object/16 | `Move16(dst, src)`: `size_bytes` is 4 while `instruction_size_bytes(0x03)` is 6, as is the decoder's read of the u16 at byte 4 | 6 bytes (format 32x, three code units) | not executed | InstructionSize.SizeBytesAsWrittenDisagrees | InstructionEncode.EncodeShape |
| src/dex/code_item.rs:61 | the instruction loop advances by `size_bytes()`, so by 4 after a move/16 | `insns_size` 4 and code units `0003 0001 0002 0000`: move/16 v1, v2, then a move/from16 v0, v0 decoded from the move/16's last operand | advance by 6 and decode the nop at byte 6 | not executed | CodeItem.Move16ItemAsWritten | CodeItem.Move16ItemParse |
| src/dex/type_list.rs:16-23 | the length guard is `len < 2` before a u32 read at offset 0 | `[1, 0, 0]` passes the guard and the 4-byte read panics | reject buffers shorter than 4 bytes with `InvalidElementSize` | not executed | TypeList.AsWrittenPanicsOnThreeBytes | TypeList.TypeListOf |

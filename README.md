# wasm-isolate, modelled in Dafny

wasm-isolate cuts a WebAssembly module down to a chosen set of items (functions,
types, tables, globals, memories, data and element segments, tags) together with
everything they reach, and renumbers what survives. The repository holds two
implementations and some supporting Go code. This project models the following parts.

- **The Rust tool** (`src/main.rs`, `src/uses.rs`, `src/relocation.rs`):
  - the index sets of the liveness engine (`Uses`, with `merge` and `all`);
  - the uses of every type, operator and item;
  - the work-queue liveness pass;
  - the relocation table;
  - the output pass that decides, section by section, which entries survive and under which
    indices.
  - the list of sections `main` records from the payloads (custom sections but `name` pass
    through as raw bytes) and the loop that writes one output section per recorded one, in
    order.
- **The Go isolator** (`isolate/`):
  - a cursor over the binary, with recording, LEB128, names, limits, value, reference, heap,
    table, memory, global and tag types, constant expressions and `Expect`;
  - the type codes;
  - the `Isolate` driver, which checks the preamble, walks the sections and counts imported
    functions.
- **The LEB128 codec** (`leb128/`), pinned down by its tests:
  - encoders, and decoders with a ten-byte limit;
  - round trips and the concrete cases of the tests.
- **The decoding stream** of the generated decoder (`parser/stream.go`).
- **The code generator's naming helpers** (`parser/gen/gen.go`): `snake2camel`, `camelName`,
  `varName` and the other name makers, the temporary counter and the unpacker registry.
- **The generator's OCaml type model** (`parser/gen/ocaml/types.go`): types, their printing and
  kinds, function application, and modules.

Pure code is modelled as datatypes and functions. Code that changes state is modelled as
methods:
- the Go cursor and the stream are classes whose methods change their fields;
- the generator's package-level counter and registry are the fields of a class;
- every Rust and Go loop is a Dafny loop (`while` or `for … to`) with invariants.

Each method is proved to compute a specification function. The properties are then proved
about those functions.

| file | module | models |
|---|---|---|
| base.dfy | Base | bytes, `u32`, Go's integer conversions, decimal printing |
| leb128.dfy | Leb128 | LEB128 encoding and decoding |
| isolate_types.dfy | IsolateTypes | type codes and value types of `isolate/types.go` |
| isolate_parser.dfy | IsolateParser | the cursor of `isolate/parser.go` |
| parser_properties.dfy | ParserProperties | what the cursor's readers promise |
| isolate_driver.dfy | IsolateDriver | the `Isolate` driver of `isolate/isolate.go` |
| driver_properties.dfy | DriverProperties | what the driver promises |
| stream.dfy | ByteStream | `parser/stream.go` |
| uses.dfy | LiveUses | `Uses`, `merge`, `all`, `append_and_dedup` |
| instr_uses.dfy | OperatorUses | types, operators and their uses (`get_*_uses`) |
| uses_properties.dfy | UsesProperties | what those uses contain |
| relocation.dfy | Relocations | `Relocation` and the index lookups of the re-encoder |
| wasm_module.dfy | WasmModule | the module as `main` collects it |
| liveness.dfy | ItemUses | the uses of one work item |
| worklist.dfy | Worklist | the initial queue and the liveness loop |
| renumber.dfy | Renumber | `get_new_index` and the relocation table |
| sections.dfy | Sections | the output pass |
| output.dfy | ModuleOutput | the section list and the output loop over it |
| strings.dfy | Strings | Go's `strings.Join` and `strings.Split` |
| ocaml_types.dfy | OcamlTypes | `parser/gen/ocaml/types.go` |
| gen_names.dfy | GenNames | the naming helpers of `parser/gen/gen.go` |

## Model

| member | source | states |
|---|---|---|
| Base.TruncU32 | src/main.rs:790-794 | Rust's `as u32` keeps the low 32 bits: a value in the u32 range is unchanged |
| Base.TruncI32 | isolate/parser.go:98-101 | Go's `int32(v)` lands in the int32 range and leaves an int32 value unchanged |
| Base.Decimal | src/main.rs:662-706 | the decimal text `{}` prints: non-empty, digits only, no leading zero |
| Base.DecimalRoundTrip | src/main.rs:662-706 | the decimal text of a number reads back as that number |
| Base.DecimalInjective | src/main.rs:662-706 | different numbers print differently |
| Leb128.Pow128 | leb128/leb128_test.go:92-100 | the group weights are positive |
| Leb128.EncodeU64 | leb128/leb128_test.go:20-68 | an unsigned encoding has at least one byte |
| Leb128.EncodeS64 | leb128/leb128_test.go:103-213 | a signed encoding has at least one byte |
| Leb128.EncodeU64Run | leb128/leb128_test.go:20-68 | an unsigned encoding is a run of continuation bytes ended by one without, whose 7-bit groups are the value |
| Leb128.EncodeS64Run | leb128/leb128_test.go:103-213 | a signed encoding is such a run, and its last byte has bit 6 set exactly when the value is negative |
| Leb128.EncodeS64Groups | leb128/leb128_test.go:103-213 | the groups of a signed encoding are the value, offset by 128^length when it is negative |
| Leb128.StopAt | leb128/leb128_test.go:84-100 | the decoder's stop scan: it takes at most ten bytes, overflows only after ten continuation bytes, and ends on a byte without the continuation bit when it terminates |
| Leb128.UnsignedFrom | leb128/leb128_test.go:84-100 | DecodeU64 from a point in its loop: the count is within the input and ten bytes, the value is a uint64, and an overflow gives (0, 10) |
| Leb128.UnsignedDecoding | leb128/leb128_test.go:70-100 | DecodeU64: a uint64 value, at most ten bytes consumed, and (0, 10, overflow) on overflow |
| Leb128.SignedFrom | leb128/leb128_test.go:215-237 | DecodeS64 from a point in its loop, with the same bounds and the overflow result (0, 10) |
| Leb128.SignedDecoding | leb128/leb128_test.go:215-237 | DecodeS64: at most ten bytes consumed, and (0, 10, overflow) on overflow |
| Leb128.SignExtendRange | leb128/leb128_test.go:146-213 | sign extension always gives an int64 |
| Leb128.AccumulateStep | leb128/leb128_test.go:84-100 | one step of `res \|= (b & 0x7f) << (7*n)` on 64 bits adds the next group to the running value |
| Leb128.DecodeU64 | leb128/leb128_test.go:19-100 | the decoding loop computes UnsignedDecoding |
| Leb128.DecodeS64 | leb128/leb128_test.go:102-237 | the decoding loop computes SignedDecoding |
| Leb128.UnsignedFromGroups | leb128/leb128_test.go:84-100 | the decoder's recursion agrees with the stop scan and the groups of the bytes taken |
| Leb128.SignedFromGroups | leb128/leb128_test.go:215-237 | the signed recursion agrees with the stop scan; the sign comes from the terminating byte |
| Leb128.UnsignedDecodingGroups | leb128/leb128_test.go:84-100 | DecodeU64 is the groups up to the stop, modulo 2^64 |
| Leb128.SignedDecodingGroups | leb128/leb128_test.go:215-237 | DecodeS64 is those groups, sign-extended when the run ended on a byte with bit 6 set |
| Leb128.SignedDecodingRange | leb128/leb128_test.go:189-213 | DecodeS64's value is always an int64 |
| Leb128.StopAtRun | leb128/leb128_test.go:84-90 | the decoder stops exactly at the end of a well-formed run of at most ten bytes, whatever follows |
| Leb128.StopAtOverflow | leb128/leb128_test.go:92-100 | the scan overflows exactly when every byte up to the tenth has the continuation bit |
| Leb128.UnsignedOverflowIff | leb128/leb128_test.go:92-100 | DecodeU64 overflows exactly when the first ten bytes all have the continuation bit, and then returns (0, 10) |
| Leb128.SignedOverflowIff | leb128/leb128_test.go:229-237 | the same for DecodeS64 |
| Leb128.EncodeU64Length | leb128/leb128_test.go:20-68 | a value below 128^k encodes in at most k bytes |
| Leb128.UnsignedDecodingOfRun | leb128/leb128_test.go:84-90 | a reader that starts with a well-formed run decodes exactly that run |
| Leb128.UnsignedRoundTrip | leb128/leb128_test.go:49-53 | decoding an unsigned encoding, whatever follows it, gives back the value and the encoding's length |
| Leb128.EncodeU64Short | leb128/leb128_test.go:57-68 | no uint64 needs more than ten bytes |
| Leb128.EncodeS64Length | leb128/leb128_test.go:103-213 | a value in [-64·128^k, 64·128^k) encodes in at most k + 1 bytes |
| Leb128.SignedDecodingOfRun | leb128/leb128_test.go:215-237 | a reader that starts with a well-formed run decodes that run, sign-extended by its last byte |
| Leb128.SignExtendEncoding | leb128/leb128_test.go:146-187 | sign extension undoes the offset the signed encoder leaves in a negative value's groups |
| Leb128.SignedRoundTrip | leb128/leb128_test.go:138-142 | decoding a signed encoding, whatever follows it, gives back the value and the encoding's length |
| Leb128.EncodeU64LowRange | leb128/leb128_test.go:20-54 | values below 128 encode as themselves; values in [128, 512) as the low group with the continuation bit, then 1, 2 or 3 |
| Leb128.EncodeU64AllOnes | leb128/leb128_test.go:57-68 | 2·128^k − 1 encodes as k bytes 0xff and a final 0x01 |
| Leb128.EncodeU64Max | leb128/leb128_test.go:57-61 | MaxUint64 encodes as nine 0xff and 0x01 |
| Leb128.EncodeS64AllOnes | leb128/leb128_test.go:189-200 | 128^k − 1 encodes as k bytes 0xff and a final 0x00 |
| Leb128.EncodeS64PowerNeg | leb128/leb128_test.go:202-213 | −128^k encodes as k bytes 0x80 and a final 0x7f |
| Leb128.UnsignedDecodingCases | leb128/leb128_test.go:70-100 | the empty buffer gives (0, 0), the stop case gives (120, 1), and twelve continuation bytes give (0, 10, overflow) |
| Leb128.EncodeS64TwoBytes | leb128/leb128_test.go:108-131 | a value in [-512, -64) or [64, 512) takes two bytes: its low group with the continuation bit, then the remaining group |
| Leb128.EncodeS64LowRange | leb128/leb128_test.go:103-187 | the exact bytes of every value in [-512, 512), band by band as the tests list them: one byte for [-64, 64), two bytes otherwise, whose second byte is 0, 1, 2, 3 for the positive bands and 127, 126, 125, 124 for the negative ones; each decodes back to the value with that length |
| Leb128.EncodeS64Extremes | leb128/leb128_test.go:189-213 | MaxInt64 and MinInt64 encode as the bytes the tests expect |
| Leb128.SignedDecodingCases | leb128/leb128_test.go:215-237 | the empty buffer gives (0, 0), and eleven 0x80 bytes give (0, 10, overflow) |
| IsolateTypes.NumType | isolate/types.go:48-53 | `NumType()` succeeds exactly for a non-reference numeric type and returns its code; otherwise it panics |
| IsolateTypes.VecType | isolate/types.go:55-60 | `VecType()` succeeds exactly for v128 |
| IsolateTypes.RefTypeOf | isolate/types.go:62-67 | `RefType()` succeeds exactly for a reference type |
| IsolateTypes.NumTypeCodes | isolate/types.go:79-85 | the numeric class is exactly i32, i64, f32 and f64 |
| IsolateTypes.VecTypeCodes | isolate/types.go:87-90 | the vector class is exactly v128 |
| IsolateTypes.HeapTypeCodes | isolate/types.go:92-131 | the abstract heap types are exactly −23..−12; a heap type is one of those or a positive index, so 0 is not one |
| IsolateTypes.ClassesDisjoint | isolate/types.go:76-131 | the type classes are pairwise disjoint, and the reference markers belong to none of them |
| IsolateTypes.RefValTypeAccessors | isolate/types.go:36-67 | a reference value type is neither numeric nor vector, and of the three accessors only `RefType()` succeeds |
| IsolateParser.ReadNSpec | isolate/parser.go:46-58 | ReadN succeeds exactly when n bytes remain and then returns and records them. Otherwise the reader is drained, the error is EOF or UnexpectedEOF at the start offset, and the offset does not move |
| IsolateParser.PeekByteSpec | isolate/parser.go:60-67 | PeekByte returns the next byte without moving; at the end it fails with EOF |
| IsolateParser.ReadByteSpec | isolate/parser.go:69-81 | ReadByte takes and records one byte and moves the offset by one; at the end it fails with EOF and nothing moves |
| IsolateParser.ReadU64Spec | isolate/parser.go:88-96 | ReadU64 consumes the decoder's bytes without recording them. It succeeds unless the decoder overflows, and moves the offset only on success |
| IsolateParser.ReadU32Spec | isolate/parser.go:83-86 | ReadU32 gives the low 32 bits of ReadU64's value |
| IsolateParser.ReadS64Spec | isolate/parser.go:103-111 | ReadS64 is the same over the signed decoder |
| IsolateParser.ReadS32Spec | isolate/parser.go:98-101 | ReadS32 gives `int32` of ReadS64's value |
| IsolateParser.LittleEndian | isolate/parser.go:118-121 | the little-endian number of k bytes is below 256^k |
| IsolateParser.ReadFloatBitsSpec | isolate/parser.go:113-139 | ReadF32 and ReadF64 succeed exactly when 4 or 8 bytes remain, and give the little-endian bits of those bytes, which are recorded |
| IsolateParser.ReadNameSpec | isolate/parser.go:141-151 | ReadName keeps the position within the input and the offset in step with it |
| IsolateParser.ReadHeapTypeSpec | isolate/parser.go:264-278 | every ReadHeapType error is reported at the start offset under the caller's label, and nothing is recorded |
| IsolateParser.ReadRefTypeSpec | isolate/parser.go:241-262 | ReadRefType keeps the offset in step with the position |
| IsolateParser.ReadValTypeSpec | isolate/parser.go:201-239 | ReadValType keeps the offset in step with the position |
| IsolateParser.ReadLimitsSpec | isolate/parser.go:280-305 | ReadLimits keeps the offset in step with the position |
| IsolateParser.ReadTableTypeSpec | isolate/parser.go:153-166 | ReadTableType keeps the offset in step with the position |
| IsolateParser.ReadMemTypeSpec | isolate/parser.go:168-174 | ReadMemType keeps the offset in step with the position |
| IsolateParser.ReadGlobalTypeSpec | isolate/parser.go:176-190 | ReadGlobalType keeps the offset in step with the position |
| IsolateParser.ReadTagTypeSpec | isolate/parser.go:192-199 | ReadTagType keeps the offset in step with the position |
| IsolateParser.ExprImmediate | isolate/parser.go:326-345 | the immediate of a constant instruction stays within the input |
| IsolateParser.InstrSpec | isolate/parser.go:315-359 | a pass of ReadExpr's loop that continues has succeeded and taken at least one byte |
| IsolateParser.ExprSpec | isolate/parser.go:313-360 | the loop stays within the input |
| IsolateParser.ReadExprSpec | isolate/parser.go:307-363 | ReadExpr records what the loop records from a fresh buffer, and on success returns exactly those bytes |
| IsolateParser.ExpectSpec | isolate/parser.go:365-375 | Expect succeeds exactly when the next bytes are the expected ones |
| IsolateParser.Parser.constructor | isolate/parser.go:22-27 | `newParser`: a reader over the input at offset 0, not recording |
| IsolateParser.Parser.StartRecording | isolate/parser.go:36-39 | recording is on, the buffer is emptied, and nothing else changes |
| IsolateParser.Parser.StopRecording | isolate/parser.go:41-44 | recording is off and the buffer is returned |
| IsolateParser.Parser.ReadN | isolate/parser.go:46-58 | performs ReadNSpec on the fields |
| IsolateParser.Parser.PeekByte | isolate/parser.go:60-67 | returns PeekByteSpec's result and changes nothing |
| IsolateParser.Parser.ReadByte | isolate/parser.go:69-81 | performs ReadByteSpec |
| IsolateParser.Parser.ReadU64 | isolate/parser.go:88-96 | performs ReadU64Spec and returns the number of bytes consumed |
| IsolateParser.Parser.ReadU32 | isolate/parser.go:83-86 | performs ReadU32Spec |
| IsolateParser.Parser.ReadS64 | isolate/parser.go:103-111 | performs ReadS64Spec |
| IsolateParser.Parser.ReadS32 | isolate/parser.go:98-101 | performs ReadS32Spec |
| IsolateParser.Parser.ReadFloatBits | isolate/parser.go:113-139 | performs ReadFloatBitsSpec |
| IsolateParser.Parser.ReadName | isolate/parser.go:141-151 | performs ReadNameSpec |
| IsolateParser.Parser.ReadHeapType | isolate/parser.go:264-278 | performs ReadHeapTypeSpec |
| IsolateParser.Parser.ReadRefType | isolate/parser.go:241-262 | performs ReadRefTypeSpec |
| IsolateParser.Parser.ReadValType | isolate/parser.go:201-239 | performs ReadValTypeSpec |
| IsolateParser.Parser.ReadLimits | isolate/parser.go:280-305 | performs ReadLimitsSpec |
| IsolateParser.Parser.ReadTableType | isolate/parser.go:153-166 | performs ReadTableTypeSpec |
| IsolateParser.Parser.ReadMemType | isolate/parser.go:168-174 | performs ReadMemTypeSpec |
| IsolateParser.Parser.ReadGlobalType | isolate/parser.go:176-190 | performs ReadGlobalTypeSpec |
| IsolateParser.Parser.ReadTagType | isolate/parser.go:192-199 | performs ReadTagTypeSpec |
| IsolateParser.Parser.ReadImmediate | isolate/parser.go:326-345 | performs ExprImmediate for the opcode |
| IsolateParser.Parser.ReadInstr | isolate/parser.go:315-359 | one pass of the loop agrees with InstrSpec |
| IsolateParser.Parser.ReadInstrBody | isolate/parser.go:320-359 | the opcode switch performs InstrSpec |
| IsolateParser.Parser.ReadExpr | isolate/parser.go:307-363 | performs ReadExprSpec; recording is off afterwards, as the deferred StopRecording leaves it |
| IsolateParser.Parser.Expect | isolate/parser.go:365-375 | performs ExpectSpec |
| IsolateParser.Parser.AssertBytesEqual | isolate/parser.go:377-387 | an error exactly when the byte strings differ in length or at some position, reported at the given offset |
| ParserProperties.OneByteDecoding | isolate/parser.go:88-111 | a byte without the continuation bit decodes on its own, unsigned and signed |
| ParserProperties.ReadNameLayout | isolate/parser.go:141-151 | a name is a u32 length and that many bytes, and only the bytes are recorded |
| ParserProperties.ReadLimitsFlags | isolate/parser.go:280-305 | min is always read; max is read iff flag bit 0 is set; bit 2 selects 64-bit addresses; the reads carry the limits' own labels |
| ParserProperties.ReadHeapTypeCases | isolate/parser.go:264-278 | a heap type is accepted exactly when the s64 does not overflow, a negative value took one byte, and the value is a heap type. Each failure has its own error, reported at the start offset |
| ParserProperties.ReadHeapTypeOneByte | isolate/parser.go:264-278 | single bytes 0x69..0x74 are the abstract heap types and 0x01..0x3f are type indices; 0x00 is refused |
| ParserProperties.ReadHeapTypeTwoByteNegative | isolate/parser.go:270-272 | funcref written in two bytes is refused as an invalid abstract heap type |
| ParserProperties.ReadRefTypeMarker | isolate/parser.go:241-262 | a marker is taken only when it is 0x64 or 0x63; the type is nullable iff the marker is 0x63, so it is non-nullable without a marker |
| ParserProperties.ReadValTypeRawByte | isolate/parser.go:201-239 | the unsigned byte is the type code: 0 is an invalid value type, and any other byte is a nullable reference to that type index |
| ParserProperties.ReadValTypeNeverNumeric | isolate/parser.go:209-237 | no value type read is numeric or a vector: 0x7f reads as a reference to type 127 |
| ParserProperties.ReadGlobalTypeLayout | isolate/parser.go:176-190 | a global type is the value-type byte and a mutability byte, and only 0x01 is mutable |
| ParserProperties.ReadTagTypeLayout | isolate/parser.go:192-199 | a tag type is an attribute byte, recorded and ignored, then a u32 type index |
| ParserProperties.InstrStepTracks | isolate/parser.go:315-359 | a pass that continues leaves the offset in step with the position and records its opcode first; a pass that stops successfully took an `end` at depth 0; an unknown opcode stops the loop with an error at the start offset |
| ParserProperties.ExprUnfold | isolate/parser.go:313-360 | the loop is one pass followed by the rest of the loop |
| ParserProperties.ExprSuccess | isolate/parser.go:313-363 | a successful loop ends on an `end` byte, taken and recorded last, and the offset has moved by exactly the bytes taken |
| ParserProperties.ExprUnknownOpcode | isolate/parser.go:357-358 | an unknown opcode fails the expression at the opcode's own offset |
| ParserProperties.ExprEndAtDepthZero | isolate/parser.go:311-325 | the depth never rises, so at depth 0 the first `end` finishes the expression |
| ParserProperties.ExprSkipsIntegerImmediate | isolate/parser.go:326-335 | the opcodes of `i32.const 128; i32.add; end` are recorded, but the LEB128 immediate is not |
| ParserProperties.ExprRecordsFloatImmediate | isolate/parser.go:336-345 | the four bytes of an `f32.const` immediate are recorded with the opcodes |
| ParserProperties.ExprRejectsRefNull | isolate/parser.go:355-358 | `ref.null` is not an accepted opcode |
| ParserProperties.ExpectOutcome | isolate/parser.go:365-375 | Expect fails with ReadN's error when the bytes run out, and with a mismatch at the start offset when they differ |
| IsolateDriver.ImportDescSpec | isolate/isolate.go:57-84 | the description after an import's kind stays within the input |
| IsolateDriver.ImportSpec | isolate/isolate.go:44-84 | one import entry stays within the input |
| IsolateDriver.ImportsSpec | isolate/isolate.go:43-85 | on success the walk yields one kind byte per entry |
| IsolateDriver.FunctionImports | isolate/isolate.go:58-59 | the count of function imports is at most the number of entries |
| IsolateDriver.SectionSpec | isolate/isolate.go:25-103 | a pass of the section loop that continues has taken bytes, and the count of functions never falls |
| IsolateDriver.SectionsSpec | isolate/isolate.go:25-103 | the section loop stays within the input |
| IsolateDriver.ReadImportDesc | isolate/isolate.go:57-84 | the kind switch performs ImportDescSpec on the cursor |
| IsolateDriver.ReadImport | isolate/isolate.go:44-84 | one import entry performs ImportSpec |
| IsolateDriver.FunctionImportsSnoc | isolate/isolate.go:58-59 | one entry more adds one to the count exactly when its kind is 0x00 |
| IsolateDriver.ReadImportEntry | isolate/isolate.go:44-84 | one pass of the import loop: the walk from here on is the walk after this entry, with its kind appended |
| IsolateDriver.ReadImports | isolate/isolate.go:39-85 | the import loop performs ImportsSpec and counts the function imports |
| IsolateDriver.ReadSection | isolate/isolate.go:26-102 | one pass of the section loop performs SectionSpec |
| IsolateDriver.Isolate | isolate/isolate.go:13-108 | `Isolate` returns the error or the function-import count of IsolateSpec |
| DriverProperties.IsolatePreamble | isolate/isolate.go:16-21 | nothing is walked unless the input starts with the magic number and version 1; which of the two was wrong, and where, is reported |
| DriverProperties.SectionsAtEnd | isolate/isolate.go:26-28 | at the end of the input the walk stops without an error |
| DriverProperties.SectionsConsumeAll | isolate/isolate.go:25-103 | a successful walk consumes the whole input and never lowers the count |
| DriverProperties.SectionSkip | isolate/isolate.go:97-101 | a section other than the import section is skipped by exactly its id, its size and `size` bytes |
| DriverProperties.ImportsKeepKinds | isolate/isolate.go:43-85 | the entry walk keeps the kinds read before it in front |
| DriverProperties.ImportsStep | isolate/isolate.go:43-85 | a failing entry stops the walk with its error; a good one adds its kind and continues with one entry fewer |
| DriverProperties.FunctionImportsCount | isolate/isolate.go:58-59 | the count of function imports is the number of kind bytes 0x00 |
| DriverProperties.ImportSectionCount | isolate/isolate.go:38-85 | an import section adds its function imports to the count |
| DriverProperties.ImportDescKinds | isolate/isolate.go:57-84 | a kind above 0x04 is accepted with nothing after it; kind 0x00 reads a u32 type index |
| DriverProperties.OneFunctionImportEntry | isolate/isolate.go:44-63 | a concrete entry: module "m", name "f", kind 0x00, type 0 |
| DriverProperties.OneFunctionImport | isolate/isolate.go:13-108 | `Isolate` counts one imported function in a module with that one import |
| ByteStream.Stream.constructor | parser/stream.go:7-11 | a stream over the bytes at position 0 |
| ByteStream.Stream.Len | parser/stream.go:15-17 | `_len` is the length of the bytes |
| ByteStream.Stream.Eos | parser/stream.go:23-25 | `_eos` holds exactly when the position is the length |
| ByteStream.Stream.Reset | parser/stream.go:27-29 | `_reset` sets the position to any value and changes nothing else |
| ByteStream.Stream.Check | parser/stream.go:31-35 | `_check` panics with EOS exactly when n more bytes would run past the end |
| ByteStream.Stream.Skip | parser/stream.go:37-44 | `_skip` advances by exactly n, or panics with EOS without moving when n is negative or too large |
| ByteStream.Stream.Read | parser/stream.go:46-48 | `_read` is the byte at the position, with only Go's own index check |
| ByteStream.Stream.Peek | parser/stream.go:50-56 | `_peek` gives (0, false) at the end, and otherwise the byte at the position and true |
| ByteStream.Stream.Get | parser/stream.go:58-63 | `_get` takes the byte `_peek` sees and steps forward, panics with EOS at the end, and panics on Go's index check before the start |
| ByteStream.Stream.GetString | parser/stream.go:65-69 | `_get_string` takes the next n bytes. It panics with EOS without moving when they are not there, and panics on Go's index check when the position is negative |
| ByteStream.ValidPeek | parser/stream.go:50-56 | inside the bytes or at their end, `_peek` never panics, and it reports a byte exactly when the stream is not at its end |
| LiveUses.Single | src/uses.rs:19-73 | `single_…` lists the one index under its own kind and nothing else |
| LiveUses.EmptyMembers | src/uses.rs:7-16 | a list has no elements exactly when it is empty |
| LiveUses.AscendingUnique | src/uses.rs:97-101 | an ascending list is determined by its elements |
| LiveUses.Insert | src/uses.rs:97-101 | inserting into an ascending list keeps it ascending and adds exactly the element |
| LiveUses.Normalized | src/uses.rs:97-101 | the sorted, deduplicated form is ascending and has the same elements |
| LiveUses.Union | src/uses.rs:86-95 | the merged list of a kind is ascending and holds the indices of both sides |
| LiveUses.MergedListsOf | src/uses.rs:86-95 | `merge` treats each of the eight kinds by itself |
| LiveUses.Merged | src/uses.rs:86-95 | after `merge` every list is ascending and holds exactly the indices of both sides |
| LiveUses.Sort | src/uses.rs:99 | `sort` gives a non-decreasing permutation |
| LiveUses.Dedup | src/uses.rs:100 | `dedup` keeps the elements, leaves no two equal neighbours, and on a sorted list gives an ascending one |
| LiveUses.AppendAndDedup | src/uses.rs:97-101 | `append_and_dedup` gives the ascending list of the elements of both lists |
| LiveUses.Merge | src/uses.rs:86-95 | the eight `append_and_dedup` calls compute Merged |
| LiveUses.All | src/uses.rs:75-84 | `all` folds `merge` over its arguments from the default value |
| LiveUses.MergeEach | src/uses.rs:79-82 | the `for … { res.merge(…) }` loop extends the fold |
| LiveUses.AllUnion | src/uses.rs:75-84 | every list of `all` is ascending and holds exactly the indices of that kind in any argument |
| LiveUses.UsesEqual | src/uses.rs:7-16 | two values are equal when each of their eight lists is |
| LiveUses.NormalEqual | src/uses.rs:86-101 | two values with ascending lists are equal when their lists have the same elements |
| LiveUses.MergeCommutes | src/uses.rs:86-95 | merging is symmetric |
| LiveUses.MergeDefault | src/uses.rs:86-95 | merging with the default value is symmetric, and gives back a value whose lists are already ascending |
| LiveUses.MergeIdempotent | src/uses.rs:86-95 | merging the same value twice changes nothing the second time |
| LiveUses.MergeAssociates | src/uses.rs:86-95 | the grouping of merges does not matter |
| OperatorUses.ValTypeUsesList | src/uses.rs:159-164 | the uses of each value type, in order |
| OperatorUses.FieldTypeUsesList | src/uses.rs:136-145 | the uses of each field type, in order |
| OperatorUses.CatchUsesList | src/uses.rs:192-199 | the uses of each catch clause, in order |
| OperatorUses.AllSnoc | src/uses.rs:75-84 | merging one more value into a fold is one more step of the fold |
| OperatorUses.MergeValTypes | src/uses.rs:113-122 | one `for vt in …` loop of `get_functype_uses` extends the fold over the value types |
| OperatorUses.GetFuncTypeUses | src/uses.rs:113-122 | `get_functype_uses` folds the uses of the parameters, then of the results |
| OperatorUses.GetStructTypeUses | src/uses.rs:128-134 | `get_structtype_uses` folds the uses of the fields |
| OperatorUses.GetTypeUses | src/uses.rs:104-111 | `get_type_uses` dispatches on the composite type |
| OperatorUses.Pair | src/uses.rs:215-222 | the value with a type list and one other list |
| OperatorUses.GetTryTableUses | src/uses.rs:841-848 | the `try_table` arm merges the block type's uses and then each catch clause's |
| OperatorUses.GetInstrUses | src/uses.rs:201-1028 | `get_instr_uses` computes the uses of each operator, including the loop of the `try_table` arm |
| UsesProperties.SingleOnly | src/uses.rs:19-73 | a single-index value lists its index under its own kind only |
| UsesProperties.AllOfNothing | src/uses.rs:75-84 | `all` of nothing is the empty value |
| UsesProperties.ValTypesUnion | src/uses.rs:159-164 | value types keep alive only types: the indices their references name |
| UsesProperties.FieldTypesUnion | src/uses.rs:136-145 | field types keep alive only types; packed i8 and i16 fields keep nothing |
| UsesProperties.FuncTypeUsesTypes | src/uses.rs:113-122 | a function type keeps alive exactly the types its parameters and results name, as an ascending list, and nothing of any other kind |
| UsesProperties.StructTypeUsesTypes | src/uses.rs:128-134 | a struct type keeps alive exactly the types its fields name |
| UsesProperties.TypeUsesOnlyTypes | src/uses.rs:104-157 | a type definition keeps alive only types, an array type at most one |
| UsesProperties.HeapTypeUsesIff | src/uses.rs:170-178 | a heap type keeps a type alive exactly when it is concrete, and then only that type |
| UsesProperties.BlockTypeUsesIff | src/uses.rs:180-186 | a block type keeps a type alive exactly when it names a function type or a concrete reference; the empty block type keeps nothing |
| UsesProperties.TypeOnlyUses | src/uses.rs:201-1028 | the operators that take only a block type, a heap type, a value type or a type index keep alive nothing but types |
| UsesProperties.BrOnCastOnlyTypes | src/uses.rs:461-476 | `br_on_cast` and `br_on_cast_fail` keep alive nothing but types |
| UsesProperties.TypeOrTagOnlyUses | src/uses.rs:201-1028 | the operators that take only a block or heap type, or a tag, keep alive only types and tags |
| UsesProperties.InstrFuncUses | src/uses.rs:214-523 | exactly `call`, `return_call` and `ref.func` keep a function alive, and only that one |
| UsesProperties.CallIndirectUses | src/uses.rs:215-531 | `call_indirect` and `return_call_indirect` keep their type and their table alive |
| UsesProperties.InstrDataUses | src/uses.rs:412-495 | exactly `array.new_data`, `array.init_data`, `memory.init` and `data.drop` keep a data segment alive, and only the one they name |
| UsesProperties.InstrElemUses | src/uses.rs:420-506 | exactly `array.new_elem`, `array.init_elem`, `table.init` and `elem.drop` keep an element segment alive, and only the one they name |
| UsesProperties.BrOnCastUses | src/uses.rs:461-476 | `br_on_cast` keeps alive the types its two reference types name, sorted, and nothing else |
| UsesProperties.CatchesUnion | src/uses.rs:192-199 | catch clauses keep alive only tags: those of `catch` and `catch_ref` |
| UsesProperties.TryTableUses | src/uses.rs:841-848 | `try_table` keeps alive what its block type names and the tag of every catch clause that names one, and nothing of any other kind |
| UsesProperties.NoIndexUses | src/uses.rs:203-213 | an operator without a module index keeps nothing alive |
| UsesProperties.CopyListsUnsorted | src/uses.rs:434-500 | `get_instr_uses` does not sort: `array.copy` lists its two types in operand order, and `memory.copy` can list one memory twice |
| UsesProperties.CopyListsMergedSorted | src/uses.rs:86-101 | merging puts the operands back in ascending order |
| Relocations.Key | src/relocation.rs:6-16 | the `Relocation` of an index keeps that index |
| Relocations.KeyRoundTrip | src/relocation.rs:6-16 | a `Relocation` is exactly a kind and an index |
| Relocations.Lookup | src/relocation.rs:46-118 | a lookup returns the table's entry, or the index itself when there is none |
| Relocations.NamedLookups | src/relocation.rs:46-118 | each of the eight lookups of the re-encoder reads only its own kind's entry |
| Relocations.LookupIndependent | src/relocation.rs:46-118 | an entry for one kind and index never changes the lookup of any other |
| Relocations.EmptyTableIsIdentity | src/relocation.rs:46-118 | an empty table renumbers nothing |
| WasmModule.DefinedFuncsSpec | src/main.rs:218-243 | code-section entry i gets function type `numImported + i`; the collection panics when that is out of range |
| WasmModule.CollectDefinedFuncs | src/main.rs:218-243 | the counter that starts at the import count and steps before every entry but the first computes DefinedFuncsSpec |
| ItemUses.InstrUsesList | src/main.rs:326-328 | the uses of each instruction of a body, in order |
| ItemUses.LocalUsesList | src/main.rs:323-325 | the uses of each local's type |
| ItemUses.FuncUsesList | src/main.rs:382-386 | one `single_func` per function of an element segment |
| ItemUses.SingleFold | src/main.rs:311-403 | starting from `single_…` is starting the fold from the default value |
| ItemUses.SelfUse | src/main.rs:311-403 | every item that does not panic uses itself |
| ItemUses.ItemOkInRange | src/main.rs:311-403 | an item other than a memory is processed without a panic only below the count of its kind; memories never panic |
| ItemUses.MergeInstrs | src/main.rs:326-328 | the `for instr in …` loop extends the fold over the instructions |
| ItemUses.SingleAnd | src/main.rs:312-316 | `single_…` then one merge |
| ItemUses.FuncItemUses | src/main.rs:317-331 | a function uses itself and its type. A defined function also uses its code entry's type, its locals' types and its instructions' uses |
| ItemUses.TableItemUses | src/main.rs:332-342 | a table uses itself and its element type, plus the init expression of a defined table |
| ItemUses.GlobalItemUses | src/main.rs:343-351 | a global uses itself and its value type, plus the init expression of a defined global |
| ItemUses.DataItemUses | src/main.rs:353-367 | a data segment uses itself; an active one also uses its memory and its offset expression |
| ItemUses.ElemItemUses | src/main.rs:368-397 | an element segment uses itself. An active one also uses its table (0 when absent) and its offset, and it uses its functions, or its reference type and expressions |
| ItemUses.ComputeItemUses | src/main.rs:311-403 | the `match work` computes ItemUsesOf |
| Worklist.KindOrderHasAll | src/main.rs:265-304 | the per-kind loops visit every kind |
| Worklist.Requested | src/main.rs:265-304 | one request loop queues exactly the requested indices below the kind's count |
| Worklist.RequestedKinds | src/main.rs:265-304 | the request loops of several kinds queue exactly their in-range requests |
| Worklist.InitialQueueMembers | src/main.rs:265-304 | the initial queue holds exactly the in-range requested items |
| Worklist.RequestKind | src/main.rs:265-268 | one request loop appends Requested |
| Worklist.BuildInitialQueue | src/main.rs:263-304 | the request loops build InitialQueue |
| Worklist.Unseen | src/main.rs:407-445 | one enqueue loop adds exactly the found indices that are not yet live |
| Worklist.UnseenKinds | src/main.rs:407-445 | the enqueue loops of several kinds add exactly the items found that are not yet live |
| Worklist.NewItemsMembers | src/main.rs:406-446 | a step enqueues exactly the items it found that were not live before it |
| Worklist.EnqueueKind | src/main.rs:407-410 | one enqueue loop appends Unseen |
| Worklist.Enqueue | src/main.rs:406-446 | the eight enqueue loops append NewItems |
| Worklist.AscendingLength | src/uses.rs:7-16 | an ascending list of u32 has at most 2^32 entries |
| Worklist.MergeGrows | src/main.rs:406-448 | a step never shrinks the live set; it grows it when it finds something new, and otherwise leaves it as it was |
| Worklist.InvStep | src/main.rs:308-449 | one step of the loop keeps its invariant |
| Worklist.JustifiedIncluded | src/main.rs:308-449 | every processed item is in every closed value that holds the requests |
| Worklist.InvHead | src/main.rs:308-311 | the head of the queue is a request, or used by an item already processed, and the processed items so far are each requested or used by an earlier one |
| Worklist.InvDone | src/main.rs:308-449 | with the queue empty, the live set holds the requests, is closed under uses, and is included in every such set |
| Worklist.ReachedPanicNoClosure | src/main.rs:308-404 | an item reached from the requests whose uses panic leaves no value that holds the requests and is closed under uses |
| Worklist.Liveness | src/main.rs:263-449 | on success the live set is ascending, holds the in-range requests, is closed under uses, and is the least such set; on a panic the panicking item is reached from the requests through processed items, each requested or used by an earlier one that does not panic, so no such set exists |
| Renumber.Position | src/main.rs:885-890 | `position` finds the first occurrence, exactly when there is one |
| Renumber.GetNewIndex | src/main.rs:885-890 | `get_new_index` is the position as a u32, and panics when the index is absent |
| Renumber.RenumberKind | src/main.rs:459-462 | one kind's loop enters every live index under its own kind |
| Renumber.BuildRelocations | src/main.rs:455-490 | the eight loops build RelocationTable |
| Renumber.RenumberListHas | src/main.rs:459-462 | one loop adds exactly its kind's live indices, at their positions, and keeps the other entries |
| Renumber.RenumberKindsHas | src/main.rs:455-490 | the loops of several kinds have entries exactly for the live indices of those kinds |
| Renumber.RelocationTableHas | src/main.rs:455-490 | the table has an entry exactly for each live index, and the entry is its position in its kind's live list |
| Renumber.AscendingPosition | src/main.rs:885-890 | in an ascending list, entry n is at position n |
| Renumber.RenumberDense | src/main.rs:455-490 | the n-th live index of a kind is renumbered to n |
| Renumber.RenumberBelowLength | src/main.rs:455-490 | every live index is renumbered below the number of live indices of its kind |
| Renumber.RenumberKeepsOrder | src/main.rs:455-490 | the renumbering keeps the order of the live indices of a kind |
| Sections.RelocatedRangeHas | src/main.rs:509-514 | the relocated indices of a range are exactly those in it with an entry |
| Sections.LiveBelow | src/main.rs:533-585 | the live indices below n, in ascending order: exactly those below n that are live |
| Sections.EmitKept | src/main.rs:590-598 | the `for (i, x) in … enumerate()` loop keeps x when index `base + i` has an entry (the same loop shape serves the table, global, element and data sections) |
| Sections.KeptFromLive | src/main.rs:590-763 | with the table built from the live lists, selecting by entry and selecting by liveness keep the same entries |
| Sections.KeptLiveCount | src/main.rs:746-763 | selecting by liveness keeps as many entries as there are live indices in the range |
| Sections.LiveBelowPrefix | src/main.rs:455-490 | for an ascending list, the live indices below n are a prefix of it, and the next entry is at least n |
| Sections.LiveBelowRenumbered | src/main.rs:455-490 | the t-th live index below n is renumbered to t |
| Sections.LiveBelowEverything | src/main.rs:455-490 | when every live index is below n, all of them are kept |
| Sections.EmitGroup | src/main.rs:508-520 | one rec group: the kept subtypes of its range become one subtype, a `rec` group, or nothing, and the running index steps over the whole group |
| Sections.EmitTypeSection | src/main.rs:506-521 | the loop over the rec groups computes TypeSectionSpec |
| Sections.TypeSectionKeepsRelocated | src/main.rs:506-521 | the type section holds every relocated type index exactly once, in ascending order |
| Sections.GroupEntryFlatten | src/main.rs:515-519 | a group's entry holds exactly its kept subtypes, in at most one entry |
| Sections.TypeEntriesNonEmpty | src/main.rs:515-519 | an empty `rec` entry comes only from an explicit rec group |
| Sections.ReencodeKeepsKind | src/main.rs:534-584 | re-encoding an import keeps its kind |
| Sections.EmitImportSection | src/main.rs:525-589 | the loop with its five counters computes ImportSectionSpec |
| Sections.ImportsKeptCount | src/main.rs:525-589 | the kept imports of a kind are exactly as many as the live indices below that kind's import count |
| Sections.ImportsLandInOrder | src/main.rs:525-589 | the t-th kept import of a kind is renumbered to t |
| Sections.EmitFunctionSection | src/main.rs:590-598 | the loop computes FunctionSectionSpec, panicking at an index past the function types |
| Sections.PanicPersists | src/main.rs:590-598 | once the loop panics, the section panics |
| Sections.EmitCodeSection | src/main.rs:746-763 | the loop computes CodeSectionSpec |
| Sections.FunctionMatchesCodePrefix | src/main.rs:590-763 | for the first n functions, the function section lists the relocated types of the functions the code section keeps |
| Sections.FunctionMatchesCode | src/main.rs:590-763 | the function and code sections keep the same functions in the same order; entry t of the function section is the relocated type of code entry t |
| Sections.EmitTableSection | src/main.rs:600-619 | the loop keeps the defined tables with an entry |
| Sections.EmitGlobalSection | src/main.rs:630-642 | the loop keeps the defined globals with an entry |
| Sections.EmitMemorySection | src/main.rs:620-629 | the loop keeps the defined memories with an entry |
| Sections.EmitTagSection | src/main.rs:795-804 | the loop keeps the defined tags with an entry |
| Sections.EmitElementSection | src/main.rs:719-745 | the loop keeps the element segments with an entry |
| Sections.EmitDataSection | src/main.rs:764-789 | the loop keeps the data segments with an entry |
| Sections.DataCountMatches | src/main.rs:764-794 | after liveness, the data count equals the number of segments the data section keeps |
| Sections.EmitKeptExports | src/main.rs:645-660 | the loop computes KeptExports |
| Sections.EmitIsolatedExports | src/main.rs:662-706 | one `isolated_…` loop appends IsolatedExports |
| Sections.EmitExportSection | src/main.rs:643-709 | the export section is the kept exports, then the `isolated_…` exports of functions, tables, globals, memories and tags |
| Sections.KeptExportsExactly | src/main.rs:645-660 | an export survives exactly when its target has an entry, and then it points at the new index under its old name |
| Sections.IsolatedExportsExactly | src/main.rs:662-706 | in the export section, an `isolated_…` export exists exactly for each requested index with an entry, points at its new index, and its name gives back the index; the export section itself is written only when the input had one (`ModuleOutput.IsolatedFuncExportWritten`) |
| Sections.IsolatedNamesDistinct | src/main.rs:662-706 | two `isolated_…` names of one kind differ unless they are for the same index |
| Sections.StartSection | src/main.rs:710-718 | the start section exists exactly when there is a start function with an entry, and names its new index |
| ModuleOutput.RecordSections | src/main.rs:105-253 | the payload loop records one section per section payload, in input order, keeps each custom section but `name` as raw bytes with id 0, and records nothing for other payloads |
| ModuleOutput.SectionListConcat | src/main.rs:107-253 | the section list of a concatenation of payloads is the concatenation of their lists: order is kept |
| ModuleOutput.SectionListMembers | src/main.rs:107-253 | a section is in the list exactly when its payload occurs; raw bytes with id 0 are in it exactly when a custom section other than `name` carries them |
| ModuleOutput.NameSectionDropped | src/main.rs:245-249 | a custom section named `name` is never passed through |
| ModuleOutput.EmitModule | src/main.rs:500-804 | the output loop writes one section per recorded section, in order, each rebuilt from the live items, and panics where writing the function section panics |
| ModuleOutput.OutputPanicPersists | src/main.rs:500-804 | once writing a prefix of the list panics, writing the whole list panics |
| ModuleOutput.WrittenSource | src/main.rs:500-804 | a recorded section writes exactly one section of its own kind, except a start section whose function has no entry, which writes none |
| ModuleOutput.OutputKeepsOrder | src/main.rs:500-804 | the written sections follow the recorded ones in order, one for one, dropping only a start section without an entry |
| ModuleOutput.OutputPanics | src/main.rs:590-598 | writing panics exactly when the input had a function section and writing that section panics |
| ModuleOutput.OutputHasSection | src/main.rs:500-804 | a section of some kind is written exactly when the input had it (and, for the start section, its function has an entry); a custom section is written back exactly when it was recorded |
| ModuleOutput.SourcesOfMembers | src/main.rs:500-804 | a written list contains a section from a given recorded one exactly when one of its entries comes from it |
| ModuleOutput.WritingSectionsMembers | src/main.rs:710-718 | the sections that write something are the recorded ones but a start section without an entry |
| ModuleOutput.WrittenExports | src/main.rs:643-708 | a recorded section writes an export section exactly when it is the export section, and writes the kept and `isolated_…` exports there |
| ModuleOutput.ExportSectionWritten | src/main.rs:643-708 | an export section is written exactly when the input had one, and every written export section holds the kept and `isolated_…` exports |
| ModuleOutput.IsolatedFuncExportWritten | src/main.rs:643-708 | the `isolated_func_<idx>` export of a requested function with an entry is written exactly when the input had an export section |
| Sections.StartSurvives | src/main.rs:710-718 | with the table built from the live lists, the start section survives exactly when the start function is live, and names its position among the live functions |
| Strings.Split | parser/gen/gen.go:728 | `strings.Split` gives at least one part |
| Strings.SplitFree | parser/gen/gen.go:728 | no part of a split holds the separator |
| Strings.SplitJoin | parser/gen/gen.go:728-734 | splitting gives parts free of the separator that join back to the input |
| Strings.JoinSplit | parser/gen/ocaml/types.go:173-179 | joining parts free of the separator and splitting again gives the parts back |
| Strings.JoinLength | parser/gen/ocaml/types.go:96-102 | a join is as long as its parts plus one separator between each pair |
| OcamlTypes.KindOf | parser/gen/ocaml/types.go:47-58 | `Kind()` gives each kind of type its own constant |
| OcamlTypes.ShowChildren | parser/gen/ocaml/types.go:97-100 | the `strs[i] = child.String()` loop fills a fresh slice with the children's texts |
| OcamlTypes.TypeString | parser/gen/ocaml/types.go:65-206 | `String()` on any type computes Show |
| OcamlTypes.RecordString | parser/gen/ocaml/types.go:152-162 | a record prints as "{", its fields `name : type` separated by "; ", then "}" |
| OcamlTypes.TypeDefIgnoresBody | parser/gen/ocaml/types.go:185-192 | a type definition prints as its name, whatever its body |
| OcamlTypes.IdentifierRoundTrip | parser/gen/ocaml/types.go:168-179 | an identifier prints as its modules and name joined by "."; when none contains a dot, splitting at the dots gives them back |
| OcamlTypes.TupleLength | parser/gen/ocaml/types.go:94-102 | a tuple's text is its elements' texts plus three characters per " * " |
| OcamlTypes.GetTypeAfterApplyingArgs | parser/gen/ocaml/types.go:86-92 | the loop computes AfterArgs |
| OcamlTypes.GetArgType | parser/gen/ocaml/types.go:78-84 | the loop computes ArgType |
| OcamlTypes.AfterArgsNotFunc | parser/gen/ocaml/types.go:86-92 | a type that is not a function takes no arguments |
| OcamlTypes.AfterArgsCompose | parser/gen/ocaml/types.go:86-92 | applying a arguments and then b more is applying a + b |
| OcamlTypes.ArgTypeStep | parser/gen/ocaml/types.go:78-92 | argument i exists exactly when the type after i arguments is a function, whose result is the type after i + 1 |
| OcamlTypes.AfterArgsArity | parser/gen/ocaml/types.go:86-92 | applying arguments succeeds exactly up to the arity, and what is left then is not a function |
| OcamlTypes.NewModule | parser/gen/ocaml/types.go:25-39 | a new module is top-level and predefines exactly bool, string, int, int32, int64, list and option; the integer types map to OInt, OInt32 and OInt64 |
| OcamlTypes.Namespace | parser/gen/ocaml/types.go:41-43 | the namespace is the parent modules, then the module |
| OcamlTypes.TopLevelIdentifier | parser/gen/ocaml/types.go:25-179 | a name in a new module's namespace prints as `module.name` |
| GenNames.Sanitise | parser/gen/gen.go:725 | `reUnsafeChar.ReplaceAllString(s, "_")` replaces exactly the unsafe characters by '_' and keeps the length |
| GenNames.SanitiseKeepsSafe | parser/gen/gen.go:725 | safe text is left alone |
| GenNames.SanitiseIdempotent | parser/gen/gen.go:725 | sanitising twice is sanitising once |
| GenNames.Snake2Camel | parser/gen/gen.go:727-735 | `snake2camel` computes the character scan that drops '_' and capitalises each part's first character |
| GenNames.CamelOfParts | parser/gen/gen.go:727-735 | that scan of '_'-joined parts is the concatenation of the capitalised parts |
| GenNames.CamelNoUnderscore | parser/gen/gen.go:727-735 | `snake2camel` leaves no '_' |
| GenNames.CamelStartsUpper | parser/gen/gen.go:727-735 | a non-empty result starts upper-cased |
| GenNames.Snake2CamelIdempotent | parser/gen/gen.go:727-735 | applying `snake2camel` twice is applying it once |
| GenNames.ModuleParts | parser/gen/gen.go:739-741 | each module of the path becomes its sanitised camel form |
| GenNames.ModulePartsOf | parser/gen/gen.go:737-757 | the loop over the module path computes ModuleParts |
| GenNames.CamelNameOf | parser/gen/gen.go:737-744 | `camelName` computes CamelName |
| GenNames.VarNameOf | parser/gen/gen.go:746-757 | `varName` computes VarName |
| GenNames.CamelNameSafe | parser/gen/gen.go:737-744 | every character of a camel name is a letter, a digit or '_' |
| GenNames.VarNameIsCamelName | parser/gen/gen.go:737-757 | `varName` equals `camelName` for a non-empty path, and adds a leading '_' for an empty one |
| GenNames.FieldName | parser/gen/gen.go:783-785 | `fieldName` is the sanitised name |
| GenNames.FuncName | parser/gen/gen.go:759-765 | `funcName` is safe and starts with the camel name |
| GenNames.FuncNameArity | parser/gen/gen.go:759-765 | two arities give the same function name exactly when they are equal or both negative |
| GenNames.TypeName | parser/gen/gen.go:767-769 | a type name is safe and starts with 'O' |
| GenNames.VariantName | parser/gen/gen.go:771-773 | a variant name is safe and starts with '_' |
| GenNames.VariantKindName | parser/gen/gen.go:775-777 | a variant-kind name is safe and starts with 'K' |
| GenNames.VariantTypeName | parser/gen/gen.go:779-781 | a variant-type name is safe and starts with 'O' |
| GenNames.TypeParamName | parser/gen/gen.go:787-789 | a type-parameter name is 'T' and the sanitised name |
| GenNames.VariantNamesVersusTypeNames | parser/gen/gen.go:767-781 | a variant's type name is the type name of `Type_Variant`, so the two can collide; a variant constructor or kind name never equals a type name |
| GenNames.Generator.constructor | parser/gen/gen.go:91 | the counter starts at 0 and the registry is empty |
| GenNames.Generator.ResetTmp | parser/gen/gen.go:623 | the counter goes back to 0 and the registry is kept |
| GenNames.Generator.TmpVar | parser/gen/gen.go:1372-1375 | `tmpVar` advances the counter and names the temporary after its new value |
| GenNames.Generator.TrackUnpack | parser/gen/gen.go:1434-1450 | `trackUnpack` records the unpacker unless one of its name is already recorded, returns its name, and keeps the names in the registry unique |
| GenNames.TmpNamesDistinct | parser/gen/gen.go:1372-1375 | different counter values give different temporary names |

## Left out

- The LEB128 implementation file is not part of this model. The encoders and decoders are
  defined to satisfy every assertion in `leb128/leb128_test.go`. Beyond that, the model makes
  two choices:
  - a reader that ends inside a run returns the groups read so far, with no error and no sign
    extension;
  - values accumulate modulo 2^64.
- Reader errors other than end of input (the tests' `errorReader`) are not modelled. Input is a
  byte string, so the Go driver's "any other error from the section-id read" branch cannot
  happen in the model.
- Floating point: `ReadF32` and `ReadF64` return the bit pattern; the conversion to a float is
  not modelled.
- Error messages are modelled as structured values: a label, an offset and a cause. Go's
  formatted text is not. The text printed by `Isolate` (`section with ID …`, `wow! …`) is not
  modelled.
- IsolateDriver.Isolate: the Go driver ignores its list of requested functions, and so does
  the model.
- `ReadValType`'s reference-marker arm cannot be reached, because the byte is unsigned. It is
  modelled as written and shown by `ParserProperties.ReadValTypeNeverNumeric`.
- The `todo!()` arms of `src/uses.rs` are not modelled:
  - continuation composite types;
  - heap types that are not module indices.
- The Rust operators are grouped by the shape of their immediates (no index, a global, a memory
  argument, a memory, a type, a table, a heap type). Operators that name several indices are
  modelled one by one.
- `get_constexpr_uses` is not part of this model. A constant expression's uses are taken to be
  the fold of its operators' uses. Its `?` error paths and those of the element function
  indices are left out.
- Parsing with `wasmparser` and re-encoding with `wasm_encoder` are not modelled:
  - table, memory, global and tag types, constant expressions and function bodies pass through
    the output pass unchanged;
  - only the entries kept and the indices written are modelled;
  - the payload loop of `main` is represented by the collected module, and by the list of
    sections it records (`ModuleOutput`); the payloads are given as their kinds and, for a
    custom section, its name and bytes, so how the loop fills the module's fields from them is
    not tied to that list.
- The report printed to stderr at the end of `main` (src/main.rs:818-880), file I/O and
  argument parsing are not modelled.
- LiveUses.Merge: the in-place `merge` of `Uses` is modelled on values; it returns the new
  value. Aliasing of the vectors plays no part in it.
- Integer widths:
  - `num_imported + i as u32` and the other u32 counters are modelled as unbounded naturals;
    a module with 2^32 items is out of scope;
  - `len() as u32` and `position(…) as u32` are modelled with `Base.TruncU32`.
- Two quirks are modelled as written, not corrected:
  - a processed item's own uses hold its own index, and `all_uses` is merged only after the
    push loops (src/main.rs:404-448), so an item that no earlier item used queues itself again
    the first time it is processed: a requested item is processed at least twice, and each
    repeated request adds another pass;
  - active element and data segments keep their table and memory indices unrelocated.
- Go strings are modelled as sequences of characters. `strings.ToUpper` of the first byte is
  modelled as ASCII upper-casing of the first character; the two agree on ASCII identifiers.
- `ocaml.TypeVar` is not part of this model; type-parameter names take a string.
- OcamlTypes.Namespace: Go's `append` to the parent-module slice may share its backing array;
  the model uses values.
- OcamlTypes.GetArgType and OcamlTypes.GetTypeAfterApplyingArgs: a failed type assertion
  panics in Go; the model returns `None` instead.
- The rest of `parser/gen/gen.go` is not modelled: the tree-sitter and LSP driven parsing, and
  the code writers. Nor are `ParseType` and the LSP helpers of `parser/gen/ocaml/`.

# A verified model of the core of the Polywrap JavaScript client

This project models, in Dafny, the pieces of the Polywrap JavaScript client that carry
its own logic rather than glue:

- **the MessagePack reader and sizer of the AssemblyScript runtime.** `ReadDecoder`
  reads typed values from a byte buffer through a cursor. `WriteSizer` computes how many
  bytes a value will take before it is written.
- **the host functions a wrapper module imports.** These are `__wrap_subinvoke` and its
  siblings, which move invocations, results and errors between the host and the module's
  linear memory.
- **`extractExecuteOptions`.** It turns a parsed GraphQL query document into the module,
  method, input and wanted results of one invocation.
- **the workflow `JobRunner`.** It runs the steps of a job in order and resolves `$job.step.data`
  references against earlier outputs.
- **the `BigInt` class of the Uniswap v2 wrapper.** It is a signed decimal big integer with
  base-10^9 digits, held in 32-bit cells.
- **the HTTP plugin's conversions** between its Request/Response shapes and the HTTP
  library's config/response.
- **`sanitizeInterfaceImplementations` and `sanitizePluginRegistrations`** of the client configuration.

Each source file becomes one module; helpers live in modules of their own:

- `Wrappers`: Option and Result.
- `Strings`: decimal text, split/join, substring, lower case.
- `Bytes`: the byte type.
- `Records`: JavaScript objects as ordered key/value lists.
- `Json`: JavaScript values and truthiness.
- `MsgPackFormat`: the prefix bytes of the MessagePack format and big-endian integers.
- `MsgPackEncoding`: a reference MessagePack encoder.
- `Base64`: the standard alphabet with padding.

Code that updates state in place is modelled with classes:

- `ReadDecoder` holds the cursor.
- `WriteSizer` holds the running length.
- `State` and `Imports` hold the host-side invocation state and the module's memory (an `array<byte>`).
- `JobRunner` holds the map of step outputs.

Every such method is proved equal to a specification function of the old state. Those
functions are then related to their partners:

- the reference encoder, giving round trips and exact sizes;
- decoding of what was written, for the memory functions;
- the arithmetic value of the digits, for `BigInt`.

`BigInt` is modelled as a value (a sign and a digit sequence). Its objects are never
changed after they are returned: the in-place pushes and pops only touch the fresh
result. Its loops are methods over sequences and, for `mul`, over an `array`.

The model keeps the source's behaviour where it is surprising, and proves what that
behaviour is:

- `compareTo` returns the opposite of the usual sign on non-negative operands. On two
  negative operands it does so only when their digit counts or top-digit widths differ;
  otherwise its digit loop compares magnitudes and gives the usual sign.
- `copy` drops the sign.
- `sub` of two non-negative numbers only succeeds when they are equal, because the
  borrow runs off the end otherwise.
- `mul`, `divInt` and `modInt` compute with 32-bit cells, which wrap.
- `toAxiosRequestConfig` only lower-cases the response type, so a "BINARY" request never
  gets its body base64-encoded; the corrected mapping is modelled beside it (see Findings).

## Model

| member | source | states |
|---|---|---|
| MsgPackReader.ReadDecoder.constructor | packages/wasm-as/assembly/msgpack/ReadDecoder.ts:19-22 | the decoder reads the given buffer from position 0 |
| MsgPackReader.ReadDecoder.ReadBool | packages/wasm-as/assembly/msgpack/ReadDecoder.ts:24-32 | result and new cursor are `ReadBoolAt` of the old cursor: 0xc3 is true, 0xc2 false, any other byte the "bad value for bool" error |
| MsgPackReader.ReadDecoder.ReadInt8 | packages/wasm-as/assembly/msgpack/ReadDecoder.ts:34-42 | result and cursor are `ReadInt8At`: readInt64 then the as-written guard, which lets every value through truncated to 8 bits |
| MsgPackReader.ReadDecoder.ReadInt16 | packages/wasm-as/assembly/msgpack/ReadDecoder.ts:44-52 | as ReadInt8, with 16 bits |
| MsgPackReader.ReadDecoder.ReadInt32 | packages/wasm-as/assembly/msgpack/ReadDecoder.ts:54-62 | as ReadInt8, with 32 bits |
| MsgPackReader.ReadDecoder.ReadInt64 | packages/wasm-as/assembly/msgpack/ReadDecoder.ts:64-85 | result and cursor are `ReadInt64At`: fixints, negative fixints, int8/16/32/64 big-endian two's complement, otherwise "bad prefix for int" |
| MsgPackReader.ReadDecoder.ReadUInt8 | packages/wasm-as/assembly/msgpack/ReadDecoder.ts:87-95 | result and cursor are `ReadUInt8At`: readUInt64 then the as-written guard, truncating to 8 bits |
| MsgPackReader.ReadDecoder.ReadUInt16 | packages/wasm-as/assembly/msgpack/ReadDecoder.ts:97-105 | as ReadUInt8, with 16 bits |
| MsgPackReader.ReadDecoder.ReadUInt32 | packages/wasm-as/assembly/msgpack/ReadDecoder.ts:107-115 | as ReadUInt8, with 32 bits |
| MsgPackReader.ReadDecoder.ReadUInt64 | packages/wasm-as/assembly/msgpack/ReadDecoder.ts:117-138 | result and cursor are `ReadUInt64At`: fixints, uint8/16/32/64 big-endian; a negative fixint is "bad prefix", another byte "bad prefix for unsigned int" |
| MsgPackReader.ReadDecoder.ReadFloat32 | packages/wasm-as/assembly/msgpack/ReadDecoder.ts:140-146 | the 4-byte bit pattern after the float32 prefix, "bad prefix" otherwise |
| MsgPackReader.ReadDecoder.ReadFloat64 | packages/wasm-as/assembly/msgpack/ReadDecoder.ts:148-154 | the 8-byte bit pattern after the float64 prefix, "bad prefix" otherwise |
| MsgPackReader.ReadDecoder.ReadStringLength | packages/wasm-as/assembly/msgpack/ReadDecoder.ts:156-174 | result and cursor are `ReadStringLengthAt`: fixstr, fixarray (as written) and str8/16/32 lengths, otherwise the invalid-length error naming the byte |
| MsgPackReader.ReadDecoder.ReadString | packages/wasm-as/assembly/msgpack/ReadDecoder.ts:176-180 | the length, then that many bytes |
| MsgPackReader.ReadDecoder.ReadBytesLength | packages/wasm-as/assembly/msgpack/ReadDecoder.ts:182-199 | result and cursor are `ReadBytesLengthAt`: nil reads as 0, fixarray (as written) and bin8/16/32 lengths, otherwise the invalid-length error |
| MsgPackReader.ReadDecoder.ReadBytes | packages/wasm-as/assembly/msgpack/ReadDecoder.ts:201-205 | the length, then that many bytes |
| MsgPackReader.ReadDecoder.ReadArrayLength | packages/wasm-as/assembly/msgpack/ReadDecoder.ts:207-219 | nil reads as 0, fixarray/array16/array32 counts, otherwise the invalid-length error |
| MsgPackReader.ReadDecoder.ReadArray | packages/wasm-as/assembly/msgpack/ReadDecoder.ts:221-229 | the count, then that many items read with the callback, in order, stopping at the first error |
| MsgPackReader.ReadDecoder.ReadMapLength | packages/wasm-as/assembly/msgpack/ReadDecoder.ts:231-241 | fixmap/map16/map32 counts; unlike arrays, nil is refused with the invalid-length error |
| MsgPackReader.ReadDecoder.ReadMap | packages/wasm-as/assembly/msgpack/ReadDecoder.ts:243-255 | the count, then that many key/value pairs read with the two callbacks; a repeated key keeps its last value |
| MsgPackReader.ReadDecoder.ReadNullableBool | packages/wasm-as/assembly/msgpack/ReadDecoder.ts:257-262 | a nil byte reads as null and is consumed; otherwise the plain read |
| MsgPackReader.ReadDecoder.ReadNullableInt8 | packages/wasm-as/assembly/msgpack/ReadDecoder.ts:264-269 | null on nil, otherwise readInt8 |
| MsgPackReader.ReadDecoder.ReadNullableInt16 | packages/wasm-as/assembly/msgpack/ReadDecoder.ts:271-276 | null on nil, otherwise readInt16 |
| MsgPackReader.ReadDecoder.ReadNullableInt32 | packages/wasm-as/assembly/msgpack/ReadDecoder.ts:278-283 | null on nil, otherwise readInt32 |
| MsgPackReader.ReadDecoder.ReadNullableInt64 | packages/wasm-as/assembly/msgpack/ReadDecoder.ts:285-290 | null on nil, otherwise readInt64 |
| MsgPackReader.ReadDecoder.ReadNullableUInt8 | packages/wasm-as/assembly/msgpack/ReadDecoder.ts:292-297 | null on nil, otherwise readUInt8 |
| MsgPackReader.ReadDecoder.ReadNullableUInt16 | packages/wasm-as/assembly/msgpack/ReadDecoder.ts:299-304 | null on nil, otherwise readUInt16 |
| MsgPackReader.ReadDecoder.ReadNullableUInt32 | packages/wasm-as/assembly/msgpack/ReadDecoder.ts:306-311 | null on nil, otherwise readUInt32 |
| MsgPackReader.ReadDecoder.ReadNullableUInt64 | packages/wasm-as/assembly/msgpack/ReadDecoder.ts:313-318 | null on nil, otherwise readUInt64 |
| MsgPackReader.ReadDecoder.ReadNullableFloat32 | packages/wasm-as/assembly/msgpack/ReadDecoder.ts:320-325 | null on nil, otherwise readFloat32 |
| MsgPackReader.ReadDecoder.ReadNullableFloat64 | packages/wasm-as/assembly/msgpack/ReadDecoder.ts:327-332 | null on nil, otherwise readFloat64 |
| MsgPackReader.ReadDecoder.ReadNullableString | packages/wasm-as/assembly/msgpack/ReadDecoder.ts:334-339 | null on nil, otherwise readString |
| MsgPackReader.ReadDecoder.ReadNullableBytes | packages/wasm-as/assembly/msgpack/ReadDecoder.ts:341-346 | null on nil, otherwise readBytes |
| MsgPackReader.ReadDecoder.ReadNullableArray | packages/wasm-as/assembly/msgpack/ReadDecoder.ts:348-353 | null on nil, otherwise readArray |
| MsgPackReader.ReadDecoder.ReadNullableMap | packages/wasm-as/assembly/msgpack/ReadDecoder.ts:355-363 | null on nil, otherwise readMap |
| MsgPackReader.ReadDecoder.IsNextNil | packages/wasm-as/assembly/msgpack/ReadDecoder.ts:365-371 | true and one byte consumed exactly when the next byte is nil |
| MsgPackReader.ReadDecoder.Skip | packages/wasm-as/assembly/msgpack/ReadDecoder.ts:373-381 | the loop ends where `SkipAt` says: one getSize, then one more getSize per object the header announced |
| MsgPackReader.ReadDecoder.GetSize | packages/wasm-as/assembly/msgpack/ReadDecoder.ts:383-497 | result and cursor are `GetSizeAt`: every prefix's header and scalar payload consumed, nested-object count returned, a TypeError for an unknown prefix |
| MsgPackReader.GetSizeAt | packages/wasm-as/assembly/msgpack/ReadDecoder.ts:383-497 | a successful getSize always moves the cursor forward and stays inside the buffer |
| MsgPackReader.NarrowSignedChecked | packages/wasm-as/assembly/msgpack/ReadDecoder.ts:34-62 | the intended narrowing: a value inside the n-byte signed range passes unchanged, any other gives the integer-overflow error |
| MsgPackReader.NarrowUnsignedChecked | packages/wasm-as/assembly/msgpack/ReadDecoder.ts:87-115 | the intended unsigned narrowing: a value below 2^(8n) passes, any other gives the unsigned overflow error |
| MsgPackReaderProofs.ReadBoolRoundTrip | packages/wasm-as/assembly/msgpack/ReadDecoder.ts:24-32 | reading an encoded bool gives it back and stops after one byte |
| MsgPackReaderProofs.ReadInt64RoundTrip | packages/wasm-as/assembly/msgpack/ReadDecoder.ts:64-85 | every signed 64-bit value, in the encoding the reference encoder picks, reads back exactly, and the cursor stops right after it |
| MsgPackReaderProofs.ReadUInt64RoundTrip | packages/wasm-as/assembly/msgpack/ReadDecoder.ts:117-138 | every unsigned 64-bit value reads back exactly, and the cursor stops right after its encoding |
| MsgPackReaderProofs.ReadStringLengthRoundTrip | packages/wasm-as/assembly/msgpack/ReadDecoder.ts:156-174 | every string header up to 2^32-1 reads back as its length |
| MsgPackReaderProofs.ReadStringRoundTrip | packages/wasm-as/assembly/msgpack/ReadDecoder.ts:176-180 | an encoded string's bytes read back exactly |
| MsgPackReaderProofs.ReadBinLengthRoundTrip | packages/wasm-as/assembly/msgpack/ReadDecoder.ts:182-199 | every non-empty bin header reads back as its length |
| MsgPackReaderProofs.ReadBytesRoundTrip | packages/wasm-as/assembly/msgpack/ReadDecoder.ts:201-205 | encoded bytes read back exactly; an empty array is written as nil and reads back as empty |
| MsgPackReaderProofs.ReadArrayLengthRoundTrip | packages/wasm-as/assembly/msgpack/ReadDecoder.ts:207-219 | every array header reads back as its count |
| MsgPackReaderProofs.ReadMapLengthRoundTrip | packages/wasm-as/assembly/msgpack/ReadDecoder.ts:231-241 | every map header reads back as its count |
| MsgPackReaderProofs.ReadNullableOfNil | packages/wasm-as/assembly/msgpack/ReadDecoder.ts:257-363 | any nullable read of a nil byte gives null and consumes that byte |
| MsgPackReaderProofs.ReadItemsOfEncodings | packages/wasm-as/assembly/msgpack/ReadDecoder.ts:221-229 | items whose encodings each read back are read back in order, ending after the last |
| MsgPackReaderProofs.ReadIntArrayRoundTrip | packages/wasm-as/assembly/msgpack/ReadDecoder.ts:221-229 | an encoded array of 64-bit integers reads back as the same sequence |
| MsgPackReaderProofs.ReadItemsCount | packages/wasm-as/assembly/msgpack/ReadDecoder.ts:221-229 | a successful item loop returns exactly the requested number of items after the accumulated ones |
| MsgPackReaderProofs.ReadInt8NeverOverflows | packages/wasm-as/assembly/msgpack/ReadDecoder.ts:34-42 | as written, readInt8 fails exactly when readInt64 fails: the overflow error cannot happen |
| MsgPackReaderProofs.ReadInt8OfTwoHundred | packages/wasm-as/assembly/msgpack/ReadDecoder.ts:34-42 | as written, the int16 encoding of 200 reads through readInt8 as -56 |
| MsgPackReaderProofs.ReadNarrowCheckedRoundTrip | packages/wasm-as/assembly/msgpack/ReadDecoder.ts:34-62 | with the intended guard, an encoded value reads back when it fits n bytes and is rejected with the overflow error otherwise |
| MsgPackReaderProofs.ReadUInt8OfTwoHundredFiftySix | packages/wasm-as/assembly/msgpack/ReadDecoder.ts:87-95 | as written, the uint16 encoding of 256 reads through readUInt8 as 0 |
| MsgPackReaderProofs.ReadUnsignedNarrowCheckedRoundTrip | packages/wasm-as/assembly/msgpack/ReadDecoder.ts:87-115 | with the intended guard, an encoded unsigned value reads back when it fits and is rejected otherwise |
| MsgPackReaderProofs.GetSizeOfInt | packages/wasm-as/assembly/msgpack/ReadDecoder.ts:383-497 | getSize of an encoded integer consumes exactly its encoding and announces no nested objects |
| MsgPackReaderProofs.GetSizeOfUInt | packages/wasm-as/assembly/msgpack/ReadDecoder.ts:383-497 | the same for unsigned integers |
| MsgPackReaderProofs.GetSizeOfStr | packages/wasm-as/assembly/msgpack/ReadDecoder.ts:383-497 | getSize of an encoded string consumes header and payload and announces nothing |
| MsgPackReaderProofs.GetSizeOfBin | packages/wasm-as/assembly/msgpack/ReadDecoder.ts:383-497 | the same for byte arrays |
| MsgPackReaderProofs.GetSizeOfArrayHeader | packages/wasm-as/assembly/msgpack/ReadDecoder.ts:383-497 | getSize of an array header consumes the header and announces its count |
| MsgPackReaderProofs.GetSizeOfMapHeader | packages/wasm-as/assembly/msgpack/ReadDecoder.ts:383-497 | getSize of a map header announces twice its count (keys and values) |
| MsgPackReaderProofs.GetSizeOfHead | packages/wasm-as/assembly/msgpack/ReadDecoder.ts:383-497 | for every value, getSize consumes the value's head and announces exactly its number of children |
| MsgPackReaderProofs.SkipOfNestedArray | packages/wasm-as/assembly/msgpack/ReadDecoder.ts:373-381 | as written, skip of `[[1, 2]]` stops after two of its four bytes |
| MsgPackReaderProofs.SkipValuesOfEncoding | packages/wasm-as/assembly/msgpack/ReadDecoder.ts:373-381 | the intended skip of any sequence of encoded values ends exactly after their encodings |
| MsgPackReaderProofs.SkipValueOfEncoding | packages/wasm-as/assembly/msgpack/ReadDecoder.ts:373-381 | the intended skip of one encoded value, however deeply nested, ends right after it |
| MsgPackSizer.WriteSizer.constructor | packages/wasm-as/assembly/msgpack/WriteSizer.ts:7 | a new sizer counts 0 bytes |
| MsgPackSizer.WriteSizer.WriteNil | packages/wasm-as/assembly/msgpack/WriteSizer.ts:9-11 | the length grows by 1 |
| MsgPackSizer.WriteSizer.WriteBool | packages/wasm-as/assembly/msgpack/WriteSizer.ts:13-15 | the length grows by 1 |
| MsgPackSizer.WriteSizer.WriteInt8 | packages/wasm-as/assembly/msgpack/WriteSizer.ts:17-19 | the length grows by `IntSize` of the value |
| MsgPackSizer.WriteSizer.WriteInt16 | packages/wasm-as/assembly/msgpack/WriteSizer.ts:20-22 | the length grows by `IntSize` of the value |
| MsgPackSizer.WriteSizer.WriteInt32 | packages/wasm-as/assembly/msgpack/WriteSizer.ts:23-25 | the length grows by `IntSize` of the value |
| MsgPackSizer.WriteSizer.WriteInt64 | packages/wasm-as/assembly/msgpack/WriteSizer.ts:27-39 | the length grows by 1, 2, 3, 5 or 9 bytes by range, as `IntSize` |
| MsgPackSizer.WriteSizer.WriteUInt8 | packages/wasm-as/assembly/msgpack/WriteSizer.ts:41-43 | the length grows by `UIntSize` of the value |
| MsgPackSizer.WriteSizer.WriteUInt16 | packages/wasm-as/assembly/msgpack/WriteSizer.ts:45-47 | the length grows by `UIntSize` of the value |
| MsgPackSizer.WriteSizer.WriteUInt32 | packages/wasm-as/assembly/msgpack/WriteSizer.ts:49-51 | the length grows by `UIntSize` of the value |
| MsgPackSizer.WriteSizer.WriteUInt64 | packages/wasm-as/assembly/msgpack/WriteSizer.ts:53-65 | the length grows by 1, 2, 3, 5 or 9 bytes by range, as `UIntSize` |
| MsgPackSizer.WriteSizer.WriteFloat32 | packages/wasm-as/assembly/msgpack/WriteSizer.ts:67-69 | the length grows by 5 |
| MsgPackSizer.WriteSizer.WriteFloat64 | packages/wasm-as/assembly/msgpack/WriteSizer.ts:71-73 | the length grows by 9 |
| MsgPackSizer.WriteSizer.WriteStringLength | packages/wasm-as/assembly/msgpack/WriteSizer.ts:75-85 | the length grows by the string-header size |
| MsgPackSizer.WriteSizer.WriteString | packages/wasm-as/assembly/msgpack/WriteSizer.ts:87-91 | the length grows by the header plus the UTF-8 byte count |
| MsgPackSizer.WriteSizer.WriteBytesLength | packages/wasm-as/assembly/msgpack/WriteSizer.ts:93-101 | the length grows by 2, 3 or 5 |
| MsgPackSizer.WriteSizer.WriteBytes | packages/wasm-as/assembly/msgpack/WriteSizer.ts:103-110 | the length grows by 1 for an empty array, otherwise by header + byte count + 1, as written |
| MsgPackSizer.WriteSizer.WriteArrayLength | packages/wasm-as/assembly/msgpack/WriteSizer.ts:112-120 | the length grows by the array-header size |
| MsgPackSizer.WriteSizer.WriteArray | packages/wasm-as/assembly/msgpack/WriteSizer.ts:122-127 | the length grows by the header plus the sum of the items' sizes, summed in a loop |
| MsgPackSizer.WriteSizer.WriteMapLength | packages/wasm-as/assembly/msgpack/WriteSizer.ts:129-137 | the length grows by the map-header size |
| MsgPackSizer.WriteSizer.WriteMap | packages/wasm-as/assembly/msgpack/WriteSizer.ts:139-152 | the length grows by the header plus every key's and value's size |
| MsgPackSizer.WriteSizer.WriteNullableBool | packages/wasm-as/assembly/msgpack/WriteSizer.ts:154-161 | 1 byte for null, otherwise the bool's size |
| MsgPackSizer.WriteSizer.WriteNullableInt8 | packages/wasm-as/assembly/msgpack/WriteSizer.ts:163-170 | 1 byte for null, otherwise writeInt8's size |
| MsgPackSizer.WriteSizer.WriteNullableInt16 | packages/wasm-as/assembly/msgpack/WriteSizer.ts:172-179 | 1 byte for null, otherwise writeInt16's size |
| MsgPackSizer.WriteSizer.WriteNullableInt32 | packages/wasm-as/assembly/msgpack/WriteSizer.ts:181-188 | 1 byte for null, otherwise writeInt32's size |
| MsgPackSizer.WriteSizer.WriteNullableInt64 | packages/wasm-as/assembly/msgpack/WriteSizer.ts:190-197 | 1 byte for null, otherwise writeInt64's size |
| MsgPackSizer.WriteSizer.WriteNullableUInt8 | packages/wasm-as/assembly/msgpack/WriteSizer.ts:199-206 | 1 byte for null, otherwise writeUInt8's size |
| MsgPackSizer.WriteSizer.WriteNullableUInt16 | packages/wasm-as/assembly/msgpack/WriteSizer.ts:208-215 | 1 byte for null, otherwise writeUInt16's size |
| MsgPackSizer.WriteSizer.WriteNullableUInt32 | packages/wasm-as/assembly/msgpack/WriteSizer.ts:217-224 | 1 byte for null, otherwise writeUInt32's size |
| MsgPackSizer.WriteSizer.WriteNullableUInt64 | packages/wasm-as/assembly/msgpack/WriteSizer.ts:226-233 | 1 byte for null, otherwise writeUInt64's size |
| MsgPackSizer.WriteSizer.WriteNullableFloat32 | packages/wasm-as/assembly/msgpack/WriteSizer.ts:235-242 | 1 byte for null, otherwise 5 |
| MsgPackSizer.WriteSizer.WriteNullableFloat64 | packages/wasm-as/assembly/msgpack/WriteSizer.ts:244-251 | 1 byte for null, otherwise 9 |
| MsgPackSizer.WriteSizer.WriteNullableString | packages/wasm-as/assembly/msgpack/WriteSizer.ts:253-260 | 1 byte for null, otherwise writeString's size |
| MsgPackSizer.WriteSizer.WriteNullableBytes | packages/wasm-as/assembly/msgpack/WriteSizer.ts:262-269 | 1 byte for null, otherwise writeBytes' size |
| MsgPackSizer.WriteSizer.WriteNullableArray | packages/wasm-as/assembly/msgpack/WriteSizer.ts:272-281 | 1 byte for null, otherwise writeArray's size |
| MsgPackSizer.WriteSizer.WriteNullableMap | packages/wasm-as/assembly/msgpack/WriteSizer.ts:283-293 | 1 byte for null, otherwise writeMap's size |
| MsgPackSizer.IntSizeIsEncodingLength | packages/wasm-as/assembly/msgpack/WriteSizer.ts:27-39 | the size counted for every signed 64-bit value is the length of its encoding |
| MsgPackSizer.UIntSizeIsEncodingLength | packages/wasm-as/assembly/msgpack/WriteSizer.ts:53-65 | the size counted for every unsigned 64-bit value is the length of its encoding |
| MsgPackSizer.HeaderSizesAreHeaderLengths | packages/wasm-as/assembly/msgpack/WriteSizer.ts:75-137 | the string, bin, array and map header sizes are the lengths of those headers |
| MsgPackSizer.StringSizeIsEncodingLength | packages/wasm-as/assembly/msgpack/WriteSizer.ts:87-91 | writeString counts exactly the encoded string's length |
| MsgPackSizer.BytesSizeOvercounts | packages/wasm-as/assembly/msgpack/WriteSizer.ts:103-110 | as written, writeBytes counts one byte more than the encoding of any non-empty array |
| MsgPackSizer.BytesSizeCorrectedIsEncodingLength | packages/wasm-as/assembly/msgpack/WriteSizer.ts:103-110 | the corrected count is the encoding's length for every byte array |
| MsgPackSizer.SumIntSizes | packages/wasm-as/assembly/msgpack/WriteSizer.ts:122-127 | summing item sizes over integers gives the length of their concatenated encodings |
| MsgPackSizer.ArraySizeOfInts | packages/wasm-as/assembly/msgpack/WriteSizer.ts:122-127 | writeArray over integers counts exactly the length of the encoded array |
| MsgPackSizer.ValueSizeIsEncodingLength | packages/wasm-as/assembly/msgpack/WriteSizer.ts:9-152 | sizing any valid document, at any depth, counts the length of its encoding plus one byte for each non-empty byte string in it |
| MsgPackSizer.ValuesSizeIsEncodingLength | packages/wasm-as/assembly/msgpack/WriteSizer.ts:122-152 | sizing a sequence of valid documents counts the length of their concatenated encodings plus one byte for each non-empty byte string |
| MsgPackSizer.ArraySizeOfValues | packages/wasm-as/assembly/msgpack/WriteSizer.ts:122-127 | writeArray with the document sizer as its item callback counts the same as sizing the array as one document |
| WasmImports.State.constructor | packages/js/client/src/wasm/imports.ts:16 | the state starts with the given method, args and env, and every result/error slot unset |
| WasmImports.Imports.constructor | packages/js/client/src/wasm/imports.ts:16 | the imports close over the given state, memory, client and encoders |
| WasmImports.Imports.WriteBytes | packages/js/client/src/wasm/imports.ts:72 | bytes are copied into memory at ptr exactly when they fit; memory is then the old memory with that region replaced, otherwise unchanged |
| WasmImports.Imports.ReadBytes | packages/js/client/src/wasm/imports.ts:34 | the region `[ptr, ptr+len)` of memory when it fits |
| WasmImports.Imports.ReadString | packages/js/client/src/wasm/imports.ts:32-33 | the UTF-8 decoding of the region when it fits |
| WasmImports.ReadRegionOfSplice | packages/js/client/src/wasm/imports.ts:72 | reading back a region just written gives the written bytes, and memory outside it is untouched |
| WasmImports.SpliceOfReadRegion | packages/js/client/src/wasm/imports.ts:34 | writing back a region just read leaves memory unchanged |
| WasmImports.ReadInvocation | packages/js/client/src/wasm/imports.ts:32-34 | the invocation is read exactly when uri, method and input all lie inside memory, with the input bytes copied verbatim |
| WasmImports.ErrorText | packages/js/client/src/wasm/imports.ts:53 | the error text is the name, ": ", then the message |
| WasmImports.Settle | packages/js/client/src/wasm/imports.ts:43-54 | a result is stored exactly when there was no error: raw bytes as they are, any other value through `msgpackEncode`; an error text exactly when there was an error |
| WasmImports.ResultLen | packages/js/client/src/wasm/imports.ts:59-65 | the result's byte length when a result is set, otherwise an abort with the given message |
| WasmImports.ErrorLen | packages/js/client/src/wasm/imports.ts:75-81 | the error's length in characters when an error is set and not empty, otherwise an abort with the given message |
| WasmImports.SettledAccessors | packages/js/client/src/wasm/imports.ts:36-81 | after a subinvoke, the result accessors answer exactly when it succeeded and the error accessors exactly when it failed |
| WasmImports.AbortMessage | packages/js/client/src/wasm/imports.ts:224-238 | the abort message is "__wrap_abort: ", the message, "\nFile: ", the file, then "\nLocation: [line,column]" with both numbers in decimal |
| WasmImports.Imports.Subinvoke | packages/js/client/src/wasm/imports.ts:20-57 | the slots are cleared; a call read from memory is invoked and settled, and the return value is whether it succeeded; an out-of-memory region is a RangeError |
| WasmImports.Imports.SubinvokeResultLen | packages/js/client/src/wasm/imports.ts:59-65 | as `ResultLen` on the subinvoke slot, with the source's abort message |
| WasmImports.Imports.SubinvokeResult | packages/js/client/src/wasm/imports.ts:67-73 | abort when unset; otherwise the result copied into memory at ptr |
| WasmImports.Imports.SubinvokeErrorLen | packages/js/client/src/wasm/imports.ts:75-81 | as `ErrorLen` on the subinvoke slot |
| WasmImports.Imports.SubinvokeError | packages/js/client/src/wasm/imports.ts:83-89 | abort when unset; otherwise the UTF-8 bytes of the error copied into memory |
| WasmImports.Imports.SubinvokeImplementation | packages/js/client/src/wasm/imports.ts:90-129 | as Subinvoke, calling the implementation's URI and settling into the implementation slot |
| WasmImports.Imports.SubinvokeImplementationResultLen | packages/js/client/src/wasm/imports.ts:131-139 | as `ResultLen` on the implementation slot |
| WasmImports.Imports.SubinvokeImplementationResult | packages/js/client/src/wasm/imports.ts:140-148 | abort when unset; otherwise the result copied into memory |
| WasmImports.Imports.SubinvokeImplementationErrorLen | packages/js/client/src/wasm/imports.ts:149-157 | as `ErrorLen` on the implementation slot |
| WasmImports.Imports.SubinvokeImplementationError | packages/js/client/src/wasm/imports.ts:158-166 | abort when unset; otherwise the error's bytes copied into memory |
| WasmImports.Imports.InvokeArgs | packages/js/client/src/wasm/imports.ts:168-180 | abort when the method or the args are unset; otherwise the method name then the args written into memory |
| WasmImports.Imports.InvokeResult | packages/js/client/src/wasm/imports.ts:181-184 | the region becomes the invocation's result, nothing else changes |
| WasmImports.Imports.InvokeError | packages/js/client/src/wasm/imports.ts:185-187 | the decoded region becomes the invocation's error, nothing else changes |
| WasmImports.Imports.GetImplementations | packages/js/client/src/wasm/imports.ts:188-193 | the encoded implementation list is stored; the answer is whether the list is non-empty |
| WasmImports.Imports.GetImplementationsResultLen | packages/js/client/src/wasm/imports.ts:194-200 | the stored list's byte length, or abort when unset |
| WasmImports.Imports.GetImplementationsResult | packages/js/client/src/wasm/imports.ts:201-207 | abort when unset; otherwise the list copied into memory |
| WasmImports.Imports.LoadEnv | packages/js/client/src/wasm/imports.ts:208-212 | the env copied into memory when one is set, nothing otherwise |
| WasmImports.Imports.SanitizeEnvArgs | packages/js/client/src/wasm/imports.ts:213-220 | abort when unset; otherwise the args copied into memory |
| WasmImports.Imports.SanitizeEnvResult | packages/js/client/src/wasm/imports.ts:221-223 | the region becomes the sanitized env |
| WasmImports.Imports.WrapAbort | packages/js/client/src/wasm/imports.ts:224-238 | the module's message and file are read from memory and the host aborts with `AbortMessage` |
| WasmImports.Imports.CopyIn | packages/js/client/src/wasm/imports.ts:67-73 | the bytes are copied in at ptr when they fit, otherwise a RangeError with memory unchanged |
| GraphQL.ExecuteOptionsOf | packages/client-js/src/graphql/index.ts:22-36 | no definition is the empty-document error and several are the multiple-definitions error |
| GraphQL.ExecuteOptionsShape | packages/client-js/src/graphql/index.ts:22-109 | success exactly for one query or mutation selecting one field whose arguments and sub-selections extract; the method is the field's name, the input its arguments, the results its selection shape |
| GraphQL.SelectionValue | packages/client-js/src/graphql/index.ts:152-165 | only a field can be a result selection |
| GraphQL.ValuesIntoElementwise | packages/client-js/src/graphql/index.ts:125-133 | a list value extracts exactly when every element does, and gives the elements' values in order |
| GraphQL.FieldsIntoOk | packages/client-js/src/graphql/index.ts:134-143 | an object value extracts exactly when every field value does |
| GraphQL.FieldsIntoPairs | packages/client-js/src/graphql/index.ts:134-143 | the fields are assigned in order on top of what was already there |
| GraphQL.ObjectValueLastWins | packages/client-js/src/graphql/index.ts:134-143 | a key repeated among an object's fields takes its last value |
| GraphQL.SelectionValueOk | packages/client-js/src/graphql/index.ts:149-169 | a selection extracts exactly when it and all its nested selections are fields |
| GraphQL.SelectionsIntoOk | packages/client-js/src/graphql/index.ts:149-169 | a selection set extracts exactly when all its selections are fields, at every depth |
| GraphQL.SelectionsIntoPairs | packages/client-js/src/graphql/index.ts:149-169 | the selections are assigned in order, each to its nested shape or to true |
| GraphQL.SelectionsLastWins | packages/client-js/src/graphql/index.ts:149-169 | the result has distinct keys, a repeated name takes its last selection, and a leaf selection is true |
| GraphQL.ExtractValue | packages/client-js/src/graphql/index.ts:111-147 | the loops compute `ValueOf`: variables looked up, scalars as they are, null, lists and objects element-wise, an unknown kind the unsupported-node error |
| GraphQL.ExtractSelections | packages/client-js/src/graphql/index.ts:149-169 | the loop computes `SelectionsInto` from the empty record |
| GraphQL.ExtractSelection | packages/client-js/src/graphql/index.ts:153-165 | one selection: the unsupported-selection error, its nested shape, or true |
| GraphQL.ExtractExecuteOptions | packages/client-js/src/graphql/index.ts:22-109 | the method computes `ExecuteOptionsOf`, error messages included |
| JobRunning.JobRunner.constructor | packages/js/core/src/workflow/JobRunner.ts:18-33 | a runner starts with no outputs and the given client |
| JobRunning.JobRunner.Run | packages/js/core/src/workflow/JobRunner.ts:35-93 | the outputs and the error after `run` are those of `RunJob` on the old outputs |
| JobRunning.JobRunner.RunSteps | packages/js/core/src/workflow/JobRunner.ts:46-70 | the step loop's outputs and error are those of `StepsFrom` from step 0 |
| JobRunning.StepsFromRecords | packages/js/core/src/workflow/JobRunner.ts:46-70 | a run of steps without error records an output under the id of every step, and nothing else new |
| JobRunning.StepsFromFrame | packages/js/core/src/workflow/JobRunner.ts:46-70 | outputs under any other id are left as they were |
| JobRunning.StepsFromKeepsKeys | packages/js/core/src/workflow/JobRunner.ts:46-70 | running steps never removes an output |
| JobRunning.RunJobKeepsOutputs | packages/js/core/src/workflow/JobRunner.ts:35-93 | a whole run never removes an output |
| JobRunning.AbsoluteIdInjective | packages/js/core/src/workflow/JobRunner.ts:49-51 | distinct steps of a job get distinct absolute ids |
| JobRunning.JobIdEnd | packages/js/core/src/workflow/JobRunner.ts:39-42 | the job id ends at the first "." of the relative id, or at its end |
| JobRunning.NumberValue | packages/js/core/src/workflow/JobRunner.ts:100 | unary `+` of a step number is a number exactly when the text is all digits |
| JobRunning.ResolveInputOfAbsoluteId | packages/js/core/src/workflow/JobRunner.ts:95-102 | resolveInput splits the id built by run back into the job path and the step's index |
| JobRunning.ResolveReference | packages/js/core/src/workflow/JobRunner.ts:105-134 | a resolved reference is always truthy; the only failure is the "Could not resolve input for step with stepId: " error naming the current job and step |
| JobRunning.ResolveValue | packages/js/core/src/workflow/JobRunner.ts:104-142 | the only failure is that error; a value that is not a string, array or object comes back unchanged; an array keeps its length; an object keeps exactly its keys |
| JobRunning.ResolveItems | packages/js/core/src/workflow/JobRunner.ts:135 | `value.map(resolveValue)` gives as many items as it was given, or the "Could not resolve" error |
| JobRunning.ResolveFields | packages/js/core/src/workflow/JobRunner.ts:136-141 | the `reduce` ends with exactly the accumulator's keys and the object's keys, or the "Could not resolve" error |
| JobRunning.ResolveInput | packages/js/core/src/workflow/JobRunner.ts:95-145 | the resolved input is an object with exactly the input's keys; a failure's message starts with "Could not resolve input for step with stepId: " |
| JobRunning.ResolveReferenceOf | packages/js/core/src/workflow/JobRunner.ts:105-134 | `$J.k.f` resolves to field f of step J.k's output when the current job id contains J and that field is truthy, otherwise to the "Could not resolve" error |
| JobRunning.ResolveIgnoresStepOrder | packages/js/core/src/workflow/JobRunner.ts:117-134 | the current step number never changes the outcome: the ordered branch falls through to the unordered lookup |
| JobRunning.ResolvePlain | packages/js/core/src/workflow/JobRunner.ts:135-141 | a value with no `$` string anywhere resolves to itself |
| JobRunning.ResolveItemsPlain | packages/js/core/src/workflow/JobRunner.ts:135 | arrays of such values map to themselves |
| JobRunning.ResolveFieldsPlain | packages/js/core/src/workflow/JobRunner.ts:136-140 | objects of such values rebuild to themselves |
| BigIntegers.FromString | packages/apis/uniswapv2/src/BigInt.ts:8-31 | the constructor's digits are `Parsed` of the text |
| BigIntegerProofs.ParsedValue | packages/apis/uniswapv2/src/BigInt.ts:8-27 | a canonical numeral parses to in-range, trimmed digits whose value is the numeral's value, with the sign of a leading "-" |
| BigIntegerProofs.FormatParsed | packages/apis/uniswapv2/src/BigInt.ts:8-27 | toString after the constructor gives back every canonical numeral, signed or not |
| BigIntegers.ToString | packages/apis/uniswapv2/src/BigInt.ts:187-195 | the method computes `Format`: the sign, the top digit, then every lower digit padded to nine places |
| BigIntegers.FromDigits | packages/apis/uniswapv2/src/BigInt.ts:33-39 | the digits are kept with leading zeros trimmed and the given sign |
| BigIntegers.Trimmed | packages/apis/uniswapv2/src/BigInt.ts:197-202 | a prefix of the digits, leaving one digit at least, and only zero digits removed |
| BigIntegers.TrimLeadingZeros | packages/apis/uniswapv2/src/BigInt.ts:197-202 | the loop computes `Trimmed` |
| BigIntegerProofs.TrimmedValue | packages/apis/uniswapv2/src/BigInt.ts:197-202 | trimming never changes the value |
| BigIntegers.Add | packages/apis/uniswapv2/src/BigInt.ts:42-62 | the method computes `Plus`: same signs add magnitudes, mixed signs go through sub |
| BigIntegerProofs.AddFromValue | packages/apis/uniswapv2/src/BigInt.ts:42-62 | the carry loop on in-range digits gives in-range digits whose value is the sum |
| BigIntegerProofs.PlusSameSign | packages/apis/uniswapv2/src/BigInt.ts:42-62 | adding two numbers of the same sign gives a non-negative result whose value is the sum of the magnitudes |
| BigIntegers.AddLoop | packages/apis/uniswapv2/src/BigInt.ts:47-61 | the loop computes `AddFrom` |
| BigIntegers.Sub | packages/apis/uniswapv2/src/BigInt.ts:65-85 | the method computes `Minus`, with the out-of-range read the borrow can cause |
| BigIntegers.SubLoop | packages/apis/uniswapv2/src/BigInt.ts:70-84 | the loop computes `SubFrom` |
| BigIntegerProofs.SubFromValue | packages/apis/uniswapv2/src/BigInt.ts:70-84 | the borrow loop succeeds exactly when the minuend is not shorter and not smaller, and then gives the difference |
| BigIntegerProofs.MinusOfCanonicals | packages/apis/uniswapv2/src/BigInt.ts:65-85 | sub of two non-negative canonical numbers gives 0 when they are equal and the out-of-range error otherwise |
| BigIntegers.Mul | packages/apis/uniswapv2/src/BigInt.ts:89-101 | the method computes `Times` |
| BigIntegers.MulRowLoop | packages/apis/uniswapv2/src/BigInt.ts:92-99 | one row of the schoolbook product, in place in the result array, as `MulRow` |
| BigIntegerProofs.MulWraps | packages/apis/uniswapv2/src/BigInt.ts:89-101 | 100000 times 100000 gives the digits [410065408, 1], whose value is not the product |
| BigIntegers.DivInt | packages/apis/uniswapv2/src/BigInt.ts:106-116 | the method computes `Quotient` |
| BigIntegers.ModInt | packages/apis/uniswapv2/src/BigInt.ts:120-130 | the method computes `Remainder` |
| BigIntegers.DivLoop | packages/apis/uniswapv2/src/BigInt.ts:108-114 | the loop computes `DivFrom` from the top digit down |
| BigIntegerProofs.DivFromValue | packages/apis/uniswapv2/src/BigInt.ts:108-114 | for divisors 1 and 2 the loop is long division: quotient times divisor plus remainder is the dividend |
| BigIntegerProofs.DivideSmall | packages/apis/uniswapv2/src/BigInt.ts:106-130 | for divisors 1 and 2, divInt keeps the sign and gives the true quotient of the magnitude, and modInt its remainder |
| BigIntegerProofs.RemainderOverflow | packages/apis/uniswapv2/src/BigInt.ts:120-130 | modInt of 2147483648 by 3 gives -2, while the remainder is 2 |
| BigIntegers.Copy | packages/apis/uniswapv2/src/BigInt.ts:133-136 | the copy has the same trimmed digits and is always non-negative |
| BigIntegers.Opposite | packages/apis/uniswapv2/src/BigInt.ts:138-140 | the opposite has the same trimmed digits and the other sign |
| BigIntegers.CompareTo | packages/apis/uniswapv2/src/BigInt.ts:162-184 | the method computes `Compare` |
| BigIntegers.Compare | packages/apis/uniswapv2/src/BigInt.ts:162-184 | the answer is -1, 0 or 1 |
| BigIntegers.CompareAntisymmetric | packages/apis/uniswapv2/src/BigInt.ts:162-184 | swapping the operands negates the answer |
| BigIntegers.Equals | packages/apis/uniswapv2/src/BigInt.ts:142-144 | `equals` fails exactly when `compareTo` with the operands swapped fails, and otherwise holds exactly when that answer is 0, so equality is symmetric |
| BigIntegers.Lt | packages/apis/uniswapv2/src/BigInt.ts:146-148 | `a.lt(b)` is `b.gt(a)`, failures included |
| BigIntegers.Lte | packages/apis/uniswapv2/src/BigInt.ts:150-152 | `a.lte(b)` is `b.gte(a)`, and on success the negation of `a.gt(b)` |
| BigIntegers.Gt | packages/apis/uniswapv2/src/BigInt.ts:154-156 | `a.gt(b)` holds exactly when `b.compareTo(a)` is negative, and fails exactly when that fails |
| BigIntegers.Gte | packages/apis/uniswapv2/src/BigInt.ts:158-160 | `gte` succeeds exactly when `lt` does, and then is its negation |
| BigIntegerProofs.CompareFromValue | packages/apis/uniswapv2/src/BigInt.ts:174-183 | the digit-by-digit comparison of equal-length digit lists is the comparison of their values |
| BigIntegerProofs.CompareReversed | packages/apis/uniswapv2/src/BigInt.ts:142-184 | on canonical (non-negative) numbers compareTo is the opposite of the order of their values, so lt, gt, lte and gte are reversed too |
| BigIntegerProofs.CompareNegatives | packages/apis/uniswapv2/src/BigInt.ts:162-184 | on two negative numbers with canonical digits compareTo is reversed when the digit counts or the top-digit widths differ, and gives the usual order of their values otherwise |
| HttpUtil.FromAxiosResponse | packages/js/plugins/http/src/util.ts:9-33 | one header per response header, in order; status copied; the body base64-encoded exactly for an "arraybuffer" response, and passed through otherwise |
| HttpUtil.ToAxiosRequestConfig | packages/js/plugins/http/src/util.ts:40-67 | the response type lower-cased; params and headers are the folded lists, present exactly when given, with distinct keys and the last value of each key |
| HttpUtil.HeaderPairs | packages/js/plugins/http/src/util.ts:41-47 | the headers' key/value pairs, in order |
| HttpUtil.BinaryResponseTypeIsNotArrayBuffer | packages/js/plugins/http/src/util.ts:51 | a "BINARY" response type becomes "binary", which is not "arraybuffer" |
| HttpUtil.ResponseOfRequest | packages/js/plugins/http/src/util.ts:9-67 | as written, a "BINARY" request's config leads `fromAxiosResponse` past the base64 branch: the body comes back unencoded |
| HttpUtil.ToAxiosRequestConfigCorrected | packages/js/plugins/http/src/util.ts:40-67 | the corrected config: "BINARY" asks for "arraybuffer", any other type is lower-cased, params and headers as in the source |
| HttpUtil.ResponseOfRequestCorrected | packages/js/plugins/http/src/util.ts:9-67 | with the corrected config a "BINARY" response body comes back as base64 text that decodes to the response bytes, and a "TEXT" body unchanged |
| Base64.DecodeEncode | packages/js/plugins/http/src/util.ts:25 | decoding the base64 text of any bytes gives them back |
| Base64.EncodeLength | packages/js/plugins/http/src/util.ts:25 | every three bytes become four characters, with a final partial group padded |
| InterfaceImplementations.SanitizeInterfaceImplementations | packages/js/core/src/types/InterfaceImplementations.ts:11-31 | one entry per input entry, in order: the interface and every implementation turned into a URI |
| InterfaceImplementations.MapUris | packages/js/core/src/types/InterfaceImplementations.ts:11-31 | each element turned into a URI, in order |
| PluginRegistration.SanitizePluginRegistrations | packages/js/core/src/types/PluginRegistration.ts:11-27 | one entry per input entry, in order: the URI converted and the plugin kept; repeated URIs are kept |

## Left out

- DataView is not part of this model. Its reads are modelled as big-endian reads that fail with a RangeError before moving the cursor.
- The decoding of float bit patterns is left out. The model keeps the raw 4- or 8-byte pattern, because floating point is not modelled.
- UTF-8 encoding and decoding, `Buffer.from` of a string, and msgpack encoding of a JavaScript value are parameters. `String.UTF8`, the host-side `msgpackEncode` and Node's `Buffer` are not part of this model.
- `__wrap_debug_log` is left out, because it only writes to the console.
- `client.invoke`, `getImplementations` and the URI encoding are parameters. The asynchrony and asyncify of the wrapper runtime are not modelled.
- `buffer.ts` (`readBytes`, `writeBytes`, `readString`) is not part of this model. A region outside the memory is modelled as a RangeError.
- JobRunning.JobRunner.Run: the branch that runs every job in parallel when no relative id is given (`Promise.all`) is left out. An empty relative id runs nothing. So the sub-jobs under the last segment of a relative id are never run: the source reaches them by recursing with an empty relative id into that branch.
- JobRunning.JobRunner.RunSteps: the `onExecution` callback is left out, because it is an observer that changes no state.
- JobRunning.NumberValue: unary `+` is modelled on digit strings only. Whitespace, signs, decimals and radix prefixes are not modelled; they read as NaN.
- JavaScript's key order for integer-like keys is not modelled. Object keys keep insertion order.
- `Json.Num` holds integers only. Non-integral numbers, NaN and the infinities are not modelled, because floating point is not modelled.
- The i32 wrap of lengths in `WriteSizer` is not modelled: lengths are unbounded. Sizes stay exact for every value up to 2^32-1 bytes.
- WasmImports.ErrorLen: the result is the error's character count. The source returns the UTF-16 `.length`, which differs for characters outside the Basic Multilingual Plane. Neither is the UTF-8 byte count that the `*_error` accessors write.
- HttpUtil.ToAxiosRequestConfig: lower-casing is ASCII only, where the source calls `toLocaleLowerCase`. The schema's response type names, TEXT and BINARY, are ASCII.
- MsgPackReader.ReadDecoder.ReadMap: the result is a Dafny `map`, so the insertion order of the AssemblyScript `Map`, which iteration over it would see, is not modelled. Keys, values and the last-value-wins rule are exact.
- JobRunning.ResolveReference: a field name other than "data" or "error" reads as undefined. In JavaScript a name inherited from `Object.prototype`, such as `constructor`, is truthy and resolves; the model gives the "Could not resolve" error.
- BigIntegers.Times: value correctness is proved only through the concrete wrapping example, because products above 2^31 wrap.
- BigIntegers.Quotient: value correctness is proved for divisors 1 and 2 only (DivideSmall), because larger divisors can overflow 32 bits.
- BigIntegers.Remainder: value correctness is proved for divisors 1 and 2 only; RemainderOverflow shows the wrap for other divisors.
- BigIntegers.FromString: text that is not a canonical numeral is modelled by `Parsed` without a round-trip lemma. Each 9-character chunk is read as an optional sign and leading decimal digits, 0 when there are none. AssemblyScript's `I32.parseInt` also skips leading whitespace and reads 0x, 0o and 0b prefixes, which the model does not; canonical numerals are unaffected.
- Aliasing between BigInt objects is not modelled: every result is a fresh value.
- `createQueryDocument` (the GraphQL parser) is not part of this model. Documents arrive parsed.
- The interface and plugin sanitizers are wrapped in `Tracer.traceFunc`. Tracing is not modelled.
- The sanitizers' `toUri` is a total function parameter, so a URI conversion that throws on a malformed URI is not modelled.

## Findings

| source | as written | input that shows it | evidently intended | confidence | as-written member | corrected member |
|---|---|---|---|---|---|---|
| packages/wasm-as/assembly/msgpack/ReadDecoder.ts:34-62 | the guard `value <= MAX \|\| value >= MIN` holds for every value, so readInt8/16/32 never report overflow and truncate instead | the int16 encoding of 200 (`d1 00 c8`) read by readInt8 gives -56 | `value <= MAX && value >= MIN`, with the overflow error otherwise | high (not executed) | MsgPackReaderProofs.ReadInt8OfTwoHundred | MsgPackReaderProofs.ReadNarrowCheckedRoundTrip |
| packages/wasm-as/assembly/msgpack/ReadDecoder.ts:87-115 | the guard `value <= MAX \|\| value >= 0` always holds, so readUInt8/16/32 truncate | the uint16 encoding of 256 (`cd 01 00`) read by readUInt8 gives 0 | `value <= MAX`, with the overflow error otherwise | high (not executed) | MsgPackReaderProofs.ReadUInt8OfTwoHundredFiftySix | MsgPackReaderProofs.ReadUnsignedNarrowCheckedRoundTrip |
| packages/wasm-as/assembly/msgpack/ReadDecoder.ts:373-381 | skip calls getSize once per announced object but ignores the objects those announce, so a nested container is not skipped whole | `[[1, 2]]` (`91 92 01 02`): skip stops after 2 of the 4 bytes | add each header's count to the objects still to skip | high (not executed) | MsgPackReaderProofs.SkipOfNestedArray | MsgPackReaderProofs.SkipValueOfEncoding |
| packages/wasm-as/assembly/msgpack/WriteSizer.ts:103-110 | writeBytes adds the header size and then `byteLength + 1`, one byte more than the bin encoding | any non-empty byte array, e.g. one byte: counted 4, encoded in 3 | header size plus `byteLength` | medium (not executed) | MsgPackSizer.BytesSizeOvercounts | MsgPackSizer.BytesSizeCorrectedIsEncodingLength |
| packages/js/plugins/http/src/util.ts:51 | the response type is only lower-cased, so "BINARY" becomes "binary" and a binary response never takes the base64 branch at util.ts:22 | a request with response type "BINARY"; the unit test at packages/js/plugins/http/src/__tests__/unit/util.test.ts:48-57 expects "arraybuffer" | "BINARY" mapped to "arraybuffer", other types lower-cased | high (not executed) | HttpUtil.ResponseOfRequest | HttpUtil.ResponseOfRequestCorrected |

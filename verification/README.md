# Apache Thrift: wire protocols, transports and concurrent components, modelled and proved

A Dafny model of the wire stack of Apache Thrift's Go library, and of five smaller components of the
repository that each rest on one hard argument.

**Values and their encodings.** `Values` has one recursive value type: scalars, strings, structs as
sequences of (16-bit id, value), and typed lists, sets and maps. `Varint` is the zigzag and varint
arithmetic. `Wire` has the binary and compact protocols as steps on a reader and a writer, with the field-id
stack, the boolean header the compact writer defers and the boolean the compact reader stashes. `Codec`
drives those steps over a value, the way generated code does, and gives an independent grammar of the
encodings. `RoundTrip` proves that the writer emits the grammar and the reader inverts it. `Skipping`,
`Duplicate` and `Messages` add skipping under a depth budget, the duplicating protocol and message
envelopes. `Protocol` is the same protocols as objects whose fields change in place; every method is
proved to take the step of the same name. `Drivers` drives whole values through the objects.

**JSON.** `JsonText` proves where a quoted string ends. `Json` is printer and parser, each with its own
context stack. `JsonLexemes`, `JsonPrint` and `JsonParse` prove, token by token and then value by value,
that the two stacks move in step and that the parser undoes the printer. `JsonProtocol` is the object.
`JsWriter` is the JavaScript writer, which works on two stacks and looks nothing like the Go one; it is
proved to compute a recursive printer. `JsInterop` proves what the Go parser makes of that text: a message
comes back if and only if it fits the limits and no string in it has a bare control byte (a byte below 32 other
than `\b \t \n \f \r`). It also proves where the two writers print the same: if and only if no string has
a bare control byte or one of `< > &`. `JsonDrivers` drives whole messages through the objects.

**Framing.** `Framed` is the simple framing. `Header`, `HeaderRoundTrip` and `HeaderTransport` are the
header transport: padded header blocks, detection of the five client dialects, replies in the dialect
detected. `HeaderStream` is a whole connection of it, flush after flush and read after read.

**Concurrency and algorithms.** `SimpleServer` and `TornadoLock` are step relations over all
interleavings; `StableVector` is an object together with a step relation for its unlocked readers;
`UnorderedEqual` is greedy matching.

Limits are part of the statements rather than assumptions: a value comes back exactly when it fits the
reader's configuration, and is refused with a size-limit error exactly when it does not.

Some results are not what the documentation or the reader of one function would expect. Each has its exact
condition and a lemma at an input:

- A header frame that lists more than one transform is always refused by the reader, although `Flush`
  emits it (`HeaderRoundTrip.FlushThenReadFrame`, `HeaderRoundTrip.TwoTransformsRefused`).
- The two pieces of a JSON string, before and after its first quote character, are held to the size limit
  separately: a string of up to twice the limit is accepted, and for every limit there is one of exactly
  that size (`JsonText.StringBodyEnds`, `JsonText.TwiceTheLimitAccepted`).
- A malformed JSON string without a quote character inside is read as an empty string without an error,
  because the error that is returned is nil at that point; one with a quote inside is refused
  (`JsonLexemes.ReadTextExactly`, `JsonLexemes.MalformedReadsAsEmpty`).
- So a JavaScript client's string with a bare control byte arrives empty, and nothing reports it
  (`JsInterop.GoReadsJavaScript`, `JsInterop.BareControlIsLost`).
- `StableVector` is documented for every unsigned index; its shifts are signed, and they stay in range
  exactly for the indexes below 2^31 (`StableVector.SupportedIndexes`, `StableVector.FirstUnsupportedIndex`).
- An empty compact map does not carry its types, so it comes back without them; a value comes back as it was
  if and only if no empty map in it declares a type (`RoundTrip.CanonIsSame`,
  `RoundTrip.EmptyMapLosesItsTypes`).
- A message type comes back only if the header has room for it: three bits in the compact protocol, eight in
  the binary one; a larger one can also make the versioned header unreadable (`Messages.CarriedWhole`,
  `Messages.ReadMessageBeginInverts`, `Messages.LargeTypes`).

`dafny verify dfyconfig.toml` checks the project.

## Model

| member | source | states |
|---|---|---|
| `Varint.Zigzag32` | lib/go/thrift/compact_protocol.go:744-746 | undoing 32-bit zigzag after doing it is the identity, for the shift-and-xor forms on wrapping integers |
| `Varint.Zigzag32Onto` | lib/go/thrift/compact_protocol.go:800-802 | and the other way round: zigzag is a bijection on 32-bit integers |
| `Varint.Zigzag64` | lib/go/thrift/compact_protocol.go:738-740 | the same for 64 bits |
| `Varint.Zigzag64Onto` | lib/go/thrift/compact_protocol.go:806-808 | and onto |
| `Varint.EncodeFits` | lib/go/thrift/compact_protocol.go:696-734 | a varint never overruns its 5- or 10-byte buffer |
| `Varint.EncodePrefixFree` | lib/go/thrift/compact_protocol.go:696-734 | no varint is a proper prefix of another |
| `Varint.ReadWriteVarint32` | lib/go/thrift/compact_protocol.go:760-770 | the 32-bit reader, which goes through the 64-bit loop and truncates, returns the integer written and leaves what follows untouched |
| `Varint.ReadWriteVarint64` | lib/go/thrift/compact_protocol.go:773-788 | the same for 64 bits |
| `Varint.PutVarint32` | lib/go/thrift/compact_protocol.go:696-714 | the writing loop leaves exactly the encoding in the buffer, at most 5 bytes of it |
| `Varint.PutVarint64` | lib/go/thrift/compact_protocol.go:718-734 | the same for 64 bits, at most 10 bytes |
| `Varint.GetVarint64` | lib/go/thrift/compact_protocol.go:773-788 | the reading loop, which accumulates with wrap-around, computes the mathematical decode on every byte sequence, including its two failures |
| `Configuration.CheckContainerSize` | lib/go/thrift/configuration.go:369-405 | a count is accepted if and only if it is non-negative, within the container limit, and its minimum size is within the message limit and the bytes known to remain; no intermediate product wraps |
| `Configuration.AcceptedCountIsBacked` | lib/go/thrift/configuration.go:369-405 | an accepted count is at most the remaining bytes |
| `Configuration.CheckSize` | lib/go/thrift/configuration.go:341-355 | accepted if and only if between zero and the message limit, with the right error otherwise |
| `RoundTrip.WriteValueEncodes` | lib/go/thrift/compact_protocol.go:180-300 | writing any value appends exactly its encoding and leaves the field-id stack, the current id and the deferred boolean as they were, in both protocols |
| `RoundTrip.WriteFieldHeaderEncodes` | lib/go/thrift/compact_protocol.go:198-247 | the short and long field headers, for all id orders, and a deferred boolean header that carries its value |
| `RoundTrip.EncAtLeastMinSize` | lib/go/thrift/compact_protocol.go:872-905 | every encoding is at least as long as the minimum its type is charged at, in both protocols |
| `RoundTrip.ElemsBackCount` | lib/go/thrift/binary_protocol.go:559-592 | the elements of a list always back its count, whatever follows |
| `RoundTrip.EntriesBackCount` | lib/go/thrift/binary_protocol.go:346-371 | the entries of a map always back its count, whatever follows |
| `RoundTrip.ReadListBeginBack` | lib/go/thrift/compact_protocol.go:515-541 | a list header reads back exactly when the count fits the limits, in both forms of the header |
| `RoundTrip.ReadMapBeginBack` | lib/go/thrift/compact_protocol.go:483-507 | a map header reads back exactly when the count fits the limits |
| `RoundTrip.ReadCompactFieldBeginBack` | lib/go/thrift/compact_protocol.go:437-476 | a compact field header gives back type and id for delta and long forms, and stashes the boolean it carries |
| `RoundTrip.ReadValueInverts` | lib/go/thrift/compact_protocol.go:418-565 | in front of any bytes, reading an encoded value returns it (up to types of empty compact maps), consumes exactly its bytes and restores the reader's state; it is refused with a size-limit error exactly when it does not fit the limits |
| `RoundTrip.CanonKeeps` | lib/go/thrift/compact_protocol.go:480-507 | losing the types of empty maps keeps type and nesting depth |
| `RoundTrip.CanonIsSame` | lib/go/thrift/compact_protocol.go:480-507 | a compact round trip leaves a value as it was if and only if no empty map in it declares a type |
| `RoundTrip.EmptyMapLosesItsTypes` | lib/go/thrift/compact_protocol.go:480-507 | an empty map from 32-bit integers to strings comes back without types |
| `RoundTrip.WriteThenRead` | lib/go/thrift/binary_protocol.go:147-511 | what a writer appended is read back by a reader of the same protocol |
| `Messages.WriteMessageBeginEncodes` | lib/go/thrift/binary_protocol.go:108-133 | for every 32-bit message type, strict, non-strict and compact message headers are written as the grammar has them |
| `Messages.ReadMessageBeginInverts` | lib/go/thrift/binary_protocol.go:272-316 | for every 32-bit message type, name and sequence id come back with as much of the type as the header carries; a strict reader refuses the unversioned header, every reader refuses a versioned one whose type reaches into the version, and a name over the limit is refused |
| `Messages.CarriedWhole` | lib/go/thrift/binary_protocol.go:108-133 | the type comes back if and only if it fits: 0 to 255 versioned, 8 signed bits unversioned, 0 to 7 compact |
| `Messages.LargeTypes` | lib/go/thrift/compact_protocol.go:162 | type 8 comes back as 0 from a compact header, and type 0x20000 makes a versioned one unreadable |
| `Messages.VersionedIs` | lib/go/thrift/binary_protocol.go:110 | a type set in the version word leaves the version readable if and only if its upper half adds no bit to it |
| `Messages.ReadCompactHeaderInverts` | lib/go/thrift/compact_protocol.go:370-412 | the same for the compact header, which carries three bits of the type |
| `Skipping.SkipIsPaidFor` | lib/go/thrift/protocol.go:94-188 | on arbitrary bytes, one plus the nested calls of a successful skip is at most the bytes consumed, except for a boolean carried by its field header |
| `Skipping.SkipFollowsRead` | lib/go/thrift/protocol.go:94-188 | on arbitrary bytes, a skip ends where a full read ends and in its state when the value is no deeper than the budget, fails with the depth error when it is deeper, and fails when the read fails |
| `Skipping.SkipEncoded` | lib/go/thrift/protocol.go:94-188 | over an encoded value: past exactly its bytes, or the depth error exactly when it is deeper than the budget |
| `Duplicate.WriteValueTotal` | lib/go/thrift/compact_protocol.go:180-300 | writing any value, well typed or not, succeeds and keeps the depth of the field-id stack |
| `Duplicate.TeeReadsThenWrites` | lib/go/thrift/duplicate_protocol.go:187-303 | on arbitrary bytes, reading through the duplicating protocol is the delegate's read followed by writing the value read to the copy, although the two are interleaved call by call |
| `Duplicate.TeeTranscodes` | lib/go/thrift/duplicate_protocol.go:187-303 | over an encoded value the copy receives exactly the bytes its own writer emits, from binary to compact and back (modulo types of empty maps) |
| `Protocol.SafeReadBytes` | lib/go/thrift/binary_protocol.go:604-630 | returns the bytes asked for or those there are, whatever the pieces they come in, and never holds a buffer over twice what arrived |
| `Protocol.TProtocol.WriteFieldBegin` | lib/go/thrift/compact_protocol.go:198-208 | takes the writer's step: binary header, compact header or deferred boolean |
| `Protocol.TProtocol.WriteFieldBeginInternal` | lib/go/thrift/compact_protocol.go:211-245 | takes the step of the delta or long header |
| `Protocol.TProtocol.WriteStructBegin` | lib/go/thrift/compact_protocol.go:180-186 | pushes the current field id |
| `Protocol.TProtocol.WriteStructEnd` | lib/go/thrift/compact_protocol.go:189-196 | pops it |
| `Protocol.TProtocol.WriteMapBegin` | lib/go/thrift/compact_protocol.go:254-265 | takes the map header step |
| `Protocol.TProtocol.WriteListBegin` | lib/go/thrift/compact_protocol.go:682-692 | takes the list header step |
| `Protocol.TProtocol.WriteBool` | lib/go/thrift/compact_protocol.go:285-299 | writes a byte, or the header that was deferred |
| `Protocol.TProtocol.WriteI64` | lib/go/thrift/binary_protocol.go:234-239 | takes the 64-bit step, through the scratch buffer |
| `Protocol.TProtocol.WriteString` | lib/go/thrift/compact_protocol.go:334-345 | takes the string step |
| `Protocol.TProtocol.ReadFieldBegin` | lib/go/thrift/compact_protocol.go:437-476 | takes the field header step and its errors |
| `Protocol.TProtocol.ReadStructEnd` | lib/go/thrift/compact_protocol.go:426-435 | pops the field id, or fails on an empty stack |
| `Protocol.TProtocol.ReadMapBegin` | lib/go/thrift/compact_protocol.go:483-507 | takes the map header step and its errors |
| `Protocol.TProtocol.ReadListBegin` | lib/go/thrift/compact_protocol.go:515-541 | takes the list header step and its errors |
| `Protocol.TProtocol.ReadBool` | lib/go/thrift/compact_protocol.go:558-565 | takes the stashed boolean, or a byte |
| `Protocol.TProtocol.ReadI64` | lib/go/thrift/binary_protocol.go:456-461 | takes the 64-bit step and its errors |
| `Protocol.TProtocol.ReadString` | lib/go/thrift/compact_protocol.go:613-635 | takes the string step and its errors |
| `Protocol.SkipValue` | lib/go/thrift/protocol.go:94-188 | the recursive skip over the mutable protocol agrees with the specification, result and state |
| `Protocol.SkipStructFields` | lib/go/thrift/protocol.go:125-143 | the field loop agrees |
| `Protocol.SkipListElems` | lib/go/thrift/protocol.go:161-184 | the element loop agrees |
| `Protocol.SkipMapEntries` | lib/go/thrift/protocol.go:144-160 | the entry loop agrees |
| `Protocol.TDuplicateToProtocol.ReadFieldBegin` | lib/go/thrift/duplicate_protocol.go:199-207 | advances the delegate, then writes the header or the stop to the copy |
| `Protocol.TDuplicateToProtocol.ReadStructBegin` | lib/go/thrift/duplicate_protocol.go:187-191 | the same for a struct |
| `Protocol.TDuplicateToProtocol.ReadMapBegin` | lib/go/thrift/duplicate_protocol.go:215-219 | the same for a map header |
| `Protocol.TDuplicateToProtocol.ReadListBegin` | lib/go/thrift/duplicate_protocol.go:227-231 | the same for a list header |
| `Protocol.TDuplicateToProtocol.ReadScalar` | lib/go/thrift/duplicate_protocol.go:251-303 | the same for every scalar |
| `Drivers.PutValue` | lib/go/thrift/protocol.go:29-88 | a whole value written through the object takes the writer's steps over it |
| `Drivers.GetValue` | lib/go/thrift/protocol.go:29-88 | a whole value read through the object takes the reader's steps, on any bytes |
| `Drivers.CopyValue` | lib/go/thrift/duplicate_protocol.go:187-303 | a whole value read through the duplicating object takes both sides' steps |
| `Drivers.SendAndReceive` | lib/go/thrift/compact_protocol.go:180-565 | written through one object and read through another, a value comes back exactly when it fits the reader's limits |
| `Drivers.Transcode` | lib/go/thrift/duplicate_protocol.go:187-303 | reading through the duplicating object leaves on the copy exactly the bytes of the other protocol's writer |
| `JsonText.StateIsParity` | lib/go/thrift/simple_json_protocol.go:1012-1021 | counting backslashes backwards finds the state of the forward scanner of section 7 of RFC 8259 |
| `JsonText.CloseByPieces` | lib/go/thrift/simple_json_protocol.go:964-1010 | looking at one piece at a time finds the closing quote of the forward scanner |
| `JsonText.StringBodyEnds` | lib/go/thrift/simple_json_protocol.go:964-1010 | on every input the reader stops at the quote where the forward scanner stops, fails when there is none, and refuses for size exactly when one of its two parts is over the limit |
| `JsonText.AtMostTwiceTheLimit` | lib/go/thrift/simple_json_protocol.go:964-1010 | no accepted string is longer than twice the limit |
| `JsonText.TwiceTheLimitAccepted` | lib/go/thrift/simple_json_protocol.go:964-1010 | for every limit a string of exactly twice that size is accepted |
| `JsonText.EndsWithoutEscapedQuote` | lib/go/thrift/simple_json_protocol.go:1012-1021 | the backward loop computes the parity test |
| `JsonText.ReadBinaryBounded` | lib/go/thrift/simple_json_protocol.go:946-962 | the chunked loop returns up to the delimiter or refuses for size, whatever the chunks |
| `JsonText.ReadStringBody` | lib/go/thrift/simple_json_protocol.go:964-1010 | the loop over pieces computes the end of the string |
| `JsonLexemes.ReadNumberBack` | lib/go/thrift/simple_json_protocol.go:1278-1405 | a printed integer, quoted as a key or not, reads back and stops in front of what ends it; refused exactly when its digits exceed the limit |
| `JsonLexemes.UnescapeEscape` | lib/go/thrift/simple_json_protocol.go:205-215 | unescaping undoes escaping for both writers, and fails exactly on a bare control byte from the JavaScript one |
| `JsonLexemes.UnescapeIffWellFormed` | lib/go/thrift/simple_json_protocol.go:211-215 | unquoting, with wide escapes and surrogate pairs decoded to UTF-8, succeeds on exactly the strings section 7 of RFC 8259 allows |
| `JsonLexemes.ReadTextExactly` | lib/go/thrift/simple_json_protocol.go:964-988 | any input that starts with a quote: refused without a closing quote, refused for size, decoded when well-formed, and when malformed refused if a quote occurs inside and read as empty without an error if none does |
| `JsonLexemes.ReadWithoutError` | lib/go/thrift/simple_json_protocol.go:964-973 | within the limits a string is read without an error if and only if it is well-formed or has no quote inside |
| `JsonLexemes.MalformedReadsAsEmpty` | lib/go/thrift/simple_json_protocol.go:970-973 | the malformed string of a backslash and an x reads as empty |
| `JsonLexemes.WideEscapeReads` | lib/go/thrift/simple_json_protocol.go:964-973 | an escape past one byte is decoded to the bytes of its character |
| `JsonLexemes.CloseOverEscaped` | lib/go/thrift/simple_json_protocol.go:964-988 | no quote inside an escaped text ends it |
| `JsonLexemes.ReadTextBack` | lib/go/thrift/json_protocol.go:383-411 | a string written by either side, in front of any bytes: refused for size exactly when one of its two parts is over the limit; otherwise it comes back unless the JavaScript side left a bare control byte in it, in which case it is refused or lost |
| `JsonPrint.PutAllMoves` | lib/go/thrift/simple_json_protocol.go:642-680 | commas, colons and quoted keys are placed by the context stack, and the stack ends where the tokens lead |
| `JsonPrint.WriteValuePuts` | lib/go/thrift/json_protocol.go:94-185 | the protocol's calls over any value put exactly the value's tokens, in order, errors included |
| `JsonPrint.ValueMoves` | lib/go/thrift/simple_json_protocol.go:660-826 | however deep a value nests, writing it completes exactly one value in the context it started in |
| `JsonPrint.WriteValuePrints` | lib/go/thrift/simple_json_protocol.go:744-826 | printing any value in any context succeeds, appends its text and advances the stack by one value |
| `JsonParse.TakesInt` | lib/go/thrift/simple_json_protocol.go:1041-1061 | the parser takes a printed integer in any context and its stack moves as the printer's did |
| `JsonParse.TakesStr` | lib/go/thrift/json_protocol.go:383-411 | the same for a string |
| `JsonParse.TakesOpen` | lib/go/thrift/simple_json_protocol.go:1085-1151 | the same for an opening bracket |
| `JsonParse.TakesShut` | lib/go/thrift/simple_json_protocol.go:1105-1130 | the same for a closing bracket |
| `JsonParse.ValueAtLeast` | lib/go/thrift/simple_json_protocol.go:1153-1186 | no value prints shorter than the minimum its type is charged at |
| `JsonParse.TakesFieldHead` | lib/go/thrift/json_protocol.go:263-281 | a field's id and type read back |
| `JsonParse.TakesListHead` | lib/go/thrift/json_protocol.go:477-505 | a list's type and count read back, refused exactly when they exceed the limits |
| `JsonParse.TakesMapHead` | lib/go/thrift/json_protocol.go:287-327 | a map's types and count read back, refused exactly when they exceed the limits |
| `JsonParse.ReadValueBack` | lib/go/thrift/json_protocol.go:254-411 | parsing a value printed by either writer, with anything behind it that may follow a value, stops right after it with the parser's stack where the printer's is, and returns exactly what `Arrives` says: each string as it reads back, or the first reason to refuse the value |
| `JsonParse.ArrivesWhole` | lib/go/thrift/json_protocol.go:254-411 | what the Go printer wrote arrives whole or is refused for size, exactly by the limits; what the JavaScript writer printed arrives whole if and only if it fits and has no bare control byte |
| `JsonParse.WriteThenRead` | lib/go/thrift/json_protocol.go:83-411 | print, then parse, at the outermost level: the value comes back, refused exactly when it does not fit the limits |
| `JsonParse.WriteMessagePrints` | lib/go/thrift/json_protocol.go:59-81 | a whole message resets the stack, appends its text and returns to the outermost level |
| `JsonParse.ReadMessageBack` | lib/go/thrift/json_protocol.go:221-252 | a whole message as either writer prints it, read from whatever state the parser's stack was left in |
| `JsonParse.MessageRoundTrip` | lib/go/thrift/json_protocol.go:221-252 | a whole message comes back whatever state earlier failures left either stack in, refused exactly when something in it exceeds the limits |
| `JsonProtocol.TJSONProtocol.constructor` | lib/go/thrift/json_protocol.go:41-46 | both stacks start with the outermost context, pushed twice |
| `JsonProtocol.CollectNumeric` | lib/go/thrift/simple_json_protocol.go:1278-1405 | the character loop computes the number scan, with its errors |
| `JsonProtocol.TJSONProtocol.OutputPreValue` | lib/go/thrift/simple_json_protocol.go:642-658 | writes the separator the context asks for |
| `JsonProtocol.TJSONProtocol.OutputPostValue` | lib/go/thrift/simple_json_protocol.go:660-680 | replaces the top of the stack |
| `JsonProtocol.TJSONProtocol.OutputI64` | lib/go/thrift/simple_json_protocol.go:744-761 | takes the printer's step: quoted in key position |
| `JsonProtocol.TJSONProtocol.OutputString` | lib/go/thrift/simple_json_protocol.go:763-771 | takes the printer's step |
| `JsonProtocol.TJSONProtocol.OutputOpen` | lib/go/thrift/simple_json_protocol.go:778-812 | takes the printer's step for an object or a list |
| `JsonProtocol.TJSONProtocol.OutputClose` | lib/go/thrift/simple_json_protocol.go:789-826 | takes the printer's step, failing on an empty stack |
| `JsonProtocol.TJSONProtocol.WriteFieldBegin` | lib/go/thrift/json_protocol.go:94-109 | id, brace, type name |
| `JsonProtocol.TJSONProtocol.WriteMapBegin` | lib/go/thrift/json_protocol.go:117-139 | bracket, type names, count, brace |
| `JsonProtocol.TJSONProtocol.WriteListBegin` | lib/go/thrift/json_protocol.go:460-475 | bracket, type name, count |
| `JsonProtocol.TJSONProtocol.WriteMessageBegin` | lib/go/thrift/json_protocol.go:59-77 | resets both stacks and writes the envelope |
| `JsonProtocol.TJSONProtocol.ParsePreValue` | lib/go/thrift/simple_json_protocol.go:841-899 | consumes whitespace and the separator the context asks for, or fails |
| `JsonProtocol.TJSONProtocol.ParsePostValue` | lib/go/thrift/simple_json_protocol.go:901-921 | consumes whitespace and replaces the top of the stack |
| `JsonProtocol.TJSONProtocol.ReadNonSignificantWhitespace` | lib/go/thrift/simple_json_protocol.go:923-937 | the loop drops exactly the leading whitespace |
| `JsonProtocol.TJSONProtocol.ParseI64` | lib/go/thrift/simple_json_protocol.go:1041-1061 | takes the parser's step, null included |
| `JsonProtocol.TJSONProtocol.ReadString` | lib/go/thrift/json_protocol.go:383-411 | takes the parser's step, null and the silent failure included |
| `JsonProtocol.TJSONProtocol.ParseOpen` | lib/go/thrift/simple_json_protocol.go:1085-1151 | takes the parser's step for an object or a list, null included |
| `JsonProtocol.TJSONProtocol.ParseClose` | lib/go/thrift/simple_json_protocol.go:1105-1130 | takes the parser's step, with the check on what precedes the bracket |
| `JsonProtocol.TJSONProtocol.ReadFieldBegin` | lib/go/thrift/json_protocol.go:263-281 | takes the parser's step, end of struct included |
| `JsonProtocol.TJSONProtocol.ReadMapBegin` | lib/go/thrift/json_protocol.go:287-327 | takes the parser's step and its errors |
| `JsonProtocol.TJSONProtocol.ReadListBegin` | lib/go/thrift/json_protocol.go:477-505 | takes the parser's step and its errors |
| `JsonProtocol.TJSONProtocol.ReadMessageBegin` | lib/go/thrift/json_protocol.go:221-247 | resets both stacks and reads the envelope |
| `JsonDrivers.PutMessage` | lib/go/thrift/json_protocol.go:59-193 | a whole message written through the object takes the printer's steps |
| `JsonDrivers.GetMessage` | lib/go/thrift/json_protocol.go:221-411 | a whole message read through the object takes the parser's steps, on any bytes |
| `JsonDrivers.SendAndReceive` | lib/go/thrift/json_protocol.go:59-411 | written through one object and read through another, a message comes back exactly when it fits the reader's limits |
| `JsonDrivers.SendFromJavaScript` | lib/js/src/thrift.js:811-1063 | written through the JavaScript object and read through the Go one, a message comes back if and only if it fits the limits and has no bare control byte |
| `JsWriter.Protocol.WriteStructEnd` | lib/js/src/thrift.js:846-864 | the key loop turns the object into its text, properties in insertion order |
| `JsWriter.Protocol.WriteFieldEnd` | lib/js/src/thrift.js:883-890 | two entries go, one property is set |
| `JsWriter.Protocol.PopEntries` | lib/js/src/thrift.js:929-942 | popping from the end and prepending gives the entries in the order written, numeric keys quoted |
| `JsWriter.Protocol.WriteMapEnd` | lib/js/src/thrift.js:914-947 | the whole map becomes one entry, its count taken from what was written, a missing last value filled in |
| `JsWriter.Protocol.WriteListEnd` | lib/js/src/thrift.js:962-972 | the splice loop keeps the order of the elements |
| `JsWriter.Protocol.WriteString` | lib/js/src/thrift.js:1034-1063 | the character loop escapes the string |
| `JsWriter.Protocol.WriteValue` | lib/js/src/thrift.js:838-1063 | any nesting of calls for a value leaves exactly one more stack entry, the recursive print of the value, and the positions as they were |
| `JsWriter.Protocol.WriteMessageEnd` | lib/js/src/thrift.js:822-831 | the message text is the joined envelope and body |
| `JsWriter.Protocol.WriteMessage` | lib/js/src/thrift.js:811-831 | a whole message is its printed text and leaves both stacks empty |
| `JsWriter.FieldKeysDiffer` | lib/js/src/thrift.js:872-890 | distinct field ids are distinct properties, so none is overwritten |
| `JsWriter.PutNew` | lib/js/src/thrift.js:883-890 | a new property goes last |
| `JsWriter.EntriesPrinted` | lib/js/src/thrift.js:929-942 | the popped entries are the recursive print of the map's entries |
| `JsInterop.ValueText` | lib/js/src/thrift.js:838-1063 | in every context the JavaScript print of a value is its tokens' text under the JavaScript escapes, whatever its strings |
| `JsInterop.MessageText` | lib/js/src/thrift.js:811-831 | and so for whole messages |
| `JsInterop.ValueAgrees` | lib/js/src/thrift.js:1034-1063 | in every context the two writers print a value alike if every byte of its strings is plain, and the JavaScript text is shorter if not |
| `JsInterop.SameMessage` | lib/js/src/thrift.js:811-831 | the two writers print the same message if and only if its name and strings have neither a bare control byte nor one of < > & |
| `JsInterop.GoReadsJavaScript` | lib/go/thrift/json_protocol.go:221-252 | a message printed by the JavaScript writer comes back from the Go protocol if and only if it fits the limits and no string in it has a bare control byte; without one it comes back or is refused for size |
| `JsInterop.BareControlIsLost` | lib/go/thrift/simple_json_protocol.go:970-973 | the string of the single byte 1 arrives empty without an error |
| `Framed.ReadFrame` | lib/go/thrift/framed_transport.go:229-245 | every frame read shortens the stream: the measure of the empty-frame loop |
| `Framed.ReadFrameTakesOne` | lib/go/thrift/framed_transport.go:229-245 | exactly one frame comes off a framed stream, end-of-file when there is none |
| `Framed.ReadServesOneFrame` | lib/go/thrift/framed_transport.go:134-169 | a read returns bytes of one frame only, skips empty frames, and reports end-of-file exactly when no byte is left |
| `Framed.ReadsReturnTheFrames` | lib/go/thrift/framed_transport.go:134-169 | any run of reads of positive sizes returns the frames' bytes in order |
| `Framed.RoundTrip` | lib/go/thrift/framed_transport.go:187-245 | enough reads return exactly the concatenation of everything flushed, empty frames included |
| `Framed.TFramedTransport.Write` | lib/go/thrift/framed_transport.go:187-191 | appends to the write buffer |
| `Framed.TFramedTransport.Flush` | lib/go/thrift/framed_transport.go:203-227 | emits one frame or refuses for size, and in both cases drops the buffer |
| `Framed.TFramedTransport.NextFrame` | lib/go/thrift/framed_transport.go:229-245 | takes the frame-reading step and its errors |
| `Framed.TFramedTransport.ReadInto` | lib/go/thrift/framed_transport.go:134-169 | the read loop takes the step over all empty frames |
| `Header.Padding` | lib/go/thrift/header_transport.go:743-751 | fewer than four zero bytes bring a header block to a multiple of four |
| `HeaderRoundTrip.InsertRebuilds` | lib/go/thrift/header_transport.go:734-741 | storing the entries of a map in any order rebuilds the map |
| `HeaderRoundTrip.ReadInfoBack` | lib/go/thrift/header_transport.go:578-611 | key-value info in front of padding is read back |
| `HeaderRoundTrip.ReadTransformsBack` | lib/go/thrift/header_transport.go:516-560 | the list of transforms is accepted exactly when it has at most one |
| `HeaderRoundTrip.ParseHeadersBack` | lib/go/thrift/header_transport.go:475-614 | a header block gives back sequence id, flags, protocol id and headers, and the payload stays |
| `HeaderRoundTrip.ReadFrameTakesFrame` | lib/go/thrift/header_transport.go:371-462 | a frame's length word is never mistaken for the start of a message |
| `HeaderRoundTrip.FlushedFits` | lib/go/thrift/header_transport.go:688-696 | nothing in a frame that passed the sender's check exceeds the reader's limits |
| `HeaderRoundTrip.FlushThenReadFrame` | lib/go/thrift/header_transport.go:699-800 | a frame flushed in headers mode gives a reader with the same limits its sequence id, low 16 flag bits, protocol id, header map in any iteration order and payload; accepted exactly when it lists at most one transform |
| `HeaderRoundTrip.TwoTransformsRefused` | lib/go/thrift/header_transport.go:530-535 | a sender that lists two transforms flushes without error and its frame is refused |
| `HeaderStream.ReadServesOneFlush` | lib/go/thrift/header_transport.go:628-671 | over a stream of any flushes, a read returns bytes of one flush only, reports end-of-file exactly when none is left, and with a flush's first bytes come its sequence id, flags, protocol id and headers |
| `HeaderStream.ReadsReturnThePayloads` | lib/go/thrift/header_transport.go:628-671 | any run of reads of positive sizes returns the flushed payloads in order |
| `HeaderStream.RoundTrip` | lib/go/thrift/header_transport.go:628-800 | enough reads return exactly what was flushed, however often and with whatever headers |
| `HeaderRoundTrip.DrainFrameReturnsPayload` | lib/go/thrift/header_transport.go:628-671 | reads of any sizes return the payload in order and nothing past it |
| `HeaderRoundTrip.DetectsUnframed` | lib/go/thrift/header_transport.go:399-407 | every compact message start, and every strict binary one whose type leaves the version readable, is recognised unframed, left on the stream, and read with its own protocol |
| `HeaderRoundTrip.DetectsFramed` | lib/go/thrift/header_transport.go:440-455 | and recognised inside a frame |
| `HeaderRoundTrip.RepliesFramed` | lib/go/thrift/header_transport.go:802-815 | in a framed dialect a flush emits one frame that a framed reader turns into the write buffer |
| `HeaderRoundTrip.UnframedStays` | lib/go/thrift/header_transport.go:616-626 | over every run on an unframed connection the dialect is never detected again and what is sent plus what waits is what was written |
| `HeaderTransport.THeaderTransport.ParseHeaders` | lib/go/thrift/header_transport.go:475-614 | takes the parsing step and its errors |
| `HeaderTransport.THeaderTransport.Classify` | lib/go/thrift/header_transport.go:440-461 | takes the classification step |
| `HeaderTransport.THeaderTransport.ReadFrame` | lib/go/thrift/header_transport.go:371-462 | takes the frame-reading step and its errors |
| `HeaderTransport.THeaderTransport.Read` | lib/go/thrift/header_transport.go:628-671 | the read loop takes the step |
| `HeaderTransport.THeaderTransport.Flush` | lib/go/thrift/header_transport.go:699-825 | takes the flush step for some enumeration of the header map |
| `HeaderTransport.BuildBlock` | lib/go/thrift/header_transport.go:713-752 | the header block is built as the format has it |
| `HeaderTransport.ParseTransforms` | lib/go/thrift/header_transport.go:516-560 | the transform loop takes its step |
| `HeaderTransport.ParseInfo` | lib/go/thrift/header_transport.go:578-611 | the info loop takes its step |
| `HeaderTransport.EmitPairs` | lib/go/thrift/header_transport.go:734-741 | the loop over the map emits the pairs of some enumeration |
| `SimpleServer.StepKeeps` | lib/go/thrift/simple_server.go:195-287 | every move of every goroutine keeps the invariant |
| `SimpleServer.NoMisuse` | lib/go/thrift/simple_server.go:195-287 | in every reachable state the wait group counts exactly the goroutines not yet exited, nothing panics, and every selecting watcher watches the current stop channel |
| `SimpleServer.OneInside` | lib/go/thrift/simple_server.go:195-209 | while a Stop is in progress no accept loop is inside the mutex, so nothing is added to a wait group that is being waited on |
| `SimpleServer.StopWaitsForAll` | lib/go/thrift/simple_server.go:258-287 | once any Stop has returned, every goroutine of every connection has exited |
| `SimpleServer.StoppedForGood` | lib/go/thrift/simple_server.go:258-287 | and over every continuation no connection is taken up again |
| `SimpleServer.ClosedChannelFreesWatchers` | lib/go/thrift/simple_server.go:221-230 | once the stop channel is closed, nothing keeps a watcher from leaving |
| `SimpleServer.StopCanMove` | lib/go/thrift/simple_server.go:258-287 | in every reachable state with a Stop in progress, a stopper, its helper, a handler or a watcher can move |
| `SimpleServer.MoveDoesWork` | lib/go/thrift/simple_server.go:195-287 | every such move does some of the work that is left, and no move of an accept loop adds to it |
| `SimpleServer.StopIsBounded` | lib/go/thrift/simple_server.go:258-287 | however the moves interleave, a Stop is through after at most as many moves of its own side as there was work |
| `StableVector.SlotInLevel` | contrib/fb303/TClientInfo.h:101-116 | every index has a slot inside its level |
| `StableVector.SlotHasOneIndex` | contrib/fb303/TClientInfo.h:101-116 | a slot belongs to an index if and only if the index is the level's start plus the offset: a bijection |
| `StableVector.LevelsAreAdjacent` | contrib/fb303/TClientInfo.h:85-95 | consecutive levels cover consecutive indexes |
| `StableVector.SupportedIndexes` | contrib/fb303/TClientInfo.h:85-116 | the shifts stay in range exactly below 2^31, and the levels needed stay below the 64 reserved |
| `StableVector.FirstUnsupportedIndex` | contrib/fb303/TClientInfo.h:85-116 | index 2^31 needs a level of 2^31 elements, one more than a signed shift can give |
| `StableVector.Vector.Expand` | contrib/fb303/TClientInfo.h:85-95 | adds the missing levels, leaving those there are where they are |
| `StableVector.Vector.Which` | contrib/fb303/TClientInfo.h:101-116 | finds the slot, grows if needed, updates the size |
| `StableVector.Vector.Get` | contrib/fb303/TClientInfo.h:125-130 | reads the flat vector's element and changes none |
| `StableVector.Vector.Set` | contrib/fb303/TClientInfo.h:125-130 | writes the flat vector's element; no other element changes and none changes its place |
| `StableVector.StepKeeps` | contrib/fb303/TClientInfo.h:85-116 | every move of every thread keeps published levels in place and sized, and levels only grow |
| `StableVector.UnlockedUseIsSafe` | contrib/fb303/TClientInfo.h:101-130 | over every interleaving, a thread that passed the unlocked test finds its level in place and its slot inside it, and over every continuation no level is moved or resized |
| `StableVector.OneGrower` | contrib/fb303/TClientInfo.h:85-95 | one thread at a time adds levels |
| `UnorderedEqual.PrefixDropped` | lib/go/thrift/unordered_equal.go:45-58 | taking off the common prefix does not change the answer |
| `UnorderedEqual.Unmatched` | lib/go/thrift/unordered_equal.go:60-73 | an element without a partner occurs more often on its side, so greedy matching never gives up too early |
| `UnorderedEqual.FullyMatched` | lib/go/thrift/unordered_equal.go:60-74 | a complete matching means equal multiplicities |
| `UnorderedEqual.MatchUp` | lib/go/thrift/unordered_equal.go:58-74 | the matching loops, with their array of marks, decide equality of multiplicities |
| `UnorderedEqual.UnorderedEqual` | lib/go/thrift/unordered_equal.go:40-75 | for every equivalence, true if and only if both sides hold each class with the same multiplicity |
| `UnorderedEqual.SameElementsIsMultiset` | lib/go/thrift/unordered_equal.go:36-39 | for plain equality that is equality of multisets |
| `TornadoLock.StepKeeps` | lib/py/src/TTornado.py:38-65 | every step of every schedule keeps the invariant |
| `TornadoLock.MutualExclusion` | lib/py/src/TTornado.py:38-65 | at most one client holds the lock, and its future heads the deque |
| `TornadoLock.GrantedInOrder` | lib/py/src/TTornado.py:46-53 | the lock is granted in the order it was asked for |
| `TornadoLock.ReleasesItsOwn` | lib/py/src/TTornado.py:55-58 | leaving never trips the assertion and resolves the leaver's own future |
| `TornadoLock.ReleaseWakesTheNext` | lib/py/src/TTornado.py:55-58 | leaving makes exactly the next client resumable, and none was before |
| `TornadoLock.NeverStuck` | lib/py/src/TTornado.py:46-58 | while anyone is queued, a client is inside or the head can go in |
| `TornadoLock.QueueLock.Enqueue` | lib/py/src/TTornado.py:46-51 | queues a future and hands out the blocker |
| `TornadoLock.QueueLock.PopAndResolve` | lib/py/src/TTornado.py:55-58 | pops the head and resolves it |

## Left out

- Compression: payloads are untransformed, and a flush with a compressing transform is outside the header theorems.
- Base64, floating-point text and the JSON forms of doubles, binaries and UUIDs; doubles in the wire protocols are their 64-bit patterns.
- The quoting of Go's JSON library beyond an escape and unescape pair: invalid UTF-8 is not replaced, and U+2028 and U+2029 are written as their bytes.
- Generated struct code: values are written and read by a generic typed traversal, so unknown fields are read rather than skipped and required fields are not checked.
- What the fields hold after a failed call: a method that reports an error says which error, and leaves its object's state open; the same goes for the copy after a delegate's read has failed.
- Sockets, deadlines, retries and contexts: a transport is the bytes that have arrived and the bytes that have been sent, and a read of an unframed connection returns what is there up to the size asked for.
- TProtocol: one object for the binary and the compact protocol, which are two types in the source with the same methods.
- ReadNumeric: leaves out the special number values; reading one is an error in the model.
- Flush: on the framed transport, stated for one that has been written to since the last flush; the source has no buffer to measure otherwise.
- Get and Set: stated for the indexes below 2^31, the ones `StableVector.SupportedIndexes` shows to be supported.
- The JSON reader's sizes are compared as unbounded numbers, where the source first narrows them to 32 bits.
- TSimpleJSONProtocol: its own field and map layout, and skipping in JSON.
- SimpleServer: Accept returns at any time with any result, so that Interrupt makes it return is not stated; requests are served until they end, and that closing a connection ends them is not stated either.
- StableVector: the size counter under concurrency, which the surrounding class documents as approximate, and the release of storage.
- TornadoLock: a waiting coroutine that is abandoned before it is resumed.
- JsWriter: texts are their UTF-8 bytes; null strings, repeated field ids and unnamed types are outside it, and a message name is taken to need no escaping, since the source does not escape it: it has no byte below 32, no quote and no backslash, as the identifiers of the interface language do not.
- The JavaScript reader and transports, the Lua and C ports, and everything else in the repository.

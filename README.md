# thriftit core in Dafny

`thriftit.py` is a small Thrift-style serialisation library. A schema is
made of typed, tagged struct fields. Two codecs read and write values of
such a schema:

- the **Binary codec** writes fixed-width big-endian scalars and 4-byte
  length prefixes, and writes each struct field as a type byte, a 2-byte
  tag and the value;
- the **Compact codec** writes integers as zigzag varints. It writes struct
  fields in ascending tag order, each behind a one-byte header that holds
  the tag delta and the type. A boolean travels in the header's type
  nibble. Lists and sets carry their size in a nibble when it is below 15,
  and maps carry a varint count.

The model has seven modules:

- `Wire` (`wire.dfy`): bytes, the exceptions of the codecs as an `Error`
  datatype, and `struct.pack`/`struct.unpack` for big-endian integers.
- `Streams` (`streams.dfy`): the output and input streams as classes. A
  read past the end returns fewer bytes, as `StringIO.read` does.
- `Zigzag` (`zigzag.dfy`): `int_to_zigzag`, `long_to_zigzag` and
  `zigzag_to_int`. They are written with Python's unbounded `<<`, `>>` and
  `^`, are total on every integer, and are proved equal to the arithmetic
  zigzag mapping in range.
- `Varint` (`varint.dfy`): `_dump_varint` and `_load_varint` as loops, and
  the byte layout as functions. The loader's OR-assignment to `num` is Python's bitwise
  OR, proved equal to addition on the disjoint bits it combines.
- `Schema` (`schema.dfy`): type ids, `_type_to_symbol`, `Field`,
  `add_field`, `Struct.__init__`, the types and values, and the equality a
  Python `set` or `dict` applies to its elements or keys.
- `BinaryCodec` (`binary.dfy`) and `CompactCodec` (`compact.dfy`):
  - each codec's wire format as `Encode`/`Decode` functions;
  - its `_dump_*`/`_load_*` handlers as methods on the streams, each proved
    to write or read exactly what the functions say;
  - round-trip lemmas for every type: loading what `dump` wrote gives the
    value back and leaves the following input untouched. For the Compact
    codec this holds with the corrected list reader (see "## Findings"); as
    written, a Compact list or set of 15 or more elements does not load.

A decoder takes the remaining input and gives back either an error or the
value together with the input after it. Each `Load*` method is tied to its
decoder: on success it returns the decoded value and the stream is left
exactly after it; on error it returns the same error.

Sets and dicts follow Python's equality. Two floats are the same when they
are equal as numbers, so `0.0` and `-0.0` merge and a NaN never matches.
Two struct instances are never the same, because `Struct` defines no
`__eq__` or `__hash__`. A list, set or dict cannot be a set element or a
dict key: loading one raises `Unhashable`, as Python's TypeError does.

## Model

| member | source | states |
|---|---|---|
| Schema.TypeId | thriftit.py:485-522 | every type class has a `type_id` between 2 and 15, so it fits the compact type nibble; the two string classes share id 11 |
| Schema.Symbol | thriftit.py:52-66 | `_type_to_symbol` has an entry for every type id of the model and maps it to itself, never to the stop or the false-boolean symbol |
| Schema.NewField | thriftit.py:526-532 | `Field` succeeds exactly when the tag is positive, keeping the given type, tag, initial value and optional flag; otherwise it raises with that tag |
| Schema.StructType.constructor | thriftit.py:540 | a struct type starts with no fields |
| Schema.StructType.AsType | thriftit.py:555-556 | `fields()` is a struct type with well-formed fields, and it is a type of the model exactly when every tag is below 2^16 and every field type is one too; the Binary codec can write the struct exactly then, while the Compact codec also writes a tag of 2^16 or more that follows the previous tag by 1..15 |
| Schema.StructType.AddField | thriftit.py:547-553 | a repeated name raises DuplicateName and a new name with a repeated tag raises DuplicateTag, both leaving the fields as they were; otherwise exactly the new field is added; names and tags stay distinct; adding a field with a tag below 2^16 and a writable type to a writable struct keeps it writable |
| Schema.FindTag | thriftit.py:404 | the `tag_to_field` lookup finds a field that has the tag, and finds none exactly when no field has it |
| Schema.FindTagOf | thriftit.py:140 | with distinct tags, the lookup of a field's tag finds that field |
| Schema.HashableById | thriftit.py:217-218 | a value can be a set element or dict key (`Schema.Hashable`) exactly when its type id is not that of a list, set or dict; the Unhashable failures are shown by `BinaryCodec.SetOfListsFails` and `BinaryCodec.MapWithListKeyFails` |
| Schema.SameMeaning | thriftit.py:158 | the equality a set or dict applies (`Schema.Same`) is symmetric; a struct instance is never the same as anything, a NaN never equals anything, the two zeros equal each other, and every other value is the same only as itself; `Schema.StructsNotMerged`, `Schema.ZerosMerged` and `Schema.NaNsKept` show it on sets |
| Schema.SetAdd | thriftit.py:217-218 | adding one element to a set keeps the earlier elements in order and adds at most one; the element is then present or equal to one already there; a set without repeats stays without repeats |
| Schema.Dedup | thriftit.py:217-218 | `set(...)` of the loaded items has no two elements that Python counts as equal, holds only loaded items, and every loaded item is in it or equal to one of its elements |
| Schema.DedupOfDistinct | thriftit.py:217-218 | `set(...)` of items no two of which Python counts as equal keeps them all, in the same order |
| Schema.StructsNotMerged | thriftit.py:561-564 | a struct instance is never merged into a set of struct instances, whatever its attributes, since `Struct` compares by identity |
| Schema.StructsKept | thriftit.py:561-564 | `set(...)` of struct instances keeps every instance in order, even two with equal attributes |
| Schema.ZerosMerged | thriftit.py:217-218 | `set([0.0, -0.0])` keeps only `0.0` |
| Schema.NaNsKept | thriftit.py:217-218 | `set([nan, nan])` keeps both NaNs, since a NaN equals nothing |
| Schema.Put | thriftit.py:158 | `result[key] = value` adds at most one entry and never changes an existing key |
| Schema.PutSpec | thriftit.py:158 | `result[key] = value` appends the pair when no key equals `key` in Python's sense; otherwise the first such entry keeps its old key and takes the value, and every other entry stays where it was |
| Schema.PutDistinct | thriftit.py:158 | storing into a dictionary keeps its keys pairwise unequal |
| Schema.PutPrefix | thriftit.py:155-158 | with unequal keys, storing entry i extends the entries stored before it |
| Schema.ZeroKeyKept | thriftit.py:158 | storing under `-0.0` in a dict keyed by `0.0` keeps the key `0.0` and takes the new value |
| Schema.FillFromSpec | thriftit.py:574-576 | the constructor loop pops every field name from the value dictionary and sets an attribute for each field |
| Schema.FillFromValues | thriftit.py:574-576 | each field's attribute is the popped value when the name was given, its initial value otherwise; earlier attributes survive |
| Schema.StructInit | thriftit.py:566-578 | `Struct.__init__` raises only the two TypeErrors, for unexpected arguments or an unexpected keyword |
| Schema.StructInitSpec | thriftit.py:566-578 | TypeError "unexpected arguments" exactly for two or more positional arguments or one plus keywords; TypeError for a keyword exactly when a keyword names no field; otherwise the attributes are exactly the field names, each with its given or initial value |
| Schema.StructInitExact | thriftit.py:566-578 | keywords naming exactly the fields construct an instance with exactly those attributes |
| Schema.InitStruct | thriftit.py:566-578 | the constructor's loop gives the result `StructInitSpec` describes |
| Schema.NamesOfPermutation | thriftit.py:292 | reordering the fields does not change the set of their names |
| Wire.ToBigEndian | thriftit.py:134 | `pack` of an unsigned value writes exactly the format's width in bytes |
| Wire.FromBigEndian | thriftit.py:145 | `unpack` of an unsigned field gives a value below 256 to the power of its width |
| Wire.BigEndianRoundTrip | thriftit.py:145 | unsigned `unpack` undoes `pack` |
| Wire.BigEndianInverse | thriftit.py:145 | unsigned `pack` undoes `unpack` of every byte string |
| Wire.ToSigned | thriftit.py:242 | a signed `unpack` lands in the format's signed range |
| Wire.PackSigned | thriftit.py:184-191 | signed `pack` writes exactly the width's bytes |
| Wire.UnpackSigned | thriftit.py:242 | signed `unpack` lands in the width's signed range |
| Wire.PackSignedRoundTrip | thriftit.py:237-259 | `unpack('!h'/'!i'/'!q')` undoes `pack` of every value in range |
| Wire.PackSignedInverse | thriftit.py:237-259 | signed `pack` undoes `unpack` of every byte string |
| Streams.OutputStream.Write | thriftit.py:179 | `stream.write` appends the bytes and changes nothing else |
| Streams.InputStream.Read | thriftit.py:393 | `stream.read(n)` returns the next `min(n, remaining)` bytes and moves past them |
| Zigzag.Xor | thriftit.py:474 | Python's `^` on unbounded integers is negative exactly when one operand is |
| Zigzag.IntToZigzag | thriftit.py:476-479 | `int_to_zigzag` of any integer is non-negative, so it can be written as a varint |
| Zigzag.LongToZigzag | thriftit.py:471-474 | `long_to_zigzag` of any integer is non-negative |
| Zigzag.ZigzagToInt | thriftit.py:481-483 | `zigzag_to_int` of a non-negative u is negative exactly when u is odd |
| Zigzag.IntToZigzagIn32 | thriftit.py:476-479 | on the 32-bit range, `int_to_zigzag` is 2n for n >= 0 and -2n-1 for n < 0, below 2^32 |
| Zigzag.LongToZigzagIn64 | thriftit.py:471-474 | on the 64-bit range, `long_to_zigzag` is the same mapping, below 2^64 |
| Zigzag.ZigzagToIntOfValue | thriftit.py:481-483 | `zigzag_to_int` undoes the zigzag mapping of every integer |
| Zigzag.ValueOfZigzagToInt | thriftit.py:481-483 | `zigzag_to_int` of an even u is u/2 and of an odd u is -(u/2)-1, and the zigzag mapping undoes it |
| Zigzag.IntZigzagRoundTrip | thriftit.py:476-483 | `zigzag_to_int(int_to_zigzag(n)) == n` on the 32-bit range |
| Zigzag.LongZigzagRoundTrip | thriftit.py:471-483 | `zigzag_to_int(long_to_zigzag(n)) == n` on the 64-bit range |
| Zigzag.IntZigzagOnto | thriftit.py:476-483 | every u below 2^32 decodes into the 32-bit range, and `int_to_zigzag` gives u back |
| Zigzag.LongZigzagOnto | thriftit.py:471-483 | every u below 2^64 decodes into the 64-bit range, and `long_to_zigzag` gives u back |
| Varint.VarintBytes | thriftit.py:326-333 | `_dump_varint` writes at least one byte |
| Varint.VarintDecode | thriftit.py:458-468 | a successful varint read consumes input, and an empty input fails at end of stream |
| Varint.VarintLayout | thriftit.py:326-333 | byte i carries bits 7i..7i+6; every byte but the last has the 0x80 bit set and the last has it clear |
| Varint.VarintLength | thriftit.py:326-333 | a value takes k bytes exactly when 128^(k-1) <= num < 128^k, and one byte when it is below 128 |
| Varint.VarintAtMost | thriftit.py:326-333 | a value below 128^k takes at most k bytes |
| Varint.VarintRoundTrip | thriftit.py:458-468 | `_load_varint` gives back the dumped value and stops right after its last byte |
| Varint.Or | thriftit.py:464 | Python's bitwise OR on non-negative integers is at least each operand |
| Varint.OrDisjoint | thriftit.py:464 | when num < 2^shift, OR-ing in g shifted left by shift is num + g * 2^shift, since the bits do not overlap |
| Varint.DumpVarint | thriftit.py:326-333 | the loop writes exactly the varint bytes of the value |
| Varint.LoadVarint | thriftit.py:458-468 | the loop, OR-ing 7-bit groups into disjoint bits, reads what the varint decoder says, and fails at the end of input |
| BinaryCodec.EncodeBool | thriftit.py:178-179 | a boolean is one byte, the false symbol exactly for false |
| BinaryCodec.EncodeString | thriftit.py:196-197 | a string is its length as a 4-byte unsigned big-endian number followed by its bytes |
| BinaryCodec.FieldHeader | thriftit.py:133-134 | a field header is three bytes: the field type's symbol, never the stop byte, then the tag as a 2-byte unsigned number |
| BinaryCodec.SeqHeader | thriftit.py:200-201 | a list or set header is five bytes: the element symbol, then the count as a 4-byte unsigned number |
| BinaryCodec.MapHeader | thriftit.py:165-167 | a map header is six bytes: the key and value symbols, then the count as a 4-byte signed number |
| BinaryCodec.Encode | thriftit.py:72-74 | every value is written as at least one byte |
| BinaryCodec.EncodeFields | thriftit.py:132-136 | the fields from i on write nothing exactly when none is left, and otherwise start with the next field's symbol, which is never the stop byte |
| BinaryCodec.Dump | thriftit.py:72-74 | the dispatch writes exactly the encoding of the value under its type |
| BinaryCodec.DumpBool | thriftit.py:178-179 | writes 2 for true and 1 for false |
| BinaryCodec.DumpByte | thriftit.py:181-182 | writes the byte itself |
| BinaryCodec.DumpSigned | thriftit.py:184-191 | writes the signed big-endian pattern of the width |
| BinaryCodec.DumpDouble | thriftit.py:193-194 | writes the 8-byte pattern |
| BinaryCodec.DumpString | thriftit.py:196-197 | writes an unsigned 4-byte length, then the bytes |
| BinaryCodec.DumpStruct | thriftit.py:131-136 | writes each field as its symbol, its 2-byte tag and its value, in the schema's order, then the stop byte |
| BinaryCodec.DumpSeq | thriftit.py:199-206 | writes the element symbol, an unsigned 4-byte count and the elements in order |
| BinaryCodec.DumpMap | thriftit.py:161-170 | writes the key and value symbols, a signed 4-byte count, then each key followed by its value |
| BinaryCodec.Load | thriftit.py:76-78 | the dispatch reads exactly what `Decode` says for the type: a set drops every element equal to an earlier one, a dict keeps the first of two equal keys, and a list, set or dict as a set element or dict key raises Unhashable |
| BinaryCodec.LoadBool | thriftit.py:226-228 | reads one byte, which is true unless it is 1; fails at the end of input |
| BinaryCodec.LoadByte | thriftit.py:230-235 | reads one unsigned byte; fails at the end of input |
| BinaryCodec.LoadSigned | thriftit.py:237-259 | reads a signed big-endian integer of the width; fails on a short read |
| BinaryCodec.LoadDouble | thriftit.py:261-267 | reads the 8-byte pattern; fails on a short read |
| BinaryCodec.LoadString | thriftit.py:269-279 | reads a signed 4-byte length, refuses a negative one, then reads exactly that many bytes, failing on a short read |
| BinaryCodec.LoadStruct | thriftit.py:138-148 | reads fields until the stop byte, looks up each tag, and constructs the instance from the values read |
| BinaryCodec.LoadSeq | thriftit.py:208-218 | skips the element type byte, reads an unsigned 4-byte count, then that many elements |
| BinaryCodec.LoadMap | thriftit.py:150-159 | skips the two type bytes, reads a signed count, then stores that many key/value pairs |
| BinaryCodec.LoadList | thriftit.py:214-215 | `list(...)` of the loaded elements reads what `Decode` says for a list |
| BinaryCodec.LoadSet | thriftit.py:217-218 | `set(...)` of the loaded elements reads what `Decode` says for a set |
| BinaryCodec.LoadEntries | thriftit.py:155-158 | the pair loop reads and stores what the pair decoder says, and fails as it does |
| BinaryCodec.DecodeBool | thriftit.py:226-228 | a successful read consumes input |
| BinaryCodec.DecodeByte | thriftit.py:230-235 | a successful read consumes input |
| BinaryCodec.DecodeSigned | thriftit.py:237-259 | a successful read consumes input and gives an integer in the width's signed range |
| BinaryCodec.DecodeDouble | thriftit.py:261-267 | a successful read consumes input |
| BinaryCodec.DecodeString | thriftit.py:269-279 | a successful read consumes input |
| BinaryCodec.Decode | thriftit.py:76-78 | every successful load consumes input |
| BinaryCodec.DecodeFields | thriftit.py:142-148 | a successful struct read consumes input |
| BinaryCodec.DecodeSeq | thriftit.py:208-212 | a successful list or set read consumes input |
| BinaryCodec.DecodeItems | thriftit.py:211-212 | the element loop never grows the input |
| BinaryCodec.DecodeMap | thriftit.py:150-159 | a successful map read consumes input |
| BinaryCodec.DecodeEntries | thriftit.py:155-158 | the pair loop never grows the input |
| BinaryCodec.SignedRoundTrip | thriftit.py:237-259 | each signed loader gives back what the matching dumper wrote, and leaves the rest |
| BinaryCodec.StringRoundTrip | thriftit.py:269-279 | a string shorter than 2^31 bytes loads back exactly |
| BinaryCodec.NegativeLengthFails | thriftit.py:272 | a negative length prefix fails, whatever follows it |
| BinaryCodec.DoubleRoundTrip | thriftit.py:261-267 | the 8-byte pattern loads back |
| BinaryCodec.RoundTrip | thriftit.py:72-78 | for every type and conforming value, `load` of what `dump` wrote gives the value and the rest of the input |
| BinaryCodec.StructRoundTrip | thriftit.py:131-148 | a struct instance loads back with exactly its attributes |
| BinaryCodec.SeqRoundTrip | thriftit.py:199-218 | a list or set loads back with the same elements in the same order |
| BinaryCodec.MapRoundTrip | thriftit.py:150-170 | a map loads back with the same pairs in the same order |
| BinaryCodec.SeqHeaderParts | thriftit.py:209 | an `!BI` header reads back as its count, with the body right after it |
| BinaryCodec.MapHeaderParts | thriftit.py:153-159 | after an `!BBi` header, the map is the pairs the body loads as, and loading goes on after them |
| BinaryCodec.FieldStep | thriftit.py:143-147 | a non-stop byte, a known tag and a value store that value under the field's name and go on after it |
| BinaryCodec.FieldsRoundTrip | thriftit.py:142-147 | the fields from i on load back onto the values already read |
| BinaryCodec.FieldsCons | thriftit.py:142-147 | the same, for a non-empty remainder |
| BinaryCodec.FieldHead | thriftit.py:143-147 | field i is found by its tag and its value stored, and loading goes on after it |
| BinaryCodec.HeaderParts | thriftit.py:134 | a field header is read as a non-stop byte followed by the field's tag |
| BinaryCodec.ItemStep | thriftit.py:211-212 | one element is read and appended to the ones before |
| BinaryCodec.ItemsRoundTrip | thriftit.py:211-212 | the elements from i on load back after the ones already read |
| BinaryCodec.ItemsCons | thriftit.py:211-212 | the same, for a non-empty remainder |
| BinaryCodec.ItemHead | thriftit.py:211-212 | element i is read and appended, and loading goes on after it |
| BinaryCodec.EntryStep | thriftit.py:155-158 | one key and then its value are read and stored |
| BinaryCodec.EntriesRoundTrip | thriftit.py:155-158 | the entries from i on load back after the ones already stored |
| BinaryCodec.EntriesCons | thriftit.py:155-158 | the same, for a non-empty remainder |
| BinaryCodec.EntryHead | thriftit.py:155-158 | entry i is read and stored, and loading goes on after it |
| BinaryCodec.UnknownTagFails | thriftit.py:146 | a tag that names no field fails the load with that tag |
| BinaryCodec.TypeByteIgnored | thriftit.py:143 | the type byte of a field header is only compared with the stop byte, so any other value reads the same |
| BinaryCodec.SetOfListsFails | thriftit.py:217-218 | a set of lists raises Unhashable at its first element, since a list cannot be put in a set |
| BinaryCodec.MapWithListKeyFails | thriftit.py:155-158 | a dict keyed by lists raises Unhashable at its first key, since a list cannot be a dict key |
| CompactCodec.InsertByTag | thriftit.py:292 | inserting one field makes the sequence one longer |
| CompactCodec.SortByTag | thriftit.py:292 | sorting by tag is a permutation of the fields |
| CompactCodec.InsertCount | thriftit.py:292 | inserting adds exactly one occurrence of the field |
| CompactCodec.InsertMembers | thriftit.py:292 | inserting brings in no other field |
| CompactCodec.InsertSorted | thriftit.py:292 | inserting into a tag-sorted sequence keeps it sorted |
| CompactCodec.InsertAscending | thriftit.py:292 | inserting a new tag into a strictly ascending sequence keeps it strictly ascending |
| CompactCodec.SortByTagSorted | thriftit.py:292 | the sorted fields are the same fields, in non-decreasing tag order, and strictly ascending when the tags are distinct |
| CompactCodec.LastTagNew | thriftit.py:292 | with distinct tags, the last field's tag is not among the fields sorted before it |
| CompactCodec.DeltasPositive | thriftit.py:300-301 | in tag order each delta from the previous tag (0 at the start) is positive |
| CompactCodec.FieldNibble | thriftit.py:294-299 | a boolean field's nibble is 2 for true and 1 for false; every other type's nibble is never 0, 1 or 2 |
| CompactCodec.EncodeInt | thriftit.py:349-353 | any integer is written; one in the 32-bit range takes one to five bytes |
| CompactCodec.IntWidth | thriftit.py:349-353 | the zigzag varint of a 32-bit integer takes at most five bytes |
| CompactCodec.EncodeLong | thriftit.py:355-356 | any integer is written; one in the 64-bit range takes one to ten bytes |
| CompactCodec.LongWidth | thriftit.py:355-356 | the zigzag varint of a 64-bit integer takes at most ten bytes |
| CompactCodec.EncodeString | thriftit.py:367-369 | a string is the varint of its length followed by its bytes, and the varint reads back as that length |
| CompactCodec.FieldHeader | thriftit.py:300-304 | a field header is one byte exactly when the delta is in 1..15, the delta in the high nibble, for a tag of any size; otherwise three bytes, high nibble 0 and the 2-byte tag, which must be below 2^16; the low nibble is always the type |
| CompactCodec.SeqHeader | thriftit.py:312-319 | a list or set header is one byte exactly when the size is at most 14 |
| CompactCodec.MapBody | thriftit.py:340-347 | after the count, an empty map writes nothing and a non-empty one starts with its key/value type byte |
| CompactCodec.EncodeFields | thriftit.py:292-307 | the fields from i on in tag order write nothing exactly when none is left |
| CompactCodec.Encode | thriftit.py:72-74 | every value is written as at least one byte |
| CompactCodec.Dump | thriftit.py:72-74 | the dispatch writes exactly the compact encoding of the value under its type |
| CompactCodec.DumpInt | thriftit.py:349-353 | writes the varint of `int_to_zigzag` of any integer, as `_dump_i16` and `_dump_i32` do without a range check |
| CompactCodec.DumpLong | thriftit.py:355-356 | writes the varint of `long_to_zigzag` of any integer |
| CompactCodec.DumpString | thriftit.py:367-369 | writes the varint length, then the bytes |
| CompactCodec.DumpFieldHeader | thriftit.py:300-304 | writes one byte, the delta in the high nibble and the type in the low one, for a delta in 1..15, else the type byte and a 2-byte tag |
| CompactCodec.DumpField | thriftit.py:293-307 | writes the header of field i in tag order and, unless it is a boolean, its value; the next field's delta is taken from its tag |
| CompactCodec.DumpStruct | thriftit.py:289-308 | writes the fields in ascending tag order, each behind its delta header, then the stop byte |
| CompactCodec.DumpSeqHeader | thriftit.py:312-319 | writes one byte, the size in the high nibble and the element type in the low one, for sizes up to 14; else the high nibble 15 and a varint size |
| CompactCodec.DumpSeq | thriftit.py:310-321 | writes the header, then the elements in order |
| CompactCodec.DumpMap | thriftit.py:335-347 | writes the varint count; for a non-empty map, then the key/value type byte and each key followed by its value |
| CompactCodec.DumpEntries | thriftit.py:345-347 | writes each key followed by its value |
| CompactCodec.Load | thriftit.py:76-78 | with the corrected list reader, the dispatch reads exactly what `Decode` says for the type: a set drops every element equal to an earlier one, a dict keeps the first of two equal keys, and a list, set or dict as a set element or dict key raises Unhashable |
| CompactCodec.LoadBool | thriftit.py:374-375 | reads one byte, which is true only when it is 2; fails at the end of input |
| CompactCodec.LoadZigzag | thriftit.py:383-389 | reads a varint and converts it back from zigzag |
| CompactCodec.LoadString | thriftit.py:391-394 | reads a varint length, then up to that many bytes |
| CompactCodec.LoadFieldTag | thriftit.py:410-418 | the tag is the previous tag plus the high nibble, or a 2-byte tag when that nibble is 0 |
| CompactCodec.LoadStruct | thriftit.py:402-426 | reads fields until a stop nibble, takes booleans from the nibble and other values from the stream, then constructs the instance |
| CompactCodec.LoadSeq | thriftit.py:439-456 | with the corrected varint call, reads the size nibble, and the varint after it when the nibble is 15, then that many elements |
| CompactCodec.LoadSeqHeader | thriftit.py:441-445 | with the corrected varint call, the header reader reads what the header decoder says |
| CompactCodec.LoadItems | thriftit.py:447-448 | the element loop reads what the element decoder says, and fails as it does |
| CompactCodec.LoadList | thriftit.py:450-452 | `list(...)` of the loaded elements reads what `Decode` says for a list |
| CompactCodec.LoadSet | thriftit.py:454-456 | `set(...)` of the loaded elements reads what `Decode` says for a set |
| CompactCodec.LoadEntries | thriftit.py:433-436 | reads n pairs, each key before its value |
| CompactCodec.LoadMap | thriftit.py:428-437 | reads the varint count; for a positive count, skips the type byte and reads the pairs |
| CompactCodec.DecodeBool | thriftit.py:374-375 | a successful read consumes input |
| CompactCodec.DecodeZigzag | thriftit.py:383-389 | a successful read consumes input |
| CompactCodec.DecodeString | thriftit.py:391-394 | a successful read consumes input |
| CompactCodec.FieldTag | thriftit.py:408-418 | reading a field's tag consumes its header |
| CompactCodec.DecodeSeqHeader | thriftit.py:441-445 | reading a list header consumes input |
| CompactCodec.DecodeSeqHeaderAsWritten | thriftit.py:441-445 | reading a list header consumes input |
| CompactCodec.Decode | thriftit.py:76-78 | with the corrected list reader, every successful load consumes input |
| CompactCodec.DecodeFields | thriftit.py:407-426 | a successful struct read consumes input |
| CompactCodec.Construct | thriftit.py:426 | the instance is built after the stop byte, and loading goes on right after it |
| CompactCodec.DecodeSeq | thriftit.py:439-448 | with the corrected list reader, a successful list or set read consumes input |
| CompactCodec.DecodeSeqAsWritten | thriftit.py:439-448 | a successful list or set read consumes input |
| CompactCodec.DecodeItems | thriftit.py:447-448 | the element loop never grows the input |
| CompactCodec.DecodeMap | thriftit.py:428-437 | a successful map read consumes input |
| CompactCodec.DecodeEntries | thriftit.py:433-436 | the pair loop never grows the input |
| CompactCodec.IntRoundTrip | thriftit.py:383-386 | a 16- or 32-bit integer loads back from its zigzag varint |
| CompactCodec.LongRoundTrip | thriftit.py:388-389 | a 64-bit integer loads back from its zigzag varint |
| CompactCodec.IntOutOfRange | thriftit.py:352-353 | an I32 value x from 2^31 to 2^32-1, which `_dump_i32` accepts, loads back as -x-1 |
| CompactCodec.I16BeyondWidth | thriftit.py:383-386 | an I16 value beyond 16 bits but within the signed 32-bit range is written and loads back as itself, since neither side checks 16 bits |
| CompactCodec.StringRoundTrip | thriftit.py:391-394 | a string of any length loads back exactly |
| CompactCodec.ShortStringTruncated | thriftit.py:393 | a string whose input ends before its length is reached loads as the bytes that are there, without an error |
| CompactCodec.RoundTrip | thriftit.py:72-78 | with the corrected list reader, for every type and conforming value, `load` of what `dump` wrote gives the value and the rest of the input |
| CompactCodec.StructRoundTrip | thriftit.py:289-308 | with the corrected list reader, a struct instance loads back with exactly its attributes |
| CompactCodec.SeqRoundTrip | thriftit.py:310-321 | with the corrected list reader, a list or set of any size loads back with the same elements in the same order |
| CompactCodec.MapRoundTrip | thriftit.py:335-347 | a map loads back with the same pairs in the same order |
| CompactCodec.MapBodyRoundTrip | thriftit.py:431-436 | after the count of a non-empty map, skipping one byte and reading the pairs gives them back |
| CompactCodec.HeaderParts | thriftit.py:408-418 | both header forms read back as their type nibble and the field's tag |
| CompactCodec.WideTagByDelta | thriftit.py:300-304 | a tag of 2^16 or more one above the previous tag is written as the single byte `(1 << 4)` plus the type, and `_load_struct` reads it back as that tag |
| CompactCodec.BoolFieldStep | thriftit.py:421-422 | a type nibble of 2 or 1 stores a boolean under the field's name, whatever type the field declares, and reads no value bytes |
| CompactCodec.ValueFieldStep | thriftit.py:423-425 | any other non-stop nibble reads the value by the field's declared type, and its tag becomes the previous tag |
| CompactCodec.StopStep | thriftit.py:412-413 | a stop nibble ends the struct whatever tag came before |
| CompactCodec.FieldsRoundTrip | thriftit.py:407-425 | the fields from i on in tag order load back onto the values already read |
| CompactCodec.FieldsCons | thriftit.py:407-425 | the same, for a non-empty remainder |
| CompactCodec.FieldHead | thriftit.py:420-425 | field i of the tag order is found by its tag and stored, and loading goes on with its tag as the previous one |
| CompactCodec.SeqHeaderRoundTrip | thriftit.py:441-445 | the corrected header reader gives back every size: one byte up to 14, a varint from 15 |
| CompactCodec.SeqHeaderAsWritten | thriftit.py:445 | the header reader as written gives back sizes up to 14 and raises NameError for every size from 15 |
| CompactCodec.SeqAsWrittenFails | thriftit.py:445 | a list or set of 15 or more elements that `_dump_seq` wrote does not load with the reader as written |
| CompactCodec.ElemTypeIgnored | thriftit.py:443 | the element type nibble of a list header is not looked at |
| CompactCodec.EmptyMap | thriftit.py:339-340 | an empty map is the single byte 0, and that byte loads back as the empty map |
| CompactCodec.MapTypesIgnored | thriftit.py:432 | the key/value type byte of a non-empty map is skipped without being checked |
| CompactCodec.UnknownTagFails | thriftit.py:420 | a tag that names no field fails the load with that tag |
| CompactCodec.ItemStep | thriftit.py:447-448 | one element is read and appended to the ones before |
| CompactCodec.ItemsRoundTrip | thriftit.py:447-448 | the elements from i on load back after the ones already read |
| CompactCodec.ItemsCons | thriftit.py:447-448 | the same, for a non-empty remainder |
| CompactCodec.ItemHead | thriftit.py:447-448 | element i is read and appended, and loading goes on after it |
| CompactCodec.EntryStep | thriftit.py:433-436 | one key and then its value are read and stored |
| CompactCodec.EntriesRoundTrip | thriftit.py:433-436 | the entries from i on load back after the ones already stored |
| CompactCodec.EntriesCons | thriftit.py:433-436 | the same, for a non-empty remainder |
| CompactCodec.EntryHead | thriftit.py:433-436 | entry i is read and stored, and loading goes on after it |

## Left out

- Doubles are modelled as their 8-byte IEEE-754 bit pattern. `pack('!d')` and `unpack('!d')` are a bijection on those patterns, and no floating-point arithmetic is modelled.
- The UTF-8 and UTF-16 handlers (`_dump_utf8`, `_load_utf16` and the others) are left out, because text encoding is not modelled. In the source they are reachable only through the type ids 16 and 17, which no type class uses.
- `Unicode` values are modelled as byte strings under the string id 11. The source writes the `unicode` object itself, so `len(val)` counts code points rather than bytes. In Python 2 the Binary `pack("!I", len(val)) + val` (thriftit.py:197) also decodes the packed length as ASCII, which raises UnicodeDecodeError when a length byte is 0x80 or above. Neither the code-point length nor that error is modelled.
- `Codec.dumps`/`Codec.loads` and `Struct.dumps`/`loads`/`dump`/`load` are left out. They only wrap `dump`/`load` with a `StringIO` buffer, which the stream classes stand for.
- JSON loading (`_atom_type` and what follows it) is not part of this model.
- The `StructType` metaclass's scan of a class body is left out: it calls `add_field` once per `Field` attribute, which `Schema.StructType.AddField` models. `subtype` is left out too: it only builds a named class holding the element, key or value types, which the `Type` datatype carries directly.
- `Exception` and `Service` are left out: they add no behaviour beyond `Struct` and `Type`.
- Python dictionary and set iteration order is not modelled. A struct's fields are a sequence in one fixed order, and set and map values are sequences in iteration order. The Binary codec writes fields in that order, and the Compact codec sorts them by tag.
- `field.initial()`: the factory call is modelled as the value it returns.
- `Conforms` bounds integers by the widths of the Binary `struct.pack` formats. It bounds list and set counts below 2^32, the unsigned `!I` count. It bounds string lengths and map counts below 2^31: the signed `!i` count the Binary codec writes for maps, and the signed length it reads back for strings. `ValidType` excludes tags of 2^16 or more, which the Binary `pack('!BH', ...)` always rejects (thriftit.py:134). These bounds apply to the dumpers as well as to the round-trip lemmas.
- BinaryCodec.Dump: values outside `Conforms` and `ValidType` are not accepted, so the `struct.error` that `pack` raises for an integer, count or tag out of range is not modelled.
- Schema.StructType.AddField: like `add_field`, it does not check that a tag fits two bytes. A struct with a tag of 2^16 or more is not `ValidType`, and the codec dumpers, loaders and round trips are not modelled on it.
- Schema.StructType.AsType: `ValidType` is a restriction of the model for the Compact codec. Compact `_dump_struct` calls `pack('!BH', ...)` only when the tag delta is outside 1..15 (thriftit.py:301-304). So it also writes a tag of 2^16 or more that follows the previous tag by 1..15, as the one-byte header, and `_load_struct` reads it back as the previous tag plus the delta (thriftit.py:417-418). The header members `CompactCodec.FieldHeader`, `CompactCodec.DumpFieldHeader` and `CompactCodec.HeaderParts` cover that case, because they require a tag below 2^16 only for the two-byte form (`CompactCodec.WideTagByDelta`). The struct-level Compact members still require `ValidType`.
- BinaryCodec.StringRoundTrip: proved only for lengths below 2^31. `_dump_string` writes the length unsigned, but `_load_string` reads it back as a signed 32-bit integer. A length from 2^31 to 2^32-1 therefore reads as negative and fails its assertion (`BinaryCodec.NegativeLengthFails`).
- CompactCodec.RoundTrip: proved for the same `Conforms` values as the Binary codec. This leaves out integers outside their declared width, which the Compact dumpers accept. An I16 value beyond 16 bits but within the signed 32-bit range still loads back as itself, since `int_to_zigzag` and `_load_i16` work on 32 bits (`CompactCodec.IntRoundTrip`, `CompactCodec.I16BeyondWidth`). An I16 or I32 value x from 2^31 to 2^32-1 loads back as -x-1 (`CompactCodec.IntOutOfRange`); other values beyond 32 bits are not stated. It also leaves out lengths and counts of 2^31 or more, which only the Binary format limits.
- CompactCodec.Dump: requires `Conforms` like the Binary dumper, although `_dump_i16`, `_dump_i32` and `_dump_i64` (thriftit.py:349-356) accept any integer and the Compact lengths are unbounded varints. `CompactCodec.DumpInt` and `CompactCodec.DumpLong` themselves take any integer.
- CompactCodec.SortByTagSorted: with repeated tags, stability is not stated. The schema's distinct tags make it irrelevant.
- The Compact struct reader takes a type nibble of 1 or 2 as a boolean whatever the field's declared type. Since no other type id is 1 or 2, this cannot trigger on data the codec wrote (`CompactCodec.BoolFieldStep`).
- Python equality and hashing are modelled only as far as a set or dict of loaded values of one declared type needs them (`Schema.Same`). Floats compare as numbers, struct instances by identity, other scalars and strings by value, and containers are unhashable. Equalities across types (`1 == 1.0`, `True == 1`) cannot arise among values of one declared type, and hash values themselves are not modelled.
- BinaryCodec.Encode and CompactCodec.Encode: their own contracts state only that the output is non-empty. What the bytes are is stated by the header and scalar functions' contracts and by the round-trip lemmas.
- CompactCodec.SeqHeader: its contract states only when the header is one byte. The varint that follows a size of 15 or more is stated by `CompactCodec.SeqHeaderRoundTrip`.
- Varint.VarintBytes: its contract states only that the output is non-empty. The layout is stated by `Varint.VarintLayout` and `Varint.VarintLength`.
- Exceptions are modelled as `Error` values. A decoding error propagates at once, and no partial state is observed.

## Findings

| source | as written | input that shows it | evidently intended | confidence | as-written member | corrected member |
|---|---|---|---|---|---|---|
| thriftit.py:445 | `_load_seq` calls `_load_varint(stream)` without `self.`, so a size nibble of 15 raises NameError | a list or set of 15 or more elements as `_dump_seq` writes it, e.g. the header byte 0xF8 followed by the varint 15 for 15 32-bit integers | `self._load_varint(stream)`: read the size from the varint that follows, so every list `_dump_seq` writes loads back | not executed | CompactCodec.DecodeSeqHeaderAsWritten, CompactCodec.SeqHeaderAsWritten, CompactCodec.SeqAsWrittenFails | CompactCodec.DecodeSeqHeader, CompactCodec.SeqHeaderRoundTrip, CompactCodec.LoadSeqHeader, CompactCodec.LoadSeq, CompactCodec.DecodeSeq, CompactCodec.Decode, CompactCodec.Load, CompactCodec.RoundTrip, CompactCodec.StructRoundTrip, CompactCodec.SeqRoundTrip |

/**
 * The Compact codec: zigzag varints for integers, varint length prefixes,
 * struct fields in ascending tag order behind one-byte tag-delta headers
 * (booleans carried in the header's type nibble), nibble-packed list and
 * set sizes, and maps behind a varint count.
 *
 * Type nibbles are the Binary type ids (every type id of the model is at
 * most 15), the long field header carries a 2-byte big-endian tag, and the
 * booleans are 2 for true and 1 for false.
 */
module CompactCodec {
  import opened Wire
  import opened Schema
  import opened Streams
  import opened Zigzag
  import opened Varint
  import BinaryCodec

  // ---------------------------------------------------------------------
  // `sorted(fields, key=_by_tag)`
  // ---------------------------------------------------------------------

  /** Inserting a field after every field whose tag is not greater, which keeps the sort stable. */
  function InsertByTag(s: seq<NamedField>, x: NamedField): (r: seq<NamedField>)
    ensures |r| == |s| + 1
  {
    if |s| == 0 then [x]
    else if x.field.tag < s[0].field.tag then [x] + s
    else [s[0]] + InsertByTag(s[1..], x)
  }

  /** The fields ordered by tag, as `sorted` with the `_by_tag` key returns them. */
  function SortByTag(fs: seq<NamedField>): (r: seq<NamedField>)
    ensures multiset(r) == multiset(fs)
    ensures |r| == |fs|
  {
    if |fs| == 0 then []
    else
      var k := |fs| - 1;
      InsertCount(SortByTag(fs[..k]), fs[k]);
      assert fs == fs[..k] + [fs[k]];
      InsertByTag(SortByTag(fs[..k]), fs[k])
  }

  lemma {:induction false} InsertCount(s: seq<NamedField>, x: NamedField)
    ensures multiset(InsertByTag(s, x)) == multiset(s) + multiset{x}
  {
    if |s| > 0 && x.field.tag >= s[0].field.tag {
      InsertCount(s[1..], x);
      assert s == [s[0]] + s[1..];
    }
  }

  predicate NonDecreasing(fs: seq<NamedField>)
  {
    forall a, b :: 0 <= a < b < |fs| ==> fs[a].field.tag <= fs[b].field.tag
  }

  predicate Ascending(fs: seq<NamedField>)
  {
    forall a, b :: 0 <= a < b < |fs| ==> fs[a].field.tag < fs[b].field.tag
  }

  /** Inserting adds the one field and nothing else. */
  lemma InsertMembers(s: seq<NamedField>, x: NamedField)
    ensures forall y :: y in InsertByTag(s, x) ==> y == x || y in s
  {
    InsertCount(s, x);
    assert forall y :: y in InsertByTag(s, x) ==> y in multiset(InsertByTag(s, x));
  }

  /** A field of `tail`, where `tail` is all of `s` after its head, sits behind the head. */
  lemma BehindHead(s: seq<NamedField>, y: NamedField)
    requires |s| > 0 && y in s[1..]
    ensures exists m :: 1 <= m < |s| && s[m] == y
  {
    var m := IndexOf(s[1..], y);
    assert s[m + 1] == y;
  }

  /** Inserting into a sequence sorted by tag keeps it sorted. */
  lemma {:induction false} InsertSorted(s: seq<NamedField>, x: NamedField)
    requires NonDecreasing(s)
    ensures NonDecreasing(InsertByTag(s, x))
  {
    if |s| > 0 && x.field.tag >= s[0].field.tag {
      var tail := s[1..];
      InsertSorted(tail, x);
      InsertMembers(tail, x);
      var rt := InsertByTag(tail, x);
      forall b | 0 <= b < |rt| ensures s[0].field.tag <= rt[b].field.tag {
        assert rt[b] in rt;
        if rt[b] != x {
          BehindHead(s, rt[b]);
        }
      }
      assert InsertByTag(s, x) == [s[0]] + rt;
    }
  }

  /** Inserting a field with a new tag into a strictly ascending sequence keeps it strictly ascending. */
  lemma {:induction false} InsertAscending(s: seq<NamedField>, x: NamedField)
    requires Ascending(s) && x.field.tag !in Tags(s)
    ensures Ascending(InsertByTag(s, x))
  {
    if |s| > 0 && x.field.tag >= s[0].field.tag {
      var tail := s[1..];
      assert x.field.tag !in Tags(tail) by {
        forall nf | nf in tail ensures nf.field.tag != x.field.tag {
          assert nf in s;
        }
      }
      InsertAscending(tail, x);
      InsertMembers(tail, x);
      var rt := InsertByTag(tail, x);
      assert s[0] in s;
      forall b | 0 <= b < |rt| ensures s[0].field.tag < rt[b].field.tag {
        assert rt[b] in rt;
        if rt[b] != x {
          BehindHead(s, rt[b]);
        }
      }
      assert InsertByTag(s, x) == [s[0]] + rt;
    }
  }

  /** With distinct tags, the last field's tag is not among the earlier fields, however they are ordered. */
  lemma LastTagNew(fs: seq<NamedField>, sorted: seq<NamedField>)
    requires DistinctTags(fs) && |fs| > 0
    requires forall nf :: nf in sorted <==> nf in fs[..|fs| - 1]
    ensures DistinctTags(fs[..|fs| - 1])
    ensures fs[|fs| - 1].field.tag !in Tags(sorted)
  {
    var k := |fs| - 1;
    forall nf | nf in sorted ensures nf.field.tag != fs[k].field.tag {
      var j := IndexOf(fs[..k], nf);
      assert fs[j] == nf;
    }
  }

  /** `sorted` keeps the fields and orders them by tag; with distinct tags the order is strict. */
  lemma {:induction false} SortByTagSorted(fs: seq<NamedField>)
    ensures forall nf :: nf in SortByTag(fs) <==> nf in fs
    ensures NonDecreasing(SortByTag(fs))
    ensures DistinctTags(fs) ==> Ascending(SortByTag(fs))
  {
    assert forall nf :: nf in SortByTag(fs) <==> nf in multiset(SortByTag(fs));
    assert forall nf :: nf in fs <==> nf in multiset(fs);
    if |fs| > 0 {
      var k := |fs| - 1;
      var init := fs[..k];
      SortByTagSorted(init);
      var sorted := SortByTag(init);
      InsertSorted(sorted, fs[k]);
      if DistinctTags(fs) {
        LastTagNew(fs, sorted);
        InsertAscending(sorted, fs[k]);
      }
    }
  }

  // ---------------------------------------------------------------------
  // The wire format, as functions
  // ---------------------------------------------------------------------

  /**
   * `_dump_i16`, `_dump_i32`: `int_to_zigzag` of the integer as a varint,
   * for any integer; a 32-bit one takes at most five bytes.
   */
  function EncodeInt(x: int): (r: seq<byte>)
    ensures -0x8000_0000 <= x < 0x8000_0000 ==> 1 <= |r| <= 5
  {
    IntWidth(x);
    VarintBytes(IntToZigzag(x))
  }

  lemma IntWidth(x: int)
    ensures -0x8000_0000 <= x < 0x8000_0000 ==> |VarintBytes(IntToZigzag(x))| <= 5
  {
    if -0x8000_0000 <= x < 0x8000_0000 {
      IntToZigzagIn32(x);
      VarintAtMost(IntToZigzag(x), 5);
    }
  }

  /**
   * `_dump_i64`: `long_to_zigzag` of the integer as a varint, for any
   * integer; a 64-bit one takes at most ten bytes.
   */
  function EncodeLong(x: int): (r: seq<byte>)
    ensures -0x8000_0000_0000_0000 <= x < 0x8000_0000_0000_0000 ==> 1 <= |r| <= 10
  {
    LongWidth(x);
    VarintBytes(LongToZigzag(x))
  }

  lemma LongWidth(x: int)
    ensures -0x8000_0000_0000_0000 <= x < 0x8000_0000_0000_0000 ==> |VarintBytes(LongToZigzag(x))| <= 10
  {
    if -0x8000_0000_0000_0000 <= x < 0x8000_0000_0000_0000 {
      LongToZigzagIn64(x);
      VarintAtMost(LongToZigzag(x), 10);
    }
  }

  /** `_dump_string`: a varint length, then the bytes. */
  function EncodeString(bytes: seq<byte>): (r: seq<byte>)
    ensures |r| > |bytes| && r[|r| - |bytes|..] == bytes
    ensures VarintDecode(r) == Ok(Parsed(|bytes|, bytes))
  {
    VarintRoundTrip(|bytes|, bytes);
    VarintBytes(|bytes|) + bytes
  }

  /**
   * The type nibble of a field header: the boolean itself (2 or 1) for a
   * boolean field, the type id otherwise.
   */
  function FieldNibble(ty: Type, x: Value): (n: byte)
    requires Conforms(ty, x)
    ensures SYM_BOOL_FALSE <= n <= 15
    ensures ty.Bool? <==> n == SYM_BOOL_TRUE || n == SYM_BOOL_FALSE
    ensures ty.Bool? ==> x == VBool(n == SYM_BOOL_TRUE)
  {
    if ty.Bool? then (if x.b then SYM_BOOL_TRUE else SYM_BOOL_FALSE) else TypeId(ty)
  }

  /**
   * A field header after the field tagged `last`: one byte with the tag
   * delta in the high nibble when the delta is 1..15, otherwise the nibble
   * alone followed by the 2-byte tag.
   */
  function FieldHeader(nibble: byte, tag: int, last: int): (r: seq<byte>)
    requires nibble < 16 && 0 <= tag && (0 < tag - last <= 15 || tag < 0x1_0000)
    ensures |r| == 1 <==> 0 < tag - last <= 15
    ensures |r| == 1 || |r| == 3
    ensures r[0] % 16 == nibble
    ensures |r| == 1 ==> r[0] / 16 == tag - last
    ensures |r| == 3 ==> r[0] / 16 == 0 && FromBigEndian(r[1..]) == tag
  {
    var delta := tag - last;
    if 0 < delta <= 15 then
      Nibbles(delta, nibble);
      [delta * 16 + nibble]
    else
      BigEndianRoundTrip(tag, 2);
      var r := [nibble] + ToBigEndian(tag, 2);
      assert r[1..] == ToBigEndian(tag, 2);
      r
  }

  /** `_dump_seq`'s header: size and element type id in one byte up to 14, else 0xF0 and a varint size. */
  function SeqHeader(t: Type, n: nat): (r: seq<byte>)
    requires t.List? || t.Set?
    ensures |r| >= 1 && (|r| == 1 <==> n <= 14)
  {
    if n <= 14 then [n * 16 + TypeId(t.elem)] else [0xF0 + TypeId(t.elem)] + VarintBytes(n)
  }

  /** `_dump_map`'s type byte: the key symbol in the high nibble, the value symbol in the low one. */
  function MapTypes(t: Type): byte
    requires t.Map?
  {
    Symbol(t.key) * 16 + Symbol(t.value)
  }

  function Encode(t: Type, v: Value): (r: seq<byte>)
    requires ValidType(t) && Conforms(t, v)
    ensures |r| >= 1
    decreases t, 1
  {
    match t
    case Bool => BinaryCodec.EncodeBool(v.b)
    case Byte => [v.i]
    case I16 => EncodeInt(v.i)
    case I32 => EncodeInt(v.i)
    case I64 => EncodeLong(v.i)
    case Double => ToBigEndian(v.bits, 8)
    case ByteString => EncodeString(v.bytes)
    case Unicode => EncodeString(v.bytes)
    case Struct(fs) => EncodeFields(t, v, 0, 0) + [SYM_STOP]
    case List(e) => SeqHeader(t, |v.elems|) + EncodeElems(t, v, 0)
    case Set(e) => SeqHeader(t, |v.elems|) + EncodeElems(t, v, 0)
    case Map(k, w) => VarintBytes(|v.entries|) + MapBody(t, v)
  }

  /** What follows the count of a map: nothing when it is empty, else the type byte and the entries. */
  function MapBody(t: Type, v: Value): (r: seq<byte>)
    requires t.Map? && ValidType(t) && Conforms(t, v)
    ensures r == [] <==> |v.entries| == 0
    ensures r != [] ==> r[0] == MapTypes(t)
    decreases t, 0, |v.entries| + 1
  {
    if |v.entries| > 0 then [MapTypes(t)] + EncodeEntries(t, v, 0) else []
  }

  /**
   * Fields `i..` in tag order, the one before them tagged `last`: each as
   * its header, then its value unless it is a boolean.
   */
  function EncodeFields(t: Type, v: Value, i: nat, last: int): (r: seq<byte>)
    requires t.Struct? && ValidType(t) && Conforms(t, v) && i <= |t.fields|
    ensures r == [] <==> i == |t.fields|
    decreases t, 0, |t.fields| - i
  {
    var order := SortByTag(t.fields);
    if i == |order| then []
    else
      var nf := order[i];
      assert nf in multiset(order);
      var x := v.attrs[nf.name];
      var header := FieldHeader(FieldNibble(nf.field.ty, x), nf.field.tag, last);
      if nf.field.ty.Bool? then header + EncodeFields(t, v, i + 1, nf.field.tag)
      else header + Encode(nf.field.ty, x) + EncodeFields(t, v, i + 1, nf.field.tag)
  }

  /** Elements `i..` of a list or set. */
  function EncodeElems(t: Type, v: Value, i: nat): seq<byte>
    requires (t.List? || t.Set?) && ValidType(t) && Conforms(t, v) && i <= |v.elems|
    decreases t, 0, |v.elems| - i
  {
    if i == |v.elems| then []
    else
      assert v.elems[i] in v.elems;
      Encode(t.elem, v.elems[i]) + EncodeElems(t, v, i + 1)
  }

  /** Entries `i..` of a map, each as its key followed by its value. */
  function EncodeEntries(t: Type, v: Value, i: nat): seq<byte>
    requires t.Map? && ValidType(t) && Conforms(t, v) && i <= |v.entries|
    decreases t, 0, |v.entries| - i
  {
    if i == |v.entries| then []
    else
      var p := v.entries[i];
      assert p in v.entries;
      Encode(t.key, p.0) + Encode(t.value, p.1) + EncodeEntries(t, v, i + 1)
  }

  /** `_load_bool`: only the byte 2 reads as true. */
  function DecodeBool(s: seq<byte>): (r: Result<Parsed<Value>>)
    ensures r.Ok? ==> |r.value.rest| < |s|
  {
    if |s| < 1 then Err(EndOfStream) else Ok(Parsed(VBool(s[0] == SYM_BOOL_TRUE), s[1..]))
  }

  /** `_load_i16`, `_load_i32`, `_load_i64`: a varint, converted back from zigzag. */
  function DecodeZigzag(s: seq<byte>): (r: Result<Parsed<Value>>)
    ensures r.Ok? ==> |r.value.rest| < |s|
  {
    match VarintDecode(s)
    case Err(e) => Err(e)
    case Ok(p) => Ok(Parsed(VInt(ZigzagToInt(p.value)), p.rest))
  }

  /** `_load_string`: a varint length, then that many bytes, or fewer when the input ends first. */
  function DecodeString(s: seq<byte>): (r: Result<Parsed<Value>>)
    ensures r.Ok? ==> |r.value.rest| < |s|
  {
    match VarintDecode(s)
    case Err(e) => Err(e)
    case Ok(p) =>
      var k := Min(p.value, |p.rest|);
      Ok(Parsed(VBytes(p.rest[..k]), p.rest[k..]))
  }

  /**
   * The tag of a field header whose first byte is not a stop: the previous
   * tag plus the delta nibble, or the 2-byte tag that follows when the
   * delta is 0.
   */
  function FieldTag(s: seq<byte>, last: int): (r: Result<Parsed<int>>)
    requires |s| >= 1
    ensures r.Ok? ==> |r.value.rest| < |s|
  {
    if s[0] / 16 == 0 then
      (if |s| < 3 then Err(EndOfStream) else Ok(Parsed(FromBigEndian(s[1..3]), s[3..])))
    else Ok(Parsed(last + s[0] / 16, s[1..]))
  }

  /** The list/set header as the evidently intended `_load_seq` reads it: the size nibble, or a varint after 15. */
  function DecodeSeqHeader(s: seq<byte>): (r: Result<Parsed<nat>>)
    ensures r.Ok? ==> |r.value.rest| < |s|
  {
    if |s| < 1 then Err(EndOfStream)
    else if s[0] / 16 == 15 then VarintDecode(s[1..])
    else Ok(Parsed(s[0] / 16, s[1..]))
  }

  /**
   * The list/set header as `_load_seq` is written: the varint reader is
   * named without `self.`, so a size nibble of 15 raises `NameError`.
   */
  function DecodeSeqHeaderAsWritten(s: seq<byte>): (r: Result<Parsed<nat>>)
    ensures r.Ok? ==> |r.value.rest| < |s|
  {
    if |s| < 1 then Err(EndOfStream)
    else if s[0] / 16 == 15 then Err(UndefinedName("_load_varint"))
    else Ok(Parsed(s[0] / 16, s[1..]))
  }

  function Decode(t: Type, s: seq<byte>): (r: Result<Parsed<Value>>)
    ensures r.Ok? ==> |r.value.rest| < |s|
    decreases t, 2, 0
  {
    match t
    case Bool => DecodeBool(s)
    case Byte => BinaryCodec.DecodeByte(s)
    case I16 => DecodeZigzag(s)
    case I32 => DecodeZigzag(s)
    case I64 => DecodeZigzag(s)
    case Double => BinaryCodec.DecodeDouble(s)
    case ByteString => DecodeString(s)
    case Unicode => DecodeString(s)
    case Struct(_) => DecodeFields(t, s, 0, map[])
    case List(_) =>
      (match DecodeSeq(t, s)
       case Err(e) => Err(e)
       case Ok(p) => Ok(Parsed(VList(p.value), p.rest)))
    case Set(_) =>
      (match DecodeSeq(t, s)
       case Err(e) => Err(e)
       case Ok(p) => Ok(Parsed(VSet(Dedup(p.value)), p.rest)))
    case Map(_, _) => DecodeMap(t, s)
  }

  /**
   * The loop of `_load_struct` from the current position, `last` the tag
   * of the field read before and `vals` the values read so far: a type
   * nibble of 0 ends it; otherwise the header's tag selects the field (an
   * unknown tag fails), and a type nibble of 2 or 1 is the value itself
   * while any other nibble is followed by the field's value.
   */
  function DecodeFields(t: Type, s: seq<byte>, last: int, vals: map<string, Value>): (r: Result<Parsed<Value>>)
    requires t.Struct?
    ensures r.Ok? ==> |r.value.rest| < |s|
    decreases t, 0, |s|
  {
    if |s| < 1 then Err(EndOfStream)
    else
      var ty := s[0] % 16;
      if ty == SYM_STOP then Construct(t.fields, vals, s[1..])
      else
        match FieldTag(s, last)
        case Err(e) => Err(e)
        case Ok(h) =>
          match FindTag(t.fields, h.value)
          case None => Err(UnknownTag(h.value))
          case Some(j) =>
            var nf := t.fields[j];
            if ty == SYM_BOOL_TRUE || ty == SYM_BOOL_FALSE then
              DecodeFields(t, h.rest, h.value, vals[nf.name := VBool(ty == SYM_BOOL_TRUE)])
            else
              match Decode(nf.field.ty, h.rest)
              case Err(e) => Err(e)
              case Ok(p) => DecodeFields(t, p.rest, h.value, vals[nf.name := p.value])
  }

  /** `thrift_type(**vals)` once the stop byte is read, `rest` the input after it. */
  function Construct(fs: seq<NamedField>, vals: map<string, Value>, rest: seq<byte>): (r: Result<Parsed<Value>>)
    ensures r.Ok? ==> r.value.rest == rest
  {
    match StructInit(fs, [], vals)
    case Err(e) => Err(e)
    case Ok(attrs) => Ok(Parsed(VStruct(attrs), rest))
  }

  /** `_load_seq`: the header, then that many elements. */
  function DecodeSeq(t: Type, s: seq<byte>): (r: Result<Parsed<seq<Value>>>)
    requires t.List? || t.Set?
    ensures r.Ok? ==> |r.value.rest| < |s|
    decreases t, 1, 0
  {
    match DecodeSeqHeader(s)
    case Err(e) => Err(e)
    case Ok(h) => DecodeItems(t, h.value, h.rest, [])
  }

  /** `_load_seq` as written: a header with the size nibble 15 fails before any element is read. */
  function DecodeSeqAsWritten(t: Type, s: seq<byte>): (r: Result<Parsed<seq<Value>>>)
    requires t.List? || t.Set?
    ensures r.Ok? ==> |r.value.rest| < |s|
  {
    match DecodeSeqHeaderAsWritten(s)
    case Err(e) => Err(e)
    case Ok(h) => DecodeItems(t, h.value, h.rest, [])
  }

  /**
   * `n` more elements after the ones in `acc`. `set()` hashes each element
   * as it arrives, so a set of lists, sets or dicts fails on its first one.
   */
  function DecodeItems(t: Type, n: nat, s: seq<byte>, acc: seq<Value>): (r: Result<Parsed<seq<Value>>>)
    requires t.List? || t.Set?
    ensures r.Ok? ==> |r.value.rest| <= |s|
    decreases t, 0, n
  {
    if n == 0 then Ok(Parsed(acc, s))
    else
      match Decode(t.elem, s)
      case Err(e) => Err(e)
      case Ok(p) =>
        if t.Set? && !Hashable(t.elem) then Err(Unhashable)
        else DecodeItems(t, n - 1, p.rest, acc + [p.value])
  }

  /** `_load_map`: a varint count; when it is positive, a type byte (ignored) and the pairs. */
  function DecodeMap(t: Type, s: seq<byte>): (r: Result<Parsed<Value>>)
    requires t.Map?
    ensures r.Ok? ==> |r.value.rest| < |s|
    decreases t, 1, 0
  {
    match VarintDecode(s)
    case Err(e) => Err(e)
    case Ok(p) =>
      if p.value == 0 then Ok(Parsed(VMap([]), p.rest))
      else if |p.rest| < 1 then Err(EndOfStream)
      else
        match DecodeEntries(t, p.value, p.rest[1..], [])
        case Err(e) => Err(e)
        case Ok(q) => Ok(Parsed(VMap(q.value), q.rest))
  }

  /**
   * `n` more pairs, each stored with `result[key] = value`; a list, set or
   * dict key fails once its pair has been read.
   */
  function DecodeEntries(t: Type, n: nat, s: seq<byte>, acc: seq<(Value, Value)>)
    : (r: Result<Parsed<seq<(Value, Value)>>>)
    requires t.Map?
    ensures r.Ok? ==> |r.value.rest| <= |s|
    decreases t, 0, n
  {
    if n == 0 then Ok(Parsed(acc, s))
    else
      match Decode(t.key, s)
      case Err(e) => Err(e)
      case Ok(pk) =>
        match Decode(t.value, pk.rest)
        case Err(e) => Err(e)
        case Ok(pv) =>
          if !Hashable(t.key) then Err(Unhashable)
          else DecodeEntries(t, n - 1, pv.rest, Put(acc, pk.value, pv.value))
  }

  // ---------------------------------------------------------------------
  // The handlers, over streams
  // ---------------------------------------------------------------------

  /** `Codec.dump` on the Compact codec: dispatch on the type. */
  method Dump(t: Type, v: Value, out: OutputStream)
    requires ValidType(t) && Conforms(t, v)
    modifies out
    ensures out.data == old(out.data) + Encode(t, v)
    decreases t, 2
  {
    match t
    case Bool => BinaryCodec.DumpBool(v.b, out);
    case Byte => BinaryCodec.DumpByte(v.i, out);
    case I16 => DumpInt(v.i, out);
    case I32 => DumpInt(v.i, out);
    case I64 => DumpLong(v.i, out);
    case Double => BinaryCodec.DumpDouble(v.bits, out);
    case ByteString => DumpString(v.bytes, out);
    case Unicode => DumpString(v.bytes, out);
    case Struct(_) => DumpStruct(t, v, out);
    case List(_) => DumpSeq(t, v, out);
    case Set(_) => DumpSeq(t, v, out);
    case Map(_, _) => DumpMap(t, v, out);
  }

  method DumpInt(x: int, out: OutputStream)
    modifies out
    ensures out.data == old(out.data) + EncodeInt(x)
  {
    DumpVarint(IntToZigzag(x), out);
  }

  method DumpLong(x: int, out: OutputStream)
    modifies out
    ensures out.data == old(out.data) + EncodeLong(x)
  {
    DumpVarint(LongToZigzag(x), out);
  }

  method DumpString(bytes: seq<byte>, out: OutputStream)
    modifies out
    ensures out.data == old(out.data) + EncodeString(bytes)
  {
    DumpVarint(|bytes|, out);
    out.Write(bytes);
  }

  /** The field header of `_dump_struct`: one byte for a delta in 1..15, else the type byte and a 2-byte tag. */
  method DumpFieldHeader(theType: byte, tag: int, last: int, out: OutputStream)
    requires theType < 16 && 0 <= tag && (0 < tag - last <= 15 || tag < 0x1_0000)
    modifies out
    ensures out.data == old(out.data) + FieldHeader(theType, tag, last)
  {
    var delta := tag - last;
    if 0 < delta <= 15 {
      out.Write([delta * 16 + theType]);
    } else {
      out.Write([theType] + ToBigEndian(tag, 2));
    }
  }

  /** `_dump_struct`: the fields in ascending tag order, each after the header for its tag delta, then the stop byte. */
  method DumpStruct(t: Type, v: Value, out: OutputStream)
    requires t.Struct? && ValidType(t) && Conforms(t, v)
    modifies out
    ensures out.data == old(out.data) + EncodeFields(t, v, 0, 0) + [SYM_STOP]
    decreases t, 1
  {
    var order := SortByTag(t.fields);
    var last := 0;
    for i := 0 to |order|
      invariant old(out.data) + EncodeFields(t, v, 0, 0) == out.data + EncodeFields(t, v, i, last)
    {
      DumpField(t, v, i, last, out);
      last := order[i].field.tag;
    }
    out.Write([SYM_STOP]);
  }

  /** One pass of the `_dump_struct` loop: field `i` of the tag order after the field tagged `last`. */
  method DumpField(t: Type, v: Value, i: nat, last: int, out: OutputStream)
    requires t.Struct? && ValidType(t) && Conforms(t, v) && i < |t.fields|
    modifies out
    ensures old(out.data) + EncodeFields(t, v, i, last)
         == out.data + EncodeFields(t, v, i + 1, SortByTag(t.fields)[i].field.tag)
    decreases t, 0
  {
    var nf := SortByTag(t.fields)[i];
    assert nf in multiset(SortByTag(t.fields));
    var x := v.attrs[nf.name];
    var theType: byte;
    if nf.field.ty.Bool? {
      theType := if x.b then SYM_BOOL_TRUE else SYM_BOOL_FALSE;
    } else {
      theType := TypeId(nf.field.ty);
    }
    ghost var header := FieldHeader(theType, nf.field.tag, last);
    ghost var tail := EncodeFields(t, v, i + 1, nf.field.tag);
    DumpFieldHeader(theType, nf.field.tag, last, out);
    if !nf.field.ty.Bool? {
      Dump(nf.field.ty, x, out);
      Regroup(old(out.data), header, Encode(nf.field.ty, x), tail);
    } else {
      Append3(old(out.data), header, tail);
    }
  }

  /** The size-and-type header of `_dump_seq`. */
  method DumpSeqHeader(t: Type, n: nat, out: OutputStream)
    requires t.List? || t.Set?
    modifies out
    ensures out.data == old(out.data) + SeqHeader(t, n)
  {
    var elemType := TypeId(t.elem);
    if n <= 14 {
      out.Write([n * 16 + elemType]);
    } else {
      out.Write([0xF0 + elemType]);
      DumpVarint(n, out);
    }
  }

  /** `_dump_seq`: the header, then the elements. */
  method DumpSeq(t: Type, v: Value, out: OutputStream)
    requires (t.List? || t.Set?) && ValidType(t) && Conforms(t, v)
    modifies out
    ensures out.data == old(out.data) + (SeqHeader(t, |v.elems|) + EncodeElems(t, v, 0))
    decreases t, 1
  {
    DumpSeqHeader(t, |v.elems|, out);
    ghost var mid := out.data;
    for i := 0 to |v.elems|
      invariant mid + EncodeElems(t, v, 0) == out.data + EncodeElems(t, v, i)
    {
      assert v.elems[i] in v.elems;
      ghost var before := out.data;
      Dump(t.elem, v.elems[i], out);
      Append3(before, Encode(t.elem, v.elems[i]), EncodeElems(t, v, i + 1));
    }
    Append3(old(out.data), SeqHeader(t, |v.elems|), EncodeElems(t, v, 0));
  }

  /** `_dump_map`: the count; then, for a non-empty map, the type byte and the pairs. */
  method DumpMap(t: Type, v: Value, out: OutputStream)
    requires t.Map? && ValidType(t) && Conforms(t, v)
    modifies out
    ensures out.data == old(out.data) + (VarintBytes(|v.entries|) + MapBody(t, v))
    decreases t, 1
  {
    var size := |v.entries|;
    DumpVarint(size, out);
    if size > 0 {
      ghost var mid := out.data;
      ghost var body := EncodeEntries(t, v, 0);
      assert MapBody(t, v) == [MapTypes(t)] + body;
      out.Write([Symbol(t.key) * 16 + Symbol(t.value)]);
      DumpEntries(t, v, out);
      Append3(mid, [MapTypes(t)], body);
      Append3(old(out.data), VarintBytes(size), MapBody(t, v));
    } else {
      assert MapBody(t, v) == [];
    }
  }

  /** The loop of `_dump_map` over the pairs: each key followed by its value. */
  method DumpEntries(t: Type, v: Value, out: OutputStream)
    requires t.Map? && ValidType(t) && Conforms(t, v)
    modifies out
    ensures out.data == old(out.data) + EncodeEntries(t, v, 0)
    decreases t, 0
  {
    for i := 0 to |v.entries|
      invariant old(out.data) + EncodeEntries(t, v, 0) == out.data + EncodeEntries(t, v, i)
    {
      var p := v.entries[i];
      assert p in v.entries;
      ghost var before := out.data;
      Dump(t.key, p.0, out);
      Dump(t.value, p.1, out);
      Regroup(before, Encode(t.key, p.0), Encode(t.value, p.1), EncodeEntries(t, v, i + 1));
    }
  }

  /** `Codec.load` on the Compact codec: dispatch on the type. */
  method Load(t: Type, inp: InputStream) returns (r: Result<Value>)
    requires inp.Valid()
    modifies inp
    ensures inp.Valid() && Consumed(r, Decode(t, old(inp.Rest())), inp.Rest())
    decreases t, 3
  {
    match t
    case Bool => r := LoadBool(inp);
    case Byte => r := BinaryCodec.LoadByte(inp);
    case I16 => r := LoadZigzag(inp);
    case I32 => r := LoadZigzag(inp);
    case I64 => r := LoadZigzag(inp);
    case Double => r := BinaryCodec.LoadDouble(inp);
    case ByteString => r := LoadString(inp);
    case Unicode => r := LoadString(inp);
    case Struct(_) => r := LoadStruct(t, inp);
    case List(_) => r := LoadList(t, inp);
    case Set(_) => r := LoadSet(t, inp);
    case Map(_, _) => r := LoadMap(t, inp);
  }

  /** `_load_list`: the loaded elements, in order. */
  method LoadList(t: Type, inp: InputStream) returns (r: Result<Value>)
    requires t.List? && inp.Valid()
    modifies inp
    ensures inp.Valid() && Consumed(r, Decode(t, old(inp.Rest())), inp.Rest())
    decreases t, 2
  {
    var items := LoadSeq(t, inp);
    r := if items.Ok? then Ok(VList(items.value)) else Err(items.error);
  }

  /** `_load_set`: `set()` of the loaded elements. */
  method LoadSet(t: Type, inp: InputStream) returns (r: Result<Value>)
    requires t.Set? && inp.Valid()
    modifies inp
    ensures inp.Valid() && Consumed(r, Decode(t, old(inp.Rest())), inp.Rest())
    decreases t, 2
  {
    var items := LoadSeq(t, inp);
    r := if items.Ok? then Ok(VSet(Dedup(items.value))) else Err(items.error);
  }

  method LoadBool(inp: InputStream) returns (r: Result<Value>)
    requires inp.Valid()
    modifies inp
    ensures inp.Valid() && Consumed(r, DecodeBool(old(inp.Rest())), inp.Rest())
  {
    var buf := inp.Read(1);
    if |buf| == 0 {
      return Err(EndOfStream);  // `ord('')` raises
    }
    return Ok(VBool(buf[0] == SYM_BOOL_TRUE));
  }

  method LoadZigzag(inp: InputStream) returns (r: Result<Value>)
    requires inp.Valid()
    modifies inp
    ensures inp.Valid() && Consumed(r, DecodeZigzag(old(inp.Rest())), inp.Rest())
  {
    var num := LoadVarint(inp);
    if num.Err? {
      return Err(num.error);
    }
    return Ok(VInt(ZigzagToInt(num.value)));
  }

  method LoadString(inp: InputStream) returns (r: Result<Value>)
    requires inp.Valid()
    modifies inp
    ensures inp.Valid() && Consumed(r, DecodeString(old(inp.Rest())), inp.Rest())
  {
    var num := LoadVarint(inp);
    if num.Err? {
      return Err(num.error);
    }
    var buf := inp.Read(num.value);
    return Ok(VBytes(buf));
  }

  /** The tag of a field whose header byte `first` was just read: the delta from `last`, or a 2-byte tag after a zero delta. */
  method LoadFieldTag(first: byte, last: int, ghost s: seq<byte>, inp: InputStream) returns (r: Result<int>)
    requires inp.Valid() && |s| >= 1 && s[0] == first && s[1..] == inp.Rest()
    modifies inp
    ensures inp.Valid() && Consumed(r, FieldTag(s, last), inp.Rest())
  {
    var delta := first / 16;
    if delta == 0 {
      var tagBytes := inp.Read(2);
      if |tagBytes| != 2 {
        return Err(EndOfStream);
      }
      assert s[1..3] == tagBytes && s[3..] == inp.Rest();
      return Ok(FromBigEndian(tagBytes));
    }
    assert s[1..] == inp.Rest();
    return Ok(delta + last);
  }

  /** `_load_struct`: read fields until a stop nibble, tracking the last tag, then construct the instance. */
  method LoadStruct(t: Type, inp: InputStream) returns (r: Result<Value>)
    requires t.Struct? && inp.Valid()
    modifies inp
    ensures inp.Valid() && Consumed(r, DecodeFields(t, old(inp.Rest()), 0, map[]), inp.Rest())
    decreases t, 0
  {
    ghost var spec := DecodeFields(t, inp.Rest(), 0, map[]);
    var vals: map<string, Value> := map[];
    var last: int := 0;
    while true
      invariant inp.Valid()
      invariant spec == DecodeFields(t, inp.Rest(), last, vals)
      decreases |inp.Rest()|
    {
      ghost var here := inp.Rest();
      var deltaType := inp.Read(1);
      if |deltaType| == 0 {
        return Err(EndOfStream);
      }
      var theType := deltaType[0] % 16;
      if theType == SYM_STOP {
        break;
      }
      var tag := LoadFieldTag(deltaType[0], last, here, inp);
      if tag.Err? {
        return Err(tag.error);
      }
      var found := FindTag(t.fields, tag.value);
      if found.None? {
        return Err(UnknownTag(tag.value));
      }
      var nf := t.fields[found.value];
      if theType == SYM_BOOL_TRUE || theType == SYM_BOOL_FALSE {
        vals := vals[nf.name := VBool(theType == SYM_BOOL_TRUE)];
      } else {
        var x := Load(nf.field.ty, inp);
        if x.Err? {
          return Err(x.error);
        }
        vals := vals[nf.name := x.value];
      }
      last := tag.value;
    }
    var attrs := InitStruct(t.fields, [], vals);
    if attrs.Err? {
      return Err(attrs.error);
    }
    return Ok(VStruct(attrs.value));
  }

  /** `_load_seq`, reading a size of 15 or more from the varint that follows, as the source intends. */
  method LoadSeq(t: Type, inp: InputStream) returns (r: Result<seq<Value>>)
    requires (t.List? || t.Set?) && inp.Valid()
    modifies inp
    ensures inp.Valid() && Consumed(r, DecodeSeq(t, old(inp.Rest())), inp.Rest())
    decreases t, 1
  {
    var size := LoadSeqHeader(inp);
    if size.Err? {
      return Err(size.error);
    }
    r := LoadItems(t, size.value, inp);
  }

  /** The header of `_load_seq`: the size nibble, and the varint after it when the nibble is 15. */
  method LoadSeqHeader(inp: InputStream) returns (r: Result<nat>)
    requires inp.Valid()
    modifies inp
    ensures inp.Valid() && Consumed(r, DecodeSeqHeader(old(inp.Rest())), inp.Rest())
  {
    ghost var s0 := inp.Rest();
    var sizeType := inp.Read(1);
    if |sizeType| == 0 {
      return Err(EndOfStream);
    }
    var size: nat := sizeType[0] / 16;
    if size == 15 {
      var n := LoadVarint(inp);
      if n.Err? {
        return Err(n.error);
      }
      size := n.value;
    }
    return Ok(size);
  }

  /** The loop of `_load_seq` over `n` elements; `set()` hashes each one as it arrives. */
  method LoadItems(t: Type, n: nat, inp: InputStream) returns (r: Result<seq<Value>>)
    requires (t.List? || t.Set?) && inp.Valid()
    modifies inp
    ensures inp.Valid() && Consumed(r, DecodeItems(t, n, old(inp.Rest()), []), inp.Rest())
    decreases t, 0
  {
    ghost var spec := DecodeItems(t, n, inp.Rest(), []);
    var items: seq<Value> := [];
    for i := 0 to n
      invariant inp.Valid()
      invariant spec == DecodeItems(t, n - i, inp.Rest(), items)
    {
      var x := Load(t.elem, inp);
      if x.Err? {
        return Err(x.error);
      }
      if t.Set? && !Hashable(t.elem) {
        return Err(Unhashable);
      }
      items := items + [x.value];
    }
    return Ok(items);
  }

  /** `_load_map`: the count, then for a positive count the type byte (unchecked) and the pairs. */
  method LoadMap(t: Type, inp: InputStream) returns (r: Result<Value>)
    requires t.Map? && inp.Valid()
    modifies inp
    ensures inp.Valid() && Consumed(r, DecodeMap(t, old(inp.Rest())), inp.Rest())
    decreases t, 1
  {
    ghost var s0 := inp.Rest();
    var sz := LoadVarint(inp);
    if sz.Err? {
      return Err(sz.error);
    }
    var n := sz.value;
    if n == 0 {
      return Ok(VMap([]));
    }
    ghost var s1 := inp.Rest();
    var kvType := inp.Read(1);  // the key and value types, not checked
    if |kvType| == 0 {
      return Err(EndOfStream);
    }
    assert s1[1..] == inp.Rest();
    var result := LoadEntries(t, n, inp);
    if result.Err? {
      return Err(result.error);
    }
    return Ok(VMap(result.value));
  }

  /** The loop of `_load_map` over `n` pairs, each key read before its value. */
  method LoadEntries(t: Type, n: nat, inp: InputStream) returns (r: Result<seq<(Value, Value)>>)
    requires t.Map? && inp.Valid()
    modifies inp
    ensures inp.Valid() && Consumed(r, DecodeEntries(t, n, old(inp.Rest()), []), inp.Rest())
    decreases t, 0
  {
    ghost var spec := DecodeEntries(t, n, inp.Rest(), []);
    var result: seq<(Value, Value)> := [];
    for i := 0 to n
      invariant inp.Valid()
      invariant spec == DecodeEntries(t, n - i, inp.Rest(), result)
    {
      var key := Load(t.key, inp);
      if key.Err? {
        return Err(key.error);
      }
      var value := Load(t.value, inp);
      if value.Err? {
        return Err(value.error);
      }
      if !Hashable(t.key) {
        return Err(Unhashable);
      }
      result := Put(result, key.value, value.value);
    }
    return Ok(result);
  }

  // ---------------------------------------------------------------------
  // Properties
  // ---------------------------------------------------------------------

  lemma IntRoundTrip(x: int, rest: seq<byte>)
    requires -0x8000_0000 <= x < 0x8000_0000
    ensures DecodeZigzag(EncodeInt(x) + rest) == Ok(Parsed(VInt(x), rest))
  {
    IntToZigzagIn32(x);
    VarintRoundTrip(IntToZigzag(x), rest);
    IntZigzagRoundTrip(x);
  }

  lemma LongRoundTrip(x: int, rest: seq<byte>)
    requires -0x8000_0000_0000_0000 <= x < 0x8000_0000_0000_0000
    ensures DecodeZigzag(EncodeLong(x) + rest) == Ok(Parsed(VInt(x), rest))
  {
    LongToZigzagIn64(x);
    VarintRoundTrip(LongToZigzag(x), rest);
    LongZigzagRoundTrip(x);
  }

  lemma StringRoundTrip(bytes: seq<byte>, rest: seq<byte>)
    ensures DecodeString(EncodeString(bytes) + rest) == Ok(Parsed(VBytes(bytes), rest))
  {
    Append3(VarintBytes(|bytes|), bytes, rest);
    VarintRoundTrip(|bytes|, bytes + rest);
    assert (bytes + rest)[..|bytes|] == bytes && (bytes + rest)[|bytes|..] == rest;
  }

  /** A string whose input ends before its length is reached reads as the bytes that are there, not as an error. */
  lemma ShortStringTruncated(n: nat, body: seq<byte>)
    requires |body| < n
    ensures DecodeString(VarintBytes(n) + body) == Ok(Parsed(VBytes(body), []))
  {
    VarintRoundTrip(n, body);
    assert body[..|body|] == body;
  }

  /** Loading what `dump` wrote gives back the value and leaves what follows untouched. */
  lemma {:induction false} RoundTrip(t: Type, v: Value, rest: seq<byte>)
    requires ValidType(t) && Conforms(t, v)
    ensures Decode(t, Encode(t, v) + rest) == Ok(Parsed(v, rest))
    decreases t, 1, 0, 0
  {
    match t
    case Bool =>
      assert (BinaryCodec.EncodeBool(v.b) + rest)[1..] == rest;
    case Byte =>
      assert ([v.i] + rest)[1..] == rest;
    case I16 => IntRoundTrip(v.i, rest);
    case I32 => IntRoundTrip(v.i, rest);
    case I64 => LongRoundTrip(v.i, rest);
    case Double => BinaryCodec.DoubleRoundTrip(v.bits, rest);
    case ByteString => StringRoundTrip(v.bytes, rest);
    case Unicode => StringRoundTrip(v.bytes, rest);
    case Struct(_) => StructRoundTrip(t, v, rest);
    case List(_) => SeqRoundTrip(t, v, rest);
    case Set(_) =>
      SeqRoundTrip(t, v, rest);
      DedupOfDistinct(v.elems);
    case Map(_, _) => MapRoundTrip(t, v, rest);
  }

  lemma {:induction false} StructRoundTrip(t: Type, v: Value, rest: seq<byte>)
    requires t.Struct? && ValidType(t) && Conforms(t, v)
    ensures DecodeFields(t, EncodeFields(t, v, 0, 0) + [SYM_STOP] + rest, 0, map[]) == Ok(Parsed(v, rest))
    decreases t, 0, |t.fields|, 4
  {
    var order := SortByTag(t.fields);
    FieldsRoundTrip(t, v, 0, 0, map[], rest);
    Append3(EncodeFields(t, v, 0, 0), [SYM_STOP], rest);
    NamesOfPermutation(order, t.fields);
    RestrictAll(v.attrs, order);
    StructInitExact(t.fields, v.attrs);
  }

  lemma {:induction false} SeqRoundTrip(t: Type, v: Value, rest: seq<byte>)
    requires (t.List? || t.Set?) && ValidType(t) && Conforms(t, v)
    ensures DecodeSeq(t, SeqHeader(t, |v.elems|) + EncodeElems(t, v, 0) + rest) == Ok(Parsed(v.elems, rest))
    decreases t, 0, |v.elems|, 4
  {
    Append3(SeqHeader(t, |v.elems|), EncodeElems(t, v, 0), rest);
    SeqHeaderRoundTrip(t, |v.elems|, EncodeElems(t, v, 0) + rest);
    assert v.elems[..0] == [];
    ItemsRoundTrip(t, v, 0, rest);
  }

  lemma {:induction false} MapRoundTrip(t: Type, v: Value, rest: seq<byte>)
    requires t.Map? && ValidType(t) && Conforms(t, v)
    ensures DecodeMap(t, VarintBytes(|v.entries|) + MapBody(t, v) + rest) == Ok(Parsed(v, rest))
    decreases t, 0, |v.entries|, 5
  {
    var n := |v.entries|;
    var body := MapBody(t, v);
    Append3(VarintBytes(n), body, rest);
    VarintRoundTrip(n, body + rest);
    if n == 0 {
      assert v == VMap([]);
      assert body + rest == rest;
    } else {
      MapBodyRoundTrip(t, v, rest);
    }
  }

  /** After the count of a non-empty map, the type byte is skipped and the entries read back. */
  lemma {:induction false} MapBodyRoundTrip(t: Type, v: Value, rest: seq<byte>)
    requires t.Map? && ValidType(t) && Conforms(t, v) && |v.entries| > 0
    ensures |MapBody(t, v) + rest| >= 1
    ensures DecodeEntries(t, |v.entries|, (MapBody(t, v) + rest)[1..], []) == Ok(Parsed(v.entries, rest))
    decreases t, 0, |v.entries|, 4
  {
    var body := EncodeEntries(t, v, 0);
    assert MapBody(t, v) == [MapTypes(t)] + body;
    assert (MapBody(t, v) + rest)[1..] == body + rest;
    assert v.entries[..0] == [];
    EntriesRoundTrip(t, v, 0, rest);
  }

  /** A field header reads back as its type nibble (never a stop) and the field's tag, in either form. */
  lemma HeaderParts(n: byte, tag: int, last: int, body: seq<byte>)
    requires 1 <= n < 16 && 0 <= tag && (0 < tag - last <= 15 || tag < 0x1_0000)
    ensures var s := FieldHeader(n, tag, last) + body;
      |s| >= 1 && s[0] % 16 == n && FieldTag(s, last) == Ok(Parsed(tag, body))
  {
    var s := FieldHeader(n, tag, last) + body;
    var delta := tag - last;
    if 0 < delta <= 15 {
      Nibbles(delta, n);
      assert s[0] == delta * 16 + n;
      assert s[1..] == body;
    } else {
      Nibbles(0, n);
      assert s[0] == n;
      assert s[1..3] == ToBigEndian(tag, 2) && s[3..] == body;
      BigEndianRoundTrip(tag, 2);
    }
  }

  /**
   * A tag of 2^16 or more still gets a header when it follows the previous
   * tag by 1..15: the one-byte form carries only the delta, and the reader
   * adds it back, so only the two-byte form limits the tag.
   */
  lemma WideTagByDelta(n: byte, tag: int, body: seq<byte>)
    requires 1 <= n < 16 && tag >= 0x1_0000
    ensures var s := FieldHeader(n, tag, tag - 1) + body;
      s == [16 + n] + body && FieldTag(s, tag - 1) == Ok(Parsed(tag, body))
  {
    HeaderParts(n, tag, tag - 1, body);
  }

  /** A header whose type nibble is 2 or 1 is a boolean by itself, whatever type its field declares: no value bytes follow. */
  lemma BoolFieldStep(t: Type, s: seq<byte>, last: int, vals: map<string, Value>, j: nat, tag: int, after: seq<byte>)
    requires t.Struct? && j < |t.fields| && |s| >= 1
    requires s[0] % 16 == SYM_BOOL_TRUE || s[0] % 16 == SYM_BOOL_FALSE
    requires FieldTag(s, last) == Ok(Parsed(tag, after)) && FindTag(t.fields, tag) == Some(j)
    ensures DecodeFields(t, s, last, vals)
         == DecodeFields(t, after, tag, vals[t.fields[j].name := VBool(s[0] % 16 == SYM_BOOL_TRUE)])
  {
  }

  /** Any other non-stop type nibble is followed by the field's value, decoded by its declared type. */
  lemma ValueFieldStep(t: Type, s: seq<byte>, last: int, vals: map<string, Value>, j: nat, tag: int,
                       mid: seq<byte>, x: Value, after: seq<byte>)
    requires t.Struct? && j < |t.fields| && |s| >= 1
    requires s[0] % 16 !in {SYM_STOP, SYM_BOOL_TRUE, SYM_BOOL_FALSE}
    requires FieldTag(s, last) == Ok(Parsed(tag, mid)) && FindTag(t.fields, tag) == Some(j)
    requires Decode(t.fields[j].field.ty, mid) == Ok(Parsed(x, after))
    ensures DecodeFields(t, s, last, vals) == DecodeFields(t, after, tag, vals[t.fields[j].name := x])
  {
  }

  /**
   * Fields `i..` of the tag order read back into `vals`, the one before
   * them tagged `last`: decoding reaches the stop byte with their
   * attributes added.
   */
  lemma {:induction false} FieldsRoundTrip(t: Type, v: Value, i: nat, last: int, vals: map<string, Value>, rest: seq<byte>)
    requires t.Struct? && ValidType(t) && Conforms(t, v) && i <= |t.fields|
    ensures DecodeFields(t, EncodeFields(t, v, i, last) + ([SYM_STOP] + rest), last, vals)
         == Construct(t.fields, vals + Restrict(v.attrs, SortByTag(t.fields)[i..]), rest)
    decreases t, 0, |t.fields| - i, 3
  {
    var order := SortByTag(t.fields);
    if i == |t.fields| {
      var e := EncodeFields(t, v, i, last);
      assert e == [];
      assert e + ([SYM_STOP] + rest) == [SYM_STOP] + rest;
      assert order[i..] == [];
      assert vals + Restrict(v.attrs, order[i..]) == vals;
      StopStep(t, rest, last, vals);
    } else {
      FieldsCons(t, v, i, last, vals, rest);
    }
  }

  lemma {:induction false} FieldsCons(t: Type, v: Value, i: nat, last: int, vals: map<string, Value>, rest: seq<byte>)
    requires t.Struct? && ValidType(t) && Conforms(t, v) && i < |t.fields|
    ensures DecodeFields(t, EncodeFields(t, v, i, last) + ([SYM_STOP] + rest), last, vals)
         == Construct(t.fields, vals + Restrict(v.attrs, SortByTag(t.fields)[i..]), rest)
    decreases t, 0, |t.fields| - i, 2
  {
    var order := SortByTag(t.fields);
    var nf := order[i];
    FieldHead(t, v, i, last, vals, [SYM_STOP] + rest);
    FieldsRoundTrip(t, v, i + 1, nf.field.tag, vals[nf.name := v.attrs[nf.name]], rest);
    RestrictStep(v.attrs, order, i, vals);
  }

  /** A stop byte ends the struct whatever tag came before it. */
  lemma StopStep(t: Type, rest: seq<byte>, last: int, vals: map<string, Value>)
    requires t.Struct?
    ensures DecodeFields(t, [SYM_STOP] + rest, last, vals) == Construct(t.fields, vals, rest)
  {
    assert ([SYM_STOP] + rest)[1..] == rest;
  }

  /** Field `i` of the tag order is found by its tag and its value stored, and decoding resumes after it with its tag as `last`. */
  lemma {:induction false} FieldHead(t: Type, v: Value, i: nat, last: int, vals: map<string, Value>, rest: seq<byte>)
    requires t.Struct? && ValidType(t) && Conforms(t, v) && i < |t.fields|
    ensures i < |SortByTag(t.fields)| && SortByTag(t.fields)[i].name in v.attrs
    ensures var nf := SortByTag(t.fields)[i];
      DecodeFields(t, EncodeFields(t, v, i, last) + rest, last, vals)
      == DecodeFields(t, EncodeFields(t, v, i + 1, nf.field.tag) + rest, nf.field.tag, vals[nf.name := v.attrs[nf.name]])
    decreases t, 0, |t.fields| - i, 1
  {
    var order := SortByTag(t.fields);
    var nf := order[i];
    assert nf in multiset(order);
    assert nf in t.fields;
    var x := v.attrs[nf.name];
    var n := FieldNibble(nf.field.ty, x);
    var header := FieldHeader(n, nf.field.tag, last);
    var tail := EncodeFields(t, v, i + 1, nf.field.tag);
    var after := tail + rest;
    var s := EncodeFields(t, v, i, last) + rest;
    var j := IndexOf(t.fields, nf);
    FindTagOf(t.fields, j);
    if nf.field.ty.Bool? {
      Append3(header, tail, rest);
      HeaderParts(n, nf.field.tag, last, after);
      BoolFieldStep(t, s, last, vals, j, nf.field.tag, after);
    } else {
      var body := Encode(nf.field.ty, x);
      Nest(header, body, tail, rest);
      HeaderParts(n, nf.field.tag, last, body + after);
      RoundTrip(nf.field.ty, x, after);
      ValueFieldStep(t, s, last, vals, j, nf.field.tag, body + after, x, after);
    }
  }

  /** The corrected list/set header reads back every size, in its one-byte form up to 14 and with a varint from 15. */
  lemma SeqHeaderRoundTrip(t: Type, n: nat, rest: seq<byte>)
    requires t.List? || t.Set?
    ensures DecodeSeqHeader(SeqHeader(t, n) + rest) == Ok(Parsed(n, rest))
  {
    var s := SeqHeader(t, n) + rest;
    var id := TypeId(t.elem);
    if n <= 14 {
      Nibbles(n, id);
      assert s[0] == n * 16 + id;
      assert s[1..] == rest;
    } else {
      Nibbles(15, id);
      assert s[0] == 15 * 16 + id;
      assert s[1..] == VarintBytes(n) + rest;
      VarintRoundTrip(n, rest);
    }
  }

  /**
   * `_load_seq` as written reads the one-byte header of a list or set of up
   * to 14 elements, and fails on the header of every longer one.
   */
  lemma SeqHeaderAsWritten(t: Type, n: nat, rest: seq<byte>)
    requires t.List? || t.Set?
    ensures n <= 14 ==> DecodeSeqHeaderAsWritten(SeqHeader(t, n) + rest) == Ok(Parsed(n, rest))
    ensures n >= 15 ==> DecodeSeqHeaderAsWritten(SeqHeader(t, n) + rest) == Err(UndefinedName("_load_varint"))
  {
    var s := SeqHeader(t, n) + rest;
    var id := TypeId(t.elem);
    if n <= 14 {
      Nibbles(n, id);
      assert s[0] == n * 16 + id;
      assert s[1..] == rest;
    } else {
      Nibbles(15, id);
      assert s[0] == 15 * 16 + id;
    }
  }

  /** Hence a list or set of 15 or more elements that `_dump_seq` wrote does not load back. */
  lemma SeqAsWrittenFails(t: Type, v: Value, rest: seq<byte>)
    requires (t.List? || t.Set?) && ValidType(t) && Conforms(t, v) && |v.elems| >= 15
    ensures DecodeSeqAsWritten(t, SeqHeader(t, |v.elems|) + EncodeElems(t, v, 0) + rest)
         == Err(UndefinedName("_load_varint"))
  {
    Append3(SeqHeader(t, |v.elems|), EncodeElems(t, v, 0), rest);
    SeqHeaderAsWritten(t, |v.elems|, EncodeElems(t, v, 0) + rest);
  }

  /** The element type nibble of a list or set header is not looked at. */
  lemma ElemTypeIgnored(b1: byte, b2: byte, s: seq<byte>)
    requires b1 / 16 == b2 / 16
    ensures DecodeSeqHeader([b1] + s) == DecodeSeqHeader([b2] + s)
  {
    assert ([b1] + s)[1..] == s == ([b2] + s)[1..];
  }

  /** An empty map is the single byte 0, and that byte alone reads back as the empty map. */
  lemma EmptyMap(k: Type, w: Type, rest: seq<byte>)
    requires ValidType(Map(k, w))
    ensures Conforms(Map(k, w), VMap([])) && Encode(Map(k, w), VMap([])) == [0]
    ensures DecodeMap(Map(k, w), [0] + rest) == Ok(Parsed(VMap([]), rest))
  {
    assert ([0] + rest)[1..] == rest;
  }

  /** The key/value type byte of a non-empty map is skipped without being checked. */
  lemma MapTypesIgnored(t: Type, n: nat, b1: byte, b2: byte, s: seq<byte>)
    requires t.Map? && n > 0
    ensures DecodeMap(t, VarintBytes(n) + [b1] + s) == DecodeMap(t, VarintBytes(n) + [b2] + s)
  {
    Append3(VarintBytes(n), [b1], s);
    Append3(VarintBytes(n), [b2], s);
    VarintRoundTrip(n, [b1] + s);
    VarintRoundTrip(n, [b2] + s);
    assert ([b1] + s)[1..] == s == ([b2] + s)[1..];
  }

  /** A header whose tag names no field of the struct fails the load. */
  lemma UnknownTagFails(t: Type, n: byte, tag: int, last: int, rest: seq<byte>, vals: map<string, Value>)
    requires t.Struct? && 1 <= n < 16 && 0 <= tag && (0 < tag - last <= 15 || tag < 0x1_0000)
    requires tag !in Tags(t.fields)
    ensures DecodeFields(t, FieldHeader(n, tag, last) + rest, last, vals) == Err(UnknownTag(tag))
  {
    HeaderParts(n, tag, last, rest);
  }

  /**
   * In the order `_dump_struct` writes the fields, each tag exceeds the one
   * before it (the first exceeds 0), so the header takes its one-byte form
   * exactly when that gap is at most 15.
   */
  lemma DeltasPositive(t: Type, i: nat)
    requires t.Struct? && ValidType(t) && i < |t.fields|
    ensures var order := SortByTag(t.fields);
      i < |order| && order[i].field.tag > (if i == 0 then 0 else order[i - 1].field.tag)
  {
    var order := SortByTag(t.fields);
    SortByTagSorted(t.fields);
    assert order[i] in t.fields;
    if i > 0 {
      assert order[i - 1].field.tag < order[i].field.tag;
    }
  }

  lemma ItemStep(t: Type, n: nat, s: seq<byte>, acc: seq<Value>, x: Value, after: seq<byte>)
    requires (t.List? || (t.Set? && Hashable(t.elem))) && n > 0 && Decode(t.elem, s) == Ok(Parsed(x, after))
    ensures DecodeItems(t, n, s, acc) == DecodeItems(t, n - 1, after, acc + [x])
  {
  }

  /** With elements `..i` already read, the rest of the elements read back. */
  lemma {:induction false} ItemsRoundTrip(t: Type, v: Value, i: nat, rest: seq<byte>)
    requires (t.List? || t.Set?) && ValidType(t) && Conforms(t, v) && i <= |v.elems|
    ensures DecodeItems(t, |v.elems| - i, EncodeElems(t, v, i) + rest, v.elems[..i]) == Ok(Parsed(v.elems, rest))
    decreases t, 0, |v.elems| - i, 3
  {
    if i == |v.elems| {
      assert EncodeElems(t, v, i) + rest == rest;
      assert v.elems[..i] == v.elems;
    } else {
      ItemsCons(t, v, i, rest);
    }
  }

  lemma {:induction false} ItemsCons(t: Type, v: Value, i: nat, rest: seq<byte>)
    requires (t.List? || t.Set?) && ValidType(t) && Conforms(t, v) && i < |v.elems|
    ensures DecodeItems(t, |v.elems| - i, EncodeElems(t, v, i) + rest, v.elems[..i]) == Ok(Parsed(v.elems, rest))
    decreases t, 0, |v.elems| - i, 2
  {
    ItemHead(t, v, i, rest);
    ItemsRoundTrip(t, v, i + 1, rest);
  }

  /** Element `i` reads back and is appended to the ones before it, and decoding resumes after it. */
  lemma {:induction false} ItemHead(t: Type, v: Value, i: nat, rest: seq<byte>)
    requires (t.List? || t.Set?) && ValidType(t) && Conforms(t, v) && i < |v.elems|
    ensures DecodeItems(t, |v.elems| - i, EncodeElems(t, v, i) + rest, v.elems[..i])
         == DecodeItems(t, |v.elems| - (i + 1), EncodeElems(t, v, i + 1) + rest, v.elems[..i + 1])
    decreases t, 0, |v.elems| - i, 1
  {
    var x := v.elems[i];
    assert x in v.elems;
    var after := EncodeElems(t, v, i + 1) + rest;
    Append3(Encode(t.elem, x), EncodeElems(t, v, i + 1), rest);
    RoundTrip(t.elem, x, after);
    ItemStep(t, |v.elems| - i, EncodeElems(t, v, i) + rest, v.elems[..i], x, after);
    PrefixSnoc(v.elems, i);
  }

  lemma EntryStep(t: Type, n: nat, s: seq<byte>, acc: seq<(Value, Value)>, p: (Value, Value), mid: seq<byte>, after: seq<byte>)
    requires t.Map? && Hashable(t.key) && n > 0
    requires Decode(t.key, s) == Ok(Parsed(p.0, mid)) && Decode(t.value, mid) == Ok(Parsed(p.1, after))
    ensures DecodeEntries(t, n, s, acc) == DecodeEntries(t, n - 1, after, Put(acc, p.0, p.1))
  {
  }

  /** With entries `..i` already stored, the rest of the entries read back. */
  lemma {:induction false} EntriesRoundTrip(t: Type, v: Value, i: nat, rest: seq<byte>)
    requires t.Map? && ValidType(t) && Conforms(t, v) && i <= |v.entries|
    ensures DecodeEntries(t, |v.entries| - i, EncodeEntries(t, v, i) + rest, v.entries[..i])
         == Ok(Parsed(v.entries, rest))
    decreases t, 0, |v.entries| - i, 3
  {
    if i == |v.entries| {
      assert EncodeEntries(t, v, i) + rest == rest;
      assert v.entries[..i] == v.entries;
    } else {
      EntriesCons(t, v, i, rest);
    }
  }

  lemma {:induction false} EntriesCons(t: Type, v: Value, i: nat, rest: seq<byte>)
    requires t.Map? && ValidType(t) && Conforms(t, v) && i < |v.entries|
    ensures DecodeEntries(t, |v.entries| - i, EncodeEntries(t, v, i) + rest, v.entries[..i])
         == Ok(Parsed(v.entries, rest))
    decreases t, 0, |v.entries| - i, 2
  {
    EntryHead(t, v, i, rest);
    EntriesRoundTrip(t, v, i + 1, rest);
  }

  /** Entry `i` reads back as its key, then its value, and storing it extends the entries before it. */
  lemma {:induction false} EntryHead(t: Type, v: Value, i: nat, rest: seq<byte>)
    requires t.Map? && ValidType(t) && Conforms(t, v) && i < |v.entries|
    ensures DecodeEntries(t, |v.entries| - i, EncodeEntries(t, v, i) + rest, v.entries[..i])
         == DecodeEntries(t, |v.entries| - (i + 1), EncodeEntries(t, v, i + 1) + rest, v.entries[..i + 1])
    decreases t, 0, |v.entries| - i, 1
  {
    var p := v.entries[i];
    assert p in v.entries;
    var after := EncodeEntries(t, v, i + 1) + rest;
    var mid := Encode(t.value, p.1) + after;
    Nest(Encode(t.key, p.0), Encode(t.value, p.1), EncodeEntries(t, v, i + 1), rest);
    RoundTrip(t.key, p.0, mid);
    RoundTrip(t.value, p.1, after);
    EntryStep(t, |v.entries| - i, EncodeEntries(t, v, i) + rest, v.entries[..i], p, mid, after);
    PutPrefix(v.entries, i);
  }

  /**
   * `int_to_zigzag` assumes 32 bits and nothing checks it: an `i32` value
   * `x` in [2^31, 2^32) is written as the zigzag of -x-1 and reads back as
   * -x-1.
   */
  lemma IntOutOfRange(x: int, rest: seq<byte>)
    requires 0x8000_0000 <= x < 0x1_0000_0000
    ensures DecodeZigzag(EncodeInt(x) + rest) == Ok(Parsed(VInt(-x - 1), rest))
  {
    assert x / 0x8000_0000 == 1;
    assert (2 * x) / 2 == x && (2 * x) % 2 == 0;
    XorZero(x);
    assert IntToZigzag(x) == 2 * x + 1;
    VarintRoundTrip(2 * x + 1, rest);
    ValueOfZigzagToInt(2 * x + 1);
    assert (2 * x + 1) / 2 == x;
  }

  /**
   * `_load_i16` is `_load_i32`: nothing checks 16 bits on either side, so an
   * `i16` value beyond 16 bits but within 32 bits loads back as itself.
   */
  lemma I16BeyondWidth(x: int, rest: seq<byte>)
    requires -0x8000_0000 <= x < -0x8000 || 0x8000 <= x < 0x8000_0000
    ensures Decode(I16, EncodeInt(x) + rest) == Ok(Parsed(VInt(x), rest))
  {
    IntRoundTrip(x, rest);
  }
}

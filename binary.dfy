/**
 * The Binary codec: fixed-width big-endian scalars, 4-byte length prefixes,
 * and structs as (type byte, 2-byte tag, value)* closed by a stop byte.
 *
 * `Encode` and `Decode` state the wire format; the `Dump*` and `Load*`
 * methods are the codec's handlers working on streams, and each is proved
 * to write or read exactly what the functions say.
 */
module BinaryCodec {
  import opened Wire
  import opened Schema
  import opened Streams

  // ---------------------------------------------------------------------
  // The wire format, as functions
  // ---------------------------------------------------------------------

  /** `_dump_bool`: 2 for true, 1 for false. */
  function EncodeBool(b: bool): (r: seq<byte>)
    ensures |r| == 1 && (r[0] == SYM_BOOL_FALSE <==> !b)
  {
    [if b then SYM_BOOL_TRUE else SYM_BOOL_FALSE]
  }

  /** `_dump_string`: an unsigned 4-byte length, then the bytes. */
  function EncodeString(bytes: seq<byte>): (r: seq<byte>)
    requires |bytes| < 0x1_0000_0000
    ensures |r| == 4 + |bytes| && r[4..] == bytes && FromBigEndian(r[..4]) == |bytes|
  {
    BigEndianRoundTrip(|bytes|, 4);
    var r := ToBigEndian(|bytes|, 4) + bytes;
    assert r[..4] == ToBigEndian(|bytes|, 4);
    r
  }

  /** The type byte and 2-byte tag in front of a field's value. */
  function FieldHeader(nf: NamedField): (r: seq<byte>)
    requires 0 <= nf.field.tag < 0x1_0000
    ensures |r| == 3 && r[0] == Symbol(nf.field.ty) && r[0] != SYM_STOP
    ensures FromBigEndian(r[1..]) == nf.field.tag
  {
    BigEndianRoundTrip(nf.field.tag, 2);
    var r := [Symbol(nf.field.ty)] + ToBigEndian(nf.field.tag, 2);
    assert r[1..] == ToBigEndian(nf.field.tag, 2);
    r
  }

  /** `_dump_seq`'s header: the element symbol and an unsigned 4-byte count. */
  function SeqHeader(t: Type, n: nat): (r: seq<byte>)
    requires (t.List? || t.Set?) && n < 0x1_0000_0000
    ensures |r| == 5 && r[0] == Symbol(t.elem) && FromBigEndian(r[1..]) == n
  {
    BigEndianRoundTrip(n, 4);
    var r := [Symbol(t.elem)] + ToBigEndian(n, 4);
    assert r[1..] == ToBigEndian(n, 4);
    r
  }

  /** `_dump_map`'s header: the key and value symbols and a signed 4-byte count. */
  function MapHeader(t: Type, n: nat): (r: seq<byte>)
    requires t.Map? && n < 0x8000_0000
    ensures |r| == 6 && r[0] == Symbol(t.key) && r[1] == Symbol(t.value) && UnpackSigned(r[2..]) == n
  {
    PackSignedRoundTrip(n, 4);
    var r := [Symbol(t.key), Symbol(t.value)] + PackSigned(n, 4);
    assert r[2..] == PackSigned(n, 4);
    r
  }

  function Encode(t: Type, v: Value): (r: seq<byte>)
    requires ValidType(t) && Conforms(t, v)
    ensures |r| >= 1
    decreases t, 1
  {
    match t
    case Bool => EncodeBool(v.b)
    case Byte => [v.i]
    case I16 => PackSigned(v.i, 2)
    case I32 => PackSigned(v.i, 4)
    case I64 => PackSigned(v.i, 8)
    case Double => ToBigEndian(v.bits, 8)
    case ByteString => EncodeString(v.bytes)
    case Unicode => EncodeString(v.bytes)
    case Struct(fs) => EncodeFields(t, v, 0) + [SYM_STOP]
    case List(e) => SeqHeader(t, |v.elems|) + EncodeElems(t, v, 0)
    case Set(e) => SeqHeader(t, |v.elems|) + EncodeElems(t, v, 0)
    case Map(k, w) => MapHeader(t, |v.entries|) + EncodeEntries(t, v, 0)
  }

  /** Fields `i..` of the struct in schema order, each as its symbol, its 2-byte tag and its value. */
  function EncodeFields(t: Type, v: Value, i: nat): (r: seq<byte>)
    requires t.Struct? && ValidType(t) && Conforms(t, v) && i <= |t.fields|
    ensures r == [] <==> i == |t.fields|
    ensures r != [] ==> r[0] == Symbol(t.fields[i].field.ty) && r[0] != SYM_STOP
    decreases t, 0, |t.fields| - i
  {
    if i == |t.fields| then []
    else
      var nf := t.fields[i];
      assert nf in t.fields;
      FieldHeader(nf) + Encode(nf.field.ty, v.attrs[nf.name]) + EncodeFields(t, v, i + 1)
  }

  /** Elements `i..` of a list or set. */
  function EncodeElems(t: Type, v: Value, i: nat): seq<byte>
    requires (t.List? || t.Set?) && ValidType(t) && Conforms(t, v) && i <= |v.elems|
    decreases t, 0, |v.elems| - i
  {
    if i == |v.elems| then []
    else
      assert v.elems[i] in v.elems;
      Encode(t.elem, v.elems[i]) + EncodeElems(t, v, i + 1)
  }

  /** Entries `i..` of a map, each as its key followed by its value. */
  function EncodeEntries(t: Type, v: Value, i: nat): seq<byte>
    requires t.Map? && ValidType(t) && Conforms(t, v) && i <= |v.entries|
    decreases t, 0, |v.entries| - i
  {
    if i == |v.entries| then []
    else
      var p := v.entries[i];
      assert p in v.entries;
      Encode(t.key, p.0) + Encode(t.value, p.1) + EncodeEntries(t, v, i + 1)
  }

  /** `_load_bool`: every byte other than 1 reads as true. */
  function DecodeBool(s: seq<byte>): (r: Result<Parsed<Value>>)
    ensures r.Ok? ==> |r.value.rest| < |s|
  {
    if |s| < 1 then Err(EndOfStream) else Ok(Parsed(VBool(s[0] != SYM_BOOL_FALSE), s[1..]))
  }

  /** `_load_byte`: one unsigned byte. */
  function DecodeByte(s: seq<byte>): (r: Result<Parsed<Value>>)
    ensures r.Ok? ==> |r.value.rest| < |s|
  {
    if |s| < 1 then Err(EndOfStream) else Ok(Parsed(VInt(s[0]), s[1..]))
  }

  /** `_load_i16`, `_load_i32`, `_load_i64`: a signed big-endian integer of `width` bytes. */
  function DecodeSigned(s: seq<byte>, width: nat): (r: Result<Parsed<Value>>)
    requires width >= 1
    ensures r.Ok? ==> |r.value.rest| < |s| && r.value.value.VInt? && InSigned(r.value.value.i, width)
  {
    if |s| < width then Err(EndOfStream) else Ok(Parsed(VInt(UnpackSigned(s[..width])), s[width..]))
  }

  /** `_load_double`: the 8-byte pattern, kept as bits. */
  function DecodeDouble(s: seq<byte>): (r: Result<Parsed<Value>>)
    ensures r.Ok? ==> |r.value.rest| < |s|
  {
    if |s| < 8 then Err(EndOfStream) else Ok(Parsed(VDouble(FromBigEndian(s[..8])), s[8..]))
  }

  /**
   * `_load_string`: the length is read as a signed 32-bit integer and must
   * not be negative; a positive length must be followed by that many bytes.
   */
  function DecodeString(s: seq<byte>): (r: Result<Parsed<Value>>)
    ensures r.Ok? ==> |r.value.rest| < |s|
  {
    match DecodeSigned(s, 4)
    case Err(e) => Err(e)
    case Ok(p) =>
      var num := p.value.i;
      if num < 0 then Err(NegativeLength(num))
      else if num > 0 then
        (if |p.rest| < num then Err(EndOfStream) else Ok(Parsed(VBytes(p.rest[..num]), p.rest[num..])))
      else Ok(Parsed(VBytes([]), p.rest))
  }

  function Decode(t: Type, s: seq<byte>): (r: Result<Parsed<Value>>)
    ensures r.Ok? ==> |r.value.rest| < |s|
    decreases t, 2, 0
  {
    match t
    case Bool => DecodeBool(s)
    case Byte => DecodeByte(s)
    case I16 => DecodeSigned(s, 2)
    case I32 => DecodeSigned(s, 4)
    case I64 => DecodeSigned(s, 8)
    case Double => DecodeDouble(s)
    case ByteString => DecodeString(s)
    case Unicode => DecodeString(s)
    case Struct(_) => DecodeFields(t, s, map[])
    case List(_) =>
      (match DecodeSeq(t, s)
       case Err(e) => Err(e)
       case Ok(p) => Ok(Parsed(VList(p.value), p.rest)))
    case Set(_) =>
      (match DecodeSeq(t, s)
       case Err(e) => Err(e)
       case Ok(p) => Ok(Parsed(VSet(Dedup(p.value)), p.rest)))
    case Map(_, _) => DecodeMap(t, s)
  }

  /**
   * The loop of `_load_struct` from the current position, with `vals` the
   * values read so far: a stop byte ends it; otherwise the type byte is
   * skipped, the 2-byte tag selects the field (an unknown tag fails) and
   * the field's value is read.
   */
  function DecodeFields(t: Type, s: seq<byte>, vals: map<string, Value>): (r: Result<Parsed<Value>>)
    requires t.Struct?
    ensures r.Ok? ==> |r.value.rest| < |s|
    decreases t, 0, |s|
  {
    if |s| < 1 then Err(EndOfStream)
    else if s[0] == SYM_STOP then
      (match StructInit(t.fields, [], vals)
       case Err(e) => Err(e)
       case Ok(attrs) => Ok(Parsed(VStruct(attrs), s[1..])))
    else if |s| < 3 then Err(EndOfStream)
    else
      var tag := FromBigEndian(s[1..3]);
      match FindTag(t.fields, tag)
      case None => Err(UnknownTag(tag))
      case Some(i) =>
        var nf := t.fields[i];
        match Decode(nf.field.ty, s[3..])
        case Err(e) => Err(e)
        case Ok(p) => DecodeFields(t, p.rest, vals[nf.name := p.value])
  }

  /** `_load_seq`: the element type byte (ignored), an unsigned 4-byte count, the elements. */
  function DecodeSeq(t: Type, s: seq<byte>): (r: Result<Parsed<seq<Value>>>)
    requires t.List? || t.Set?
    ensures r.Ok? ==> |r.value.rest| < |s|
    decreases t, 1, 0
  {
    if |s| < 5 then Err(EndOfStream)
    else DecodeItems(t, FromBigEndian(s[1..5]), s[5..], [])
  }

  /**
   * `n` more elements after the ones in `acc`. `set()` hashes each element
   * as it arrives, so a set of lists, sets or dicts fails on its first one.
   */
  function DecodeItems(t: Type, n: nat, s: seq<byte>, acc: seq<Value>): (r: Result<Parsed<seq<Value>>>)
    requires t.List? || t.Set?
    ensures r.Ok? ==> |r.value.rest| <= |s|
    decreases t, 0, n
  {
    if n == 0 then Ok(Parsed(acc, s))
    else
      match Decode(t.elem, s)
      case Err(e) => Err(e)
      case Ok(p) =>
        if t.Set? && !Hashable(t.elem) then Err(Unhashable)
        else DecodeItems(t, n - 1, p.rest, acc + [p.value])
  }

  /**
   * `_load_map`: key and value type bytes (ignored), a signed 4-byte count
   * (a negative count reads no entries), then the pairs.
   */
  function DecodeMap(t: Type, s: seq<byte>): (r: Result<Parsed<Value>>)
    requires t.Map?
    ensures r.Ok? ==> |r.value.rest| < |s|
    decreases t, 1, 0
  {
    if |s| < 6 then Err(EndOfStream)
    else
      var size := UnpackSigned(s[2..6]);
      match DecodeEntries(t, if size < 0 then 0 else size, s[6..], [])
      case Err(e) => Err(e)
      case Ok(p) => Ok(Parsed(VMap(p.value), p.rest))
  }

  /**
   * `n` more pairs, each stored with `result[key] = value`; a list, set or
   * dict key fails once its pair has been read.
   */
  function DecodeEntries(t: Type, n: nat, s: seq<byte>, acc: seq<(Value, Value)>)
    : (r: Result<Parsed<seq<(Value, Value)>>>)
    requires t.Map?
    ensures r.Ok? ==> |r.value.rest| <= |s|
    decreases t, 0, n
  {
    if n == 0 then Ok(Parsed(acc, s))
    else
      match Decode(t.key, s)
      case Err(e) => Err(e)
      case Ok(pk) =>
        match Decode(t.value, pk.rest)
        case Err(e) => Err(e)
        case Ok(pv) =>
          if !Hashable(t.key) then Err(Unhashable)
          else DecodeEntries(t, n - 1, pv.rest, Put(acc, pk.value, pv.value))
  }

  // ---------------------------------------------------------------------
  // The handlers, over streams
  // ---------------------------------------------------------------------

  /** `Codec.dump`: dispatch on the type. */
  method Dump(t: Type, v: Value, out: OutputStream)
    requires ValidType(t) && Conforms(t, v)
    modifies out
    ensures out.data == old(out.data) + Encode(t, v)
    decreases t, 1
  {
    match t
    case Bool => DumpBool(v.b, out);
    case Byte => DumpByte(v.i, out);
    case I16 => DumpSigned(v.i, 2, out);
    case I32 => DumpSigned(v.i, 4, out);
    case I64 => DumpSigned(v.i, 8, out);
    case Double => DumpDouble(v.bits, out);
    case ByteString => DumpString(v.bytes, out);
    case Unicode => DumpString(v.bytes, out);
    case Struct(_) => DumpStruct(t, v, out);
    case List(_) => DumpSeq(t, v, out);
    case Set(_) => DumpSeq(t, v, out);
    case Map(_, _) => DumpMap(t, v, out);
  }

  method DumpBool(b: bool, out: OutputStream)
    modifies out
    ensures out.data == old(out.data) + EncodeBool(b)
  {
    out.Write([if b then SYM_BOOL_TRUE else SYM_BOOL_FALSE]);
  }

  method DumpByte(x: byte, out: OutputStream)
    modifies out
    ensures out.data == old(out.data) + [x]
  {
    out.Write([x]);
  }

  method DumpSigned(x: int, width: nat, out: OutputStream)
    requires width >= 1 && InSigned(x, width)
    modifies out
    ensures out.data == old(out.data) + PackSigned(x, width)
  {
    out.Write(PackSigned(x, width));
  }

  method DumpDouble(bits: nat, out: OutputStream)
    requires bits < Pow256(8)
    modifies out
    ensures out.data == old(out.data) + ToBigEndian(bits, 8)
  {
    out.Write(ToBigEndian(bits, 8));
  }

  method DumpString(bytes: seq<byte>, out: OutputStream)
    requires |bytes| < 0x1_0000_0000
    modifies out
    ensures out.data == old(out.data) + EncodeString(bytes)
  {
    out.Write(ToBigEndian(|bytes|, 4));
    out.Write(bytes);
  }

  /** `_dump_struct`: the fields in the schema's order, then the stop byte. */
  method DumpStruct(t: Type, v: Value, out: OutputStream)
    requires t.Struct? && ValidType(t) && Conforms(t, v)
    modifies out
    ensures out.data == old(out.data) + EncodeFields(t, v, 0) + [SYM_STOP]
    decreases t, 0
  {
    for i := 0 to |t.fields|
      invariant old(out.data) + EncodeFields(t, v, 0) == out.data + EncodeFields(t, v, i)
    {
      var nf := t.fields[i];
      assert nf in t.fields;
      ghost var before := out.data;
      out.Write(FieldHeader(nf));
      Dump(nf.field.ty, v.attrs[nf.name], out);
      Regroup(before, FieldHeader(nf), Encode(nf.field.ty, v.attrs[nf.name]), EncodeFields(t, v, i + 1));
    }
    out.Write([SYM_STOP]);
  }

  /** `_dump_seq`: the header, then the elements. */
  method DumpSeq(t: Type, v: Value, out: OutputStream)
    requires (t.List? || t.Set?) && ValidType(t) && Conforms(t, v)
    modifies out
    ensures out.data == old(out.data) + (SeqHeader(t, |v.elems|) + EncodeElems(t, v, 0))
    decreases t, 0
  {
    out.Write(SeqHeader(t, |v.elems|));
    ghost var mid := out.data;
    for i := 0 to |v.elems|
      invariant mid + EncodeElems(t, v, 0) == out.data + EncodeElems(t, v, i)
    {
      assert v.elems[i] in v.elems;
      ghost var before := out.data;
      Dump(t.elem, v.elems[i], out);
      Append3(before, Encode(t.elem, v.elems[i]), EncodeElems(t, v, i + 1));
    }
    Append3(old(out.data), SeqHeader(t, |v.elems|), EncodeElems(t, v, 0));
  }

  /** `_dump_map`: the header, then each key followed by its value. */
  method DumpMap(t: Type, v: Value, out: OutputStream)
    requires t.Map? && ValidType(t) && Conforms(t, v)
    modifies out
    ensures out.data == old(out.data) + (MapHeader(t, |v.entries|) + EncodeEntries(t, v, 0))
    decreases t, 0
  {
    out.Write(MapHeader(t, |v.entries|));
    ghost var mid := out.data;
    for i := 0 to |v.entries|
      invariant mid + EncodeEntries(t, v, 0) == out.data + EncodeEntries(t, v, i)
    {
      var p := v.entries[i];
      assert p in v.entries;
      ghost var before := out.data;
      Dump(t.key, p.0, out);
      Dump(t.value, p.1, out);
      Regroup(before, Encode(t.key, p.0), Encode(t.value, p.1), EncodeEntries(t, v, i + 1));
    }
    Append3(old(out.data), MapHeader(t, |v.entries|), EncodeEntries(t, v, 0));
  }

  /** `Codec.load`: dispatch on the type. */
  method Load(t: Type, inp: InputStream) returns (r: Result<Value>)
    requires inp.Valid()
    modifies inp
    ensures inp.Valid() && Consumed(r, Decode(t, old(inp.Rest())), inp.Rest())
    decreases t, 3
  {
    match t
    case Bool => r := LoadBool(inp);
    case Byte => r := LoadByte(inp);
    case I16 => r := LoadSigned(inp, 2);
    case I32 => r := LoadSigned(inp, 4);
    case I64 => r := LoadSigned(inp, 8);
    case Double => r := LoadDouble(inp);
    case ByteString => r := LoadString(inp);
    case Unicode => r := LoadString(inp);
    case Struct(_) => r := LoadStruct(t, inp);
    case List(_) => r := LoadList(t, inp);
    case Set(_) => r := LoadSet(t, inp);
    case Map(_, _) => r := LoadMap(t, inp);
  }

  /** `_load_list`: the loaded elements, in order. */
  method LoadList(t: Type, inp: InputStream) returns (r: Result<Value>)
    requires t.List? && inp.Valid()
    modifies inp
    ensures inp.Valid() && Consumed(r, Decode(t, old(inp.Rest())), inp.Rest())
    decreases t, 2
  {
    var items := LoadSeq(t, inp);
    r := if items.Ok? then Ok(VList(items.value)) else Err(items.error);
  }

  /** `_load_set`: `set()` of the loaded elements. */
  method LoadSet(t: Type, inp: InputStream) returns (r: Result<Value>)
    requires t.Set? && inp.Valid()
    modifies inp
    ensures inp.Valid() && Consumed(r, Decode(t, old(inp.Rest())), inp.Rest())
    decreases t, 2
  {
    var items := LoadSeq(t, inp);
    r := if items.Ok? then Ok(VSet(Dedup(items.value))) else Err(items.error);
  }

  method LoadBool(inp: InputStream) returns (r: Result<Value>)
    requires inp.Valid()
    modifies inp
    ensures inp.Valid() && Consumed(r, DecodeBool(old(inp.Rest())), inp.Rest())
  {
    var buf := inp.Read(1);
    if |buf| != 1 {
      return Err(EndOfStream);
    }
    return Ok(VBool(buf[0] != SYM_BOOL_FALSE));
  }

  method LoadByte(inp: InputStream) returns (r: Result<Value>)
    requires inp.Valid()
    modifies inp
    ensures inp.Valid() && Consumed(r, DecodeByte(old(inp.Rest())), inp.Rest())
  {
    var buf := inp.Read(1);
    if |buf| == 0 {
      return Err(EndOfStream);
    }
    return Ok(VInt(buf[0]));
  }

  method LoadSigned(inp: InputStream, width: nat) returns (r: Result<Value>)
    requires inp.Valid() && width >= 1
    modifies inp
    ensures inp.Valid() && Consumed(r, DecodeSigned(old(inp.Rest()), width), inp.Rest())
  {
    var buf := inp.Read(width);
    if |buf| != width {
      return Err(EndOfStream);
    }
    return Ok(VInt(UnpackSigned(buf)));
  }

  method LoadDouble(inp: InputStream) returns (r: Result<Value>)
    requires inp.Valid()
    modifies inp
    ensures inp.Valid() && Consumed(r, DecodeDouble(old(inp.Rest())), inp.Rest())
  {
    var buf := inp.Read(8);
    if |buf| != 8 {
      return Err(EndOfStream);
    }
    return Ok(VDouble(FromBigEndian(buf)));
  }

  method LoadString(inp: InputStream) returns (r: Result<Value>)
    requires inp.Valid()
    modifies inp
    ensures inp.Valid() && Consumed(r, DecodeString(old(inp.Rest())), inp.Rest())
  {
    var len := LoadSigned(inp, 4);
    if len.Err? {
      return Err(len.error);
    }
    var num := len.value.i;
    if num < 0 {
      return Err(NegativeLength(num));  // assert num >= 0
    }
    var buf: seq<byte> := [];
    if num > 0 {
      buf := inp.Read(num);
      if |buf| != num {
        return Err(EndOfStream);
      }
    }
    return Ok(VBytes(buf));
  }

  /** `_load_struct`: read fields until the stop byte, then construct the instance from them. */
  method LoadStruct(t: Type, inp: InputStream) returns (r: Result<Value>)
    requires t.Struct? && inp.Valid()
    modifies inp
    ensures inp.Valid() && Consumed(r, DecodeFields(t, old(inp.Rest()), map[]), inp.Rest())
    decreases t, 0
  {
    ghost var spec := DecodeFields(t, inp.Rest(), map[]);
    var vals: map<string, Value> := map[];
    while true
      invariant inp.Valid()
      invariant spec == DecodeFields(t, inp.Rest(), vals)
      decreases |inp.Rest()|
    {
      ghost var here := inp.Rest();
      var sym := inp.Read(1);
      if |sym| == 0 {
        return Err(EndOfStream);
      }
      if sym[0] == SYM_STOP {
        break;
      }
      var tagBytes := inp.Read(2);
      if |tagBytes| != 2 {
        return Err(EndOfStream);
      }
      assert here[1..3] == tagBytes && here[3..] == inp.Rest();
      var tag := FromBigEndian(tagBytes);
      var found := FindTag(t.fields, tag);
      if found.None? {
        return Err(UnknownTag(tag));
      }
      var nf := t.fields[found.value];
      var v := Load(nf.field.ty, inp);
      if v.Err? {
        return Err(v.error);
      }
      vals := vals[nf.name := v.value];
    }
    var attrs := InitStruct(t.fields, [], vals);
    if attrs.Err? {
      return Err(attrs.error);
    }
    return Ok(VStruct(attrs.value));
  }

  /** `_load_seq`, collected into a list by the caller. */
  method LoadSeq(t: Type, inp: InputStream) returns (r: Result<seq<Value>>)
    requires (t.List? || t.Set?) && inp.Valid()
    modifies inp
    ensures inp.Valid() && Consumed(r, DecodeSeq(t, old(inp.Rest())), inp.Rest())
    decreases t, 1
  {
    ghost var spec := DecodeSeq(t, inp.Rest());
    var header := inp.Read(5);
    if |header| != 5 {
      return Err(EndOfStream);
    }
    var size := FromBigEndian(header[1..]);
    var items: seq<Value> := [];
    for i := 0 to size
      invariant inp.Valid()
      invariant spec == DecodeItems(t, size - i, inp.Rest(), items)
    {
      var x := Load(t.elem, inp);
      if x.Err? {
        return Err(x.error);
      }
      if t.Set? && !Hashable(t.elem) {
        return Err(Unhashable);
      }
      items := items + [x.value];
    }
    return Ok(items);
  }

  /** `_load_map`: the header, then the pairs. */
  method LoadMap(t: Type, inp: InputStream) returns (r: Result<Value>)
    requires t.Map? && inp.Valid()
    modifies inp
    ensures inp.Valid() && Consumed(r, DecodeMap(t, old(inp.Rest())), inp.Rest())
    decreases t, 1
  {
    ghost var s0 := inp.Rest();
    var header := inp.Read(6);
    if |header| != 6 {
      return Err(EndOfStream);
    }
    var size := UnpackSigned(header[2..]);
    var n: nat := if size < 0 then 0 else size;
    assert s0[2..6] == header[2..] && s0[6..] == inp.Rest();
    var result := LoadEntries(t, n, inp);
    if result.Err? {
      return Err(result.error);
    }
    return Ok(VMap(result.value));
  }

  /** The loop of `_load_map` over `n` pairs, each key read before its value. */
  method LoadEntries(t: Type, n: nat, inp: InputStream) returns (r: Result<seq<(Value, Value)>>)
    requires t.Map? && inp.Valid()
    modifies inp
    ensures inp.Valid() && Consumed(r, DecodeEntries(t, n, old(inp.Rest()), []), inp.Rest())
    decreases t, 0
  {
    ghost var spec := DecodeEntries(t, n, inp.Rest(), []);
    var result: seq<(Value, Value)> := [];
    for i := 0 to n
      invariant inp.Valid()
      invariant spec == DecodeEntries(t, n - i, inp.Rest(), result)
    {
      var key := Load(t.key, inp);
      if key.Err? {
        return Err(key.error);
      }
      var value := Load(t.value, inp);
      if value.Err? {
        return Err(value.error);
      }
      if !Hashable(t.key) {
        return Err(Unhashable);
      }
      result := Put(result, key.value, value.value);
    }
    return Ok(result);
  }

  // ---------------------------------------------------------------------
  // Properties
  // ---------------------------------------------------------------------

  lemma SignedRoundTrip(x: int, width: nat, rest: seq<byte>)
    requires width >= 1 && InSigned(x, width)
    ensures DecodeSigned(PackSigned(x, width) + rest, width) == Ok(Parsed(VInt(x), rest))
  {
    var s := PackSigned(x, width) + rest;
    assert s[..width] == PackSigned(x, width) && s[width..] == rest;
    PackSignedRoundTrip(x, width);
  }

  /** A length below 2^31 reads back through the signed length field of `_load_string`. */
  lemma StringRoundTrip(bytes: seq<byte>, rest: seq<byte>)
    requires |bytes| < 0x8000_0000
    ensures DecodeString(EncodeString(bytes) + rest) == Ok(Parsed(VBytes(bytes), rest))
  {
    var n := |bytes|;
    var s := EncodeString(bytes) + rest;
    assert ToBigEndian(n, 4) == PackSigned(n, 4);
    SignedRoundTrip(n, 4, bytes + rest);
    assert s == PackSigned(n, 4) + (bytes + rest);
    assert (bytes + rest)[..n] == bytes && (bytes + rest)[n..] == rest;
  }

  /** A negative length prefix is refused, whatever follows it. */
  lemma NegativeLengthFails(n: int, rest: seq<byte>)
    requires -0x8000_0000 <= n < 0
    ensures DecodeString(PackSigned(n, 4) + rest) == Err(NegativeLength(n))
  {
    SignedRoundTrip(n, 4, rest);
  }

  /** Loading what `dump` wrote gives back the value and leaves what follows untouched. */
  lemma {:induction false} RoundTrip(t: Type, v: Value, rest: seq<byte>)
    requires ValidType(t) && Conforms(t, v)
    ensures Decode(t, Encode(t, v) + rest) == Ok(Parsed(v, rest))
    decreases t, 1, 0, 0
  {
    match t
    case Bool =>
      assert (EncodeBool(v.b) + rest)[1..] == rest;
    case Byte =>
      assert ([v.i] + rest)[1..] == rest;
    case I16 => SignedRoundTrip(v.i, 2, rest);
    case I32 => SignedRoundTrip(v.i, 4, rest);
    case I64 => SignedRoundTrip(v.i, 8, rest);
    case Double => DoubleRoundTrip(v.bits, rest);
    case ByteString => StringRoundTrip(v.bytes, rest);
    case Unicode => StringRoundTrip(v.bytes, rest);
    case Struct(_) => StructRoundTrip(t, v, rest);
    case List(_) => SeqRoundTrip(t, v, rest);
    case Set(_) =>
      SeqRoundTrip(t, v, rest);
      DedupOfDistinct(v.elems);
    case Map(_, _) => MapRoundTrip(t, v, rest);
  }

  lemma DoubleRoundTrip(bits: nat, rest: seq<byte>)
    requires bits < 0x1_0000_0000_0000_0000
    ensures DecodeDouble(ToBigEndian(bits, 8) + rest) == Ok(Parsed(VDouble(bits), rest))
  {
    var s := ToBigEndian(bits, 8) + rest;
    assert s[..8] == ToBigEndian(bits, 8) && s[8..] == rest;
    BigEndianRoundTrip(bits, 8);
  }

  lemma {:induction false} StructRoundTrip(t: Type, v: Value, rest: seq<byte>)
    requires t.Struct? && ValidType(t) && Conforms(t, v)
    ensures DecodeFields(t, EncodeFields(t, v, 0) + [SYM_STOP] + rest, map[]) == Ok(Parsed(v, rest))
    decreases t, 0, |t.fields|, 4
  {
    var fs := t.fields;
    var m := v.attrs;
    FieldsRoundTrip(t, v, 0, map[], [SYM_STOP] + rest);
    Append3(EncodeFields(t, v, 0), [SYM_STOP], rest);
    RestrictAll(m, fs);
    StructInitExact(fs, m);
    assert ([SYM_STOP] + rest)[1..] == rest;
  }

  lemma {:induction false} SeqRoundTrip(t: Type, v: Value, rest: seq<byte>)
    requires (t.List? || t.Set?) && ValidType(t) && Conforms(t, v)
    ensures DecodeSeq(t, SeqHeader(t, |v.elems|) + EncodeElems(t, v, 0) + rest) == Ok(Parsed(v.elems, rest))
    decreases t, 0, |v.elems|, 4
  {
    var body := EncodeElems(t, v, 0) + rest;
    assert v.elems[..0] == [];
    ItemsRoundTrip(t, v, 0, rest);
    SeqHeaderParts(t, |v.elems|, body);
    Append3(SeqHeader(t, |v.elems|), EncodeElems(t, v, 0), rest);
  }

  /** A list or set header reads back as its count, and the elements follow it. */
  lemma SeqHeaderParts(t: Type, n: nat, body: seq<byte>)
    requires (t.List? || t.Set?) && n < 0x1_0000_0000
    ensures var s := SeqHeader(t, n) + body;
      |s| >= 5 && FromBigEndian(s[1..5]) == n && s[5..] == body
  {
    var h := SeqHeader(t, n);
    assert (h + body)[1..5] == h[1..];
  }

  /** A map header reads back as its count, and the entries are read from what follows it. */
  lemma MapHeaderParts(t: Type, n: nat, body: seq<byte>, entries: seq<(Value, Value)>, rest: seq<byte>)
    requires t.Map? && n < 0x8000_0000
    requires DecodeEntries(t, n, body, []) == Ok(Parsed(entries, rest))
    ensures DecodeMap(t, MapHeader(t, n) + body) == Ok(Parsed(VMap(entries), rest))
  {
    var h := MapHeader(t, n);
    assert (h + body)[2..6] == h[2..];
    assert (h + body)[6..] == body;
  }

  lemma {:induction false} MapRoundTrip(t: Type, v: Value, rest: seq<byte>)
    requires t.Map? && ValidType(t) && Conforms(t, v)
    ensures DecodeMap(t, MapHeader(t, |v.entries|) + EncodeEntries(t, v, 0) + rest) == Ok(Parsed(v, rest))
    decreases t, 0, |v.entries|, 4
  {
    var body := EncodeEntries(t, v, 0) + rest;
    assert v.entries[..0] == [];
    EntriesRoundTrip(t, v, 0, rest);
    MapHeaderParts(t, |v.entries|, body, v.entries, rest);
    Append3(MapHeader(t, |v.entries|), EncodeEntries(t, v, 0), rest);
  }

  /** One field of the `_load_struct` loop: a known tag, then that field's value. */
  lemma FieldStep(t: Type, s: seq<byte>, vals: map<string, Value>, j: nat, x: Value, after: seq<byte>)
    requires t.Struct? && j < |t.fields| && |s| >= 3 && s[0] != SYM_STOP
    requires FindTag(t.fields, FromBigEndian(s[1..3])) == Some(j)
    requires Decode(t.fields[j].field.ty, s[3..]) == Ok(Parsed(x, after))
    ensures DecodeFields(t, s, vals) == DecodeFields(t, after, vals[t.fields[j].name := x])
  {
  }

  /**
   * Fields `i..` read back into `vals`: each header finds its field by tag
   * and each value reads back, so decoding resumes after them with their
   * attributes added.
   */
  lemma {:induction false} FieldsRoundTrip(t: Type, v: Value, i: nat, vals: map<string, Value>, rest: seq<byte>)
    requires t.Struct? && ValidType(t) && Conforms(t, v) && i <= |t.fields|
    ensures DecodeFields(t, EncodeFields(t, v, i) + rest, vals)
         == DecodeFields(t, rest, vals + Restrict(v.attrs, t.fields[i..]))
    decreases t, 0, |t.fields| - i, 3
  {
    if i == |t.fields| {
      assert EncodeFields(t, v, i) + rest == rest;
      assert vals + Restrict(v.attrs, t.fields[i..]) == vals;
    } else {
      FieldsCons(t, v, i, vals, rest);
    }
  }

  lemma {:induction false} FieldsCons(t: Type, v: Value, i: nat, vals: map<string, Value>, rest: seq<byte>)
    requires t.Struct? && ValidType(t) && Conforms(t, v) && i < |t.fields|
    ensures DecodeFields(t, EncodeFields(t, v, i) + rest, vals)
         == DecodeFields(t, rest, vals + Restrict(v.attrs, t.fields[i..]))
    decreases t, 0, |t.fields| - i, 2
  {
    var nf := t.fields[i];
    FieldHead(t, v, i, vals, rest);
    FieldsRoundTrip(t, v, i + 1, vals[nf.name := v.attrs[nf.name]], rest);
    RestrictStep(v.attrs, t.fields, i, vals);
  }

  /** Field `i` is found by its tag and its value stored, and decoding resumes after it. */
  lemma {:induction false} FieldHead(t: Type, v: Value, i: nat, vals: map<string, Value>, rest: seq<byte>)
    requires t.Struct? && ValidType(t) && Conforms(t, v) && i < |t.fields|
    ensures t.fields[i].name in v.attrs
    ensures DecodeFields(t, EncodeFields(t, v, i) + rest, vals)
         == DecodeFields(t, EncodeFields(t, v, i + 1) + rest, vals[t.fields[i].name := v.attrs[t.fields[i].name]])
    decreases t, 0, |t.fields| - i, 1
  {
    var nf := t.fields[i];
    assert nf in t.fields;
    var x := v.attrs[nf.name];
    var after := EncodeFields(t, v, i + 1) + rest;
    var s := EncodeFields(t, v, i) + rest;
    HeaderParts(nf, Encode(nf.field.ty, x) + after);
    Nest(FieldHeader(nf), Encode(nf.field.ty, x), EncodeFields(t, v, i + 1), rest);
    FindTagOf(t.fields, i);
    RoundTrip(nf.field.ty, x, after);
    FieldStep(t, s, vals, i, x, after);
  }

  /** A field header is read as a non-stop byte, then the field's tag. */
  lemma HeaderParts(nf: NamedField, body: seq<byte>)
    requires 0 <= nf.field.tag < 0x1_0000
    ensures var s := FieldHeader(nf) + body;
      |s| >= 3 && s[0] == Symbol(nf.field.ty) && FromBigEndian(s[1..3]) == nf.field.tag && s[3..] == body
  {
    var s := FieldHeader(nf) + body;
    assert s[1..3] == ToBigEndian(nf.field.tag, 2);
    BigEndianRoundTrip(nf.field.tag, 2);
  }

  lemma ItemStep(t: Type, n: nat, s: seq<byte>, acc: seq<Value>, x: Value, after: seq<byte>)
    requires (t.List? || (t.Set? && Hashable(t.elem))) && n > 0 && Decode(t.elem, s) == Ok(Parsed(x, after))
    ensures DecodeItems(t, n, s, acc) == DecodeItems(t, n - 1, after, acc + [x])
  {
  }

  /** With elements `..i` already read, the rest of the elements read back. */
  lemma {:induction false} ItemsRoundTrip(t: Type, v: Value, i: nat, rest: seq<byte>)
    requires (t.List? || t.Set?) && ValidType(t) && Conforms(t, v) && i <= |v.elems|
    ensures DecodeItems(t, |v.elems| - i, EncodeElems(t, v, i) + rest, v.elems[..i]) == Ok(Parsed(v.elems, rest))
    decreases t, 0, |v.elems| - i, 3
  {
    if i == |v.elems| {
      assert EncodeElems(t, v, i) + rest == rest;
      assert v.elems[..i] == v.elems;
    } else {
      ItemsCons(t, v, i, rest);
    }
  }

  lemma {:induction false} ItemsCons(t: Type, v: Value, i: nat, rest: seq<byte>)
    requires (t.List? || t.Set?) && ValidType(t) && Conforms(t, v) && i < |v.elems|
    ensures DecodeItems(t, |v.elems| - i, EncodeElems(t, v, i) + rest, v.elems[..i]) == Ok(Parsed(v.elems, rest))
    decreases t, 0, |v.elems| - i, 2
  {
    ItemHead(t, v, i, rest);
    ItemsRoundTrip(t, v, i + 1, rest);
  }

  /** Element `i` reads back and is appended to the ones before it, and decoding resumes after it. */
  lemma {:induction false} ItemHead(t: Type, v: Value, i: nat, rest: seq<byte>)
    requires (t.List? || t.Set?) && ValidType(t) && Conforms(t, v) && i < |v.elems|
    ensures DecodeItems(t, |v.elems| - i, EncodeElems(t, v, i) + rest, v.elems[..i])
         == DecodeItems(t, |v.elems| - (i + 1), EncodeElems(t, v, i + 1) + rest, v.elems[..i + 1])
    decreases t, 0, |v.elems| - i, 1
  {
    var x := v.elems[i];
    assert x in v.elems;
    var after := EncodeElems(t, v, i + 1) + rest;
    Append3(Encode(t.elem, x), EncodeElems(t, v, i + 1), rest);
    RoundTrip(t.elem, x, after);
    ItemStep(t, |v.elems| - i, EncodeElems(t, v, i) + rest, v.elems[..i], x, after);
    PrefixSnoc(v.elems, i);
  }

  lemma EntryStep(t: Type, n: nat, s: seq<byte>, acc: seq<(Value, Value)>, p: (Value, Value), mid: seq<byte>, after: seq<byte>)
    requires t.Map? && Hashable(t.key) && n > 0
    requires Decode(t.key, s) == Ok(Parsed(p.0, mid)) && Decode(t.value, mid) == Ok(Parsed(p.1, after))
    ensures DecodeEntries(t, n, s, acc) == DecodeEntries(t, n - 1, after, Put(acc, p.0, p.1))
  {
  }

  /** With entries `..i` already stored, the rest of the entries read back. */
  lemma {:induction false} EntriesRoundTrip(t: Type, v: Value, i: nat, rest: seq<byte>)
    requires t.Map? && ValidType(t) && Conforms(t, v) && i <= |v.entries|
    ensures DecodeEntries(t, |v.entries| - i, EncodeEntries(t, v, i) + rest, v.entries[..i])
         == Ok(Parsed(v.entries, rest))
    decreases t, 0, |v.entries| - i, 3
  {
    if i == |v.entries| {
      assert EncodeEntries(t, v, i) + rest == rest;
      assert v.entries[..i] == v.entries;
    } else {
      EntriesCons(t, v, i, rest);
    }
  }

  lemma {:induction false} EntriesCons(t: Type, v: Value, i: nat, rest: seq<byte>)
    requires t.Map? && ValidType(t) && Conforms(t, v) && i < |v.entries|
    ensures DecodeEntries(t, |v.entries| - i, EncodeEntries(t, v, i) + rest, v.entries[..i])
         == Ok(Parsed(v.entries, rest))
    decreases t, 0, |v.entries| - i, 2
  {
    var next := DecodeEntries(t, |v.entries| - (i + 1), EncodeEntries(t, v, i + 1) + rest, v.entries[..i + 1]);
    EntriesRoundTrip(t, v, i + 1, rest);
    assert next == Ok(Parsed(v.entries, rest));
    EntryHead(t, v, i, rest);
  }

  /**
   * Entry `i` reads back as its key, then its value, and storing it extends
   * the entries before it; decoding resumes after it.
   */
  lemma {:induction false} EntryHead(t: Type, v: Value, i: nat, rest: seq<byte>)
    requires t.Map? && ValidType(t) && Conforms(t, v) && i < |v.entries|
    ensures DecodeEntries(t, |v.entries| - i, EncodeEntries(t, v, i) + rest, v.entries[..i])
         == DecodeEntries(t, |v.entries| - (i + 1), EncodeEntries(t, v, i + 1) + rest, v.entries[..i + 1])
    decreases t, 0, |v.entries| - i, 1
  {
    var p := v.entries[i];
    assert p in v.entries;
    var after := EncodeEntries(t, v, i + 1) + rest;
    var mid := Encode(t.value, p.1) + after;
    Nest(Encode(t.key, p.0), Encode(t.value, p.1), EncodeEntries(t, v, i + 1), rest);
    RoundTrip(t.key, p.0, mid);
    RoundTrip(t.value, p.1, after);
    EntryStep(t, |v.entries| - i, EncodeEntries(t, v, i) + rest, v.entries[..i], p, mid, after);
    PutPrefix(v.entries, i);
  }

  /** A field header whose tag names no field of the struct fails the load. */
  lemma UnknownTagFails(t: Type, sym: byte, tag: nat, rest: seq<byte>, vals: map<string, Value>)
    requires t.Struct? && sym != SYM_STOP && tag < 0x1_0000 && tag !in Tags(t.fields)
    ensures DecodeFields(t, [sym] + ToBigEndian(tag, 2) + rest, vals) == Err(UnknownTag(tag))
  {
    var s := [sym] + ToBigEndian(tag, 2) + rest;
    assert s[1..3] == ToBigEndian(tag, 2);
    BigEndianRoundTrip(tag, 2);
  }

  /** The type byte of a field header is only compared with the stop byte: any other value reads the same. */
  lemma TypeByteIgnored(t: Type, sym1: byte, sym2: byte, s: seq<byte>, vals: map<string, Value>)
    requires t.Struct? && sym1 != SYM_STOP && sym2 != SYM_STOP
    ensures DecodeFields(t, [sym1] + s, vals) == DecodeFields(t, [sym2] + s, vals)
  {
    assert ([sym1] + s)[1..] == s == ([sym2] + s)[1..];
    if |s| >= 2 {
      assert ([sym1] + s)[1..3] == s[..2] == ([sym2] + s)[1..3];
      assert ([sym1] + s)[3..] == s[2..] == ([sym2] + s)[3..];
    }
  }

  /**
   * A set of lists is a stream Python's `set()` cannot build: the first
   * element (an empty list of booleans) reads back, and hashing it fails.
   */
  lemma SetOfListsFails(rest: seq<byte>)
    ensures Decode(Set(List(Bool)), [T_LIST, 0, 0, 0, 1, T_BOOL, 0, 0, 0, 0] + rest) == Err(Unhashable)
  {
    var s := [T_LIST, 0, 0, 0, 1, T_BOOL, 0, 0, 0, 0] + rest;
    assert s[1..5] == [0, 0, 0, 1];
    assert FromBigEndian([0, 0, 0, 1]) == 1 by {
      assert [0, 0, 0, 1][..3] == [0, 0, 0] && [0, 0, 0][..2] == [0, 0] && [0, 0][..1] == [0];
    }
    var tail := s[5..];
    assert tail == [T_BOOL, 0, 0, 0, 0] + rest;
    assert tail[1..5] == [0, 0, 0, 0];
    assert FromBigEndian([0, 0, 0, 0]) == 0 by {
      assert [0, 0, 0, 0][..3] == [0, 0, 0] && [0, 0, 0][..2] == [0, 0] && [0, 0][..1] == [0];
    }
    assert DecodeSeq(List(Bool), tail) == Ok(Parsed([], tail[5..]));
  }

  /** A dict keyed by lists fails the same way once its first pair has been read. */
  lemma MapWithListKeyFails(rest: seq<byte>)
    ensures Decode(Map(List(Bool), Bool), [T_LIST, T_BOOL, 0, 0, 0, 1, T_BOOL, 0, 0, 0, 0, 1] + rest) == Err(Unhashable)
  {
    var s := [T_LIST, T_BOOL, 0, 0, 0, 1, T_BOOL, 0, 0, 0, 0, 1] + rest;
    assert s[2..6] == [0, 0, 0, 1];
    assert UnpackSigned([0, 0, 0, 1]) == 1 by {
      assert [0, 0, 0, 1][..3] == [0, 0, 0] && [0, 0, 0][..2] == [0, 0] && [0, 0][..1] == [0];
    }
    var tail := s[6..];
    assert tail == [T_BOOL, 0, 0, 0, 0, 1] + rest;
    assert tail[1..5] == [0, 0, 0, 0];
    assert FromBigEndian([0, 0, 0, 0]) == 0 by {
      assert [0, 0, 0, 0][..3] == [0, 0, 0] && [0, 0, 0][..2] == [0, 0] && [0, 0][..1] == [0];
    }
    assert DecodeSeq(List(Bool), tail) == Ok(Parsed([], tail[5..]));
    assert tail[5..] == [1] + rest;
  }
}

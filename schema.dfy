/**
 * The type and schema model both codecs share: wire type ids, the type of a
 * field, tagged struct fields, parametrised containers, the values that
 * inhabit those types, and the two schema-time operations (`add_field` and
 * the struct constructor).
 */
module Schema {
  import opened Wire

  // Type ids.
  const T_BOOL: byte := 2
  const T_BYTE: byte := 3
  const T_I8: byte := 3
  const T_DOUBLE: byte := 4
  const T_I16: byte := 6
  const T_I32: byte := 8
  const T_I64: byte := 10
  const T_STRING: byte := 11
  const T_STRUCT: byte := 12
  const T_MAP: byte := 13
  const T_SET: byte := 14
  const T_LIST: byte := 15
  const T_UTF8: byte := 16
  const T_UTF16: byte := 17

  // Encoding symbols; the Compact codec overloads 1 and 2 as the two booleans.
  const SYM_STOP: byte := 0
  const SYM_VOID: byte := 1
  const SYM_BOOL_FALSE: byte := 1
  const SYM_BOOL_TRUE: byte := 2
  const SYM_BOOL: byte := 2
  const SYM_BYTE: byte := 3
  const SYM_DOUBLE: byte := 4
  const SYM_I16: byte := 6
  const SYM_I32: byte := 8
  const SYM_I64: byte := 10
  const SYM_STRING: byte := 11
  const SYM_STRUCT: byte := 12
  const SYM_MAP: byte := 13
  const SYM_SET: byte := 14
  const SYM_LIST: byte := 15

  /** `_type_to_symbol`: both text encodings are written as strings. */
  const TYPE_TO_SYMBOL: map<byte, byte> := map[
    T_BOOL := SYM_BOOL, T_BYTE := SYM_BYTE, T_DOUBLE := SYM_DOUBLE,
    T_I16 := SYM_I16, T_I32 := SYM_I32, T_I64 := SYM_I64,
    T_STRING := SYM_STRING, T_STRUCT := SYM_STRUCT, T_MAP := SYM_MAP,
    T_SET := SYM_SET, T_LIST := SYM_LIST,
    T_UTF8 := SYM_STRING, T_UTF16 := SYM_STRING]

  /**
   * A Thrift type. `ByteString` and `Unicode` share the string type id; a
   * `Unicode` value is carried as its already-encoded bytes. `Byte` is also
   * the 8-bit integer type (`T_I8 == T_BYTE`).
   */
  datatype Type =
    | Bool | Byte | I16 | I32 | I64 | Double | ByteString | Unicode
    | Struct(fields: seq<NamedField>)
    | List(elem: Type)
    | Set(elem: Type)
    | Map(key: Type, value: Type)

  /** `Field(type, tag, initial, optional)`; `initial` is the value the factory produces. */
  datatype Field = Field(ty: Type, tag: int, initial: Value, optional: bool)

  /** A field together with the attribute name it is declared under. */
  datatype NamedField = NamedField(name: string, field: Field)

  /**
   * A value of some type. A double is its 8-byte IEEE-754 bit pattern, a
   * struct instance its attribute bag; sets and maps are kept in iteration
   * order.
   */
  datatype Value =
    | VBool(b: bool)
    | VInt(i: int)
    | VDouble(bits: nat)
    | VBytes(bytes: seq<byte>)
    | VStruct(attrs: map<string, Value>)
    | VList(elems: seq<Value>)
    | VSet(elems: seq<Value>)
    | VMap(entries: seq<(Value, Value)>)

  /** The class attribute `type_id` of each type; every type of the model has one that fits a nibble. */
  function TypeId(t: Type): (id: byte)
    ensures SYM_BOOL_TRUE <= id <= 15
  {
    match t
    case Bool => T_BOOL
    case Byte => T_BYTE
    case I16 => T_I16
    case I32 => T_I32
    case I64 => T_I64
    case Double => T_DOUBLE
    case ByteString => T_STRING
    case Unicode => T_STRING
    case Struct(_) => T_STRUCT
    case List(_) => T_LIST
    case Set(_) => T_SET
    case Map(_, _) => T_MAP
  }

  /**
   * `_type_to_symbol[t.type_id]`: every type of the model has an entry, its
   * symbol equals its type id, and it fits a nibble without colliding with
   * the stop symbol or the false-boolean symbol.
   */
  function Symbol(t: Type): (sym: byte)
    ensures sym == TypeId(t)
    ensures SYM_BOOL_TRUE <= sym <= 15
  {
    TYPE_TO_SYMBOL[TypeId(t)]
  }

  /** `Field.__init__`: a tag must be positive. */
  function NewField(ty: Type, tag: int, initial: Value, optional: bool): (r: Result<Field>)
    ensures r.Ok? <==> tag > 0
    ensures r.Ok? ==> r.value == Field(ty, tag, initial, optional)
    ensures r.Err? ==> r.error == NonPositiveTag(tag)
  {
    if tag <= 0 then Err(NonPositiveTag(tag)) else Ok(Field(ty, tag, initial, optional))
  }

  function Names(fs: seq<NamedField>): set<string>
  {
    set nf | nf in fs :: nf.name
  }

  function Tags(fs: seq<NamedField>): set<int>
  {
    set nf | nf in fs :: nf.field.tag
  }

  predicate DistinctNames(fs: seq<NamedField>)
  {
    forall i, j :: 0 <= i < j < |fs| ==> fs[i].name != fs[j].name
  }

  predicate DistinctTags(fs: seq<NamedField>)
  {
    forall i, j :: 0 <= i < j < |fs| ==> fs[i].field.tag != fs[j].field.tag
  }

  /** What `add_field` and `Field` guarantee of a struct's field collection. */
  predicate WellFormedFields(fs: seq<NamedField>)
  {
    DistinctNames(fs) && DistinctTags(fs) && forall nf :: nf in fs ==> nf.field.tag > 0
  }

  /**
   * A schema both codecs can write: every struct in it is well formed and
   * every tag fits the two bytes `pack('!H', ...)` allows.
   */
  predicate ValidType(t: Type)
    decreases t
  {
    match t
    case Struct(fs) =>
      WellFormedFields(fs) &&
      (forall nf :: nf in fs ==> nf.field.tag < 0x1_0000) &&
      (forall nf :: nf in fs ==> ValidType(nf.field.ty))
    case List(e) => ValidType(e)
    case Set(e) => ValidType(e)
    case Map(k, w) => ValidType(k) && ValidType(w)
    case _ => true
  }

  /** The bit pattern of a NaN: every exponent bit set and a non-zero fraction. */
  predicate IsNaN(bits: nat)
  {
    (bits / 0x10_0000_0000_0000) % 0x800 == 0x7FF && bits % 0x10_0000_0000_0000 != 0
  }

  /** The bit patterns of 0.0 and -0.0. */
  predicate IsZero(bits: nat)
  {
    bits == 0 || bits == 0x8000_0000_0000_0000
  }

  /** Python's `==` on two floats: a NaN equals nothing, and the two zeros are equal. */
  predicate DoubleEq(x: nat, y: nat)
  {
    !IsNaN(x) && !IsNaN(y) && (x == y || (IsZero(x) && IsZero(y)))
  }

  /** A value of type `t` can be a set element or a dict key: lists, sets and dicts cannot. */
  predicate Hashable(t: Type)
  {
    !(t.List? || t.Set? || t.Map?)
  }

  /** The unhashable types are exactly those whose `type_id` is that of a list, a set or a dict. */
  lemma HashableById(t: Type)
    ensures Hashable(t) <==> TypeId(t) != T_LIST && TypeId(t) != T_SET && TypeId(t) != T_MAP
  {
  }

  /**
   * When a set or a dict takes `b` for the same element or key as `a`, both
   * freshly loaded values of one hashable type. Floats compare as numbers.
   * A struct instance defines no `__eq__` or `__hash__`, so two distinct
   * instances are never the same, whatever their attributes.
   */
  predicate Same(a: Value, b: Value)
  {
    match a
    case VDouble(x) => b.VDouble? && DoubleEq(x, b.bits)
    case VStruct(_) => false
    case _ => a == b
  }

  /**
   * What `Same` means: struct instances are never the same as anything, a
   * NaN is the same as nothing, the two zeros are the same, every other
   * value is the same only as itself, and the relation is symmetric.
   */
  lemma SameMeaning(a: Value, b: Value)
    ensures Same(a, b) ==> !a.VStruct? && !b.VStruct?
    ensures a.VDouble? && IsNaN(a.bits) ==> !Same(a, b)
    ensures a.VDouble? && b.VDouble? && IsZero(a.bits) && IsZero(b.bits) ==> Same(a, b)
    ensures !a.VDouble? && !a.VStruct? ==> (Same(a, b) <==> a == b)
    ensures Same(a, b) <==> Same(b, a)
  {
  }

  /** No element is the same, for a set, as an earlier one. */
  predicate Distinct(xs: seq<Value>)
  {
    forall i, j :: 0 <= i < j < |xs| ==> !Same(xs[i], xs[j])
  }

  /** No key is the same, for a dict, as an earlier one. */
  predicate DistinctKeys(entries: seq<(Value, Value)>)
  {
    forall i, j :: 0 <= i < j < |entries| ==> !Same(entries[i].0, entries[j].0)
  }

  /**
   * `v` is a value of type `t` that both codecs write and read back:
   * integers in the width of their Binary `struct.pack` format, a struct
   * instance with exactly its schema's attributes, sets whose elements and
   * maps whose keys are pairwise not the same, no list, set or dict as a set
   * element or dict key (Python cannot build such a non-empty set or dict),
   * list and set counts below 2^32 (the unsigned Binary `!I` count), and
   * string lengths and map counts below 2^31 (written or read back through a
   * signed Binary `!i` field).
   */
  predicate Conforms(t: Type, v: Value)
    decreases t
  {
    match t
    case Bool => v.VBool?
    case Byte => v.VInt? && 0 <= v.i < 0x100
    case I16 => v.VInt? && -0x8000 <= v.i < 0x8000
    case I32 => v.VInt? && -0x8000_0000 <= v.i < 0x8000_0000
    case I64 => v.VInt? && -0x8000_0000_0000_0000 <= v.i < 0x8000_0000_0000_0000
    case Double => v.VDouble? && v.bits < 0x1_0000_0000_0000_0000
    case ByteString => v.VBytes? && |v.bytes| < 0x8000_0000
    case Unicode => v.VBytes? && |v.bytes| < 0x8000_0000
    case Struct(fs) =>
      v.VStruct? && v.attrs.Keys == Names(fs) &&
      forall nf :: nf in fs ==> nf.name in v.attrs && Conforms(nf.field.ty, v.attrs[nf.name])
    case List(e) =>
      v.VList? && |v.elems| < 0x1_0000_0000 && forall x :: x in v.elems ==> Conforms(e, x)
    case Set(e) =>
      v.VSet? && |v.elems| < 0x1_0000_0000 && Distinct(v.elems) && (Hashable(e) || |v.elems| == 0) &&
      forall x :: x in v.elems ==> Conforms(e, x)
    case Map(k, w) =>
      v.VMap? && |v.entries| < 0x8000_0000 && DistinctKeys(v.entries) && (Hashable(k) || |v.entries| == 0) &&
      forall p :: p in v.entries ==> Conforms(k, p.0) && Conforms(w, p.1)
  }

  /**
   * The `tag_to_field` lookup of the struct decoders. The source's dict
   * keeps the last field with a repeated tag and this returns the first;
   * `add_field` refuses repeated tags, so on schemas it builds the two agree.
   */
  function FindTag(fs: seq<NamedField>, tag: int): (r: Option<nat>)
    ensures r.Some? ==> r.value < |fs| && fs[r.value].field.tag == tag
    ensures r.None? <==> tag !in Tags(fs)
  {
    if |fs| == 0 then None
    else if fs[0].field.tag == tag then Some(0)
    else
      match FindTag(fs[1..], tag)
      case None =>
        assert forall nf :: nf in fs ==> nf == fs[0] || nf in fs[1..];
        None
      case Some(i) => Some(i + 1)
  }

  /** In a schema with distinct tags, each field's tag finds that field. */
  lemma {:induction false} FindTagOf(fs: seq<NamedField>, i: nat)
    requires DistinctTags(fs) && i < |fs|
    ensures FindTag(fs, fs[i].field.tag) == Some(i)
  {
    if i > 0 {
      assert fs[0].field.tag != fs[i].field.tag;
      assert DistinctTags(fs[1..]) by {
        forall a, b | 0 <= a < b < |fs[1..]| ensures fs[1..][a].field.tag != fs[1..][b].field.tag {
          assert fs[1..][a] == fs[a + 1] && fs[1..][b] == fs[b + 1];
        }
      }
      FindTagOf(fs[1..], i - 1);
    }
  }

  /** Some element of `acc` is the same, for a set, as `x`. */
  predicate Contains(acc: seq<Value>, x: Value)
  {
    exists i :: 0 <= i < |acc| && Same(acc[i], x)
  }

  /**
   * A set's `add`: an element the same as one already present is dropped
   * (the set keeps the earlier one); any other element is added at the end.
   */
  function SetAdd(acc: seq<Value>, x: Value): (r: seq<Value>)
    ensures acc <= r && |r| <= |acc| + 1
    ensures x in r || Contains(acc, x)
    ensures Distinct(acc) ==> Distinct(r)
  {
    if Contains(acc, x) then acc else acc + [x]
  }

  /**
   * `set(items)`: the items in first-occurrence order, each dropped when it
   * is the same as an earlier one.
   */
  function Dedup(items: seq<Value>): (r: seq<Value>)
    ensures Distinct(r)
    ensures forall x :: x in r ==> x in items
    ensures forall x :: x in items ==> x in r || Contains(r, x)
  {
    if |items| == 0 then []
    else
      var k := |items| - 1;
      var init := Dedup(items[..k]);
      var x := items[k];
      var r := SetAdd(init, x);
      assert items == items[..k] + [x];
      assert forall y :: Contains(init, y) ==> Contains(r, y) by {
        forall y | Contains(init, y) ensures Contains(r, y) {
          var i :| 0 <= i < |init| && Same(init[i], y);
          assert r[i] == init[i];
        }
      }
      r
  }

  /** A set whose elements are already pairwise not the same is kept as it is. */
  lemma {:induction false} DedupOfDistinct(items: seq<Value>)
    requires Distinct(items)
    ensures Dedup(items) == items
  {
    if |items| > 0 {
      var k := |items| - 1;
      assert Distinct(items[..k]);
      DedupOfDistinct(items[..k]);
      assert !Contains(items[..k], items[k]);
      assert items == items[..k] + [items[k]];
    }
  }

  /** Two decoded struct instances are two set elements, whatever their attributes. */
  lemma StructsNotMerged(acc: seq<Value>, x: Value)
    requires x.VStruct? && forall y :: y in acc ==> y.VStruct?
    ensures SetAdd(acc, x) == acc + [x]
  {
  }

  /** `set()` of struct instances keeps every instance, even ones with equal attributes. */
  lemma StructsKept(items: seq<Value>)
    requires forall x :: x in items ==> x.VStruct?
    ensures Dedup(items) == items
  {
    assert Distinct(items) by {
      forall i, j | 0 <= i < j < |items| ensures !Same(items[i], items[j]) {
        assert items[i] in items;
      }
    }
    DedupOfDistinct(items);
  }

  /** A float equal to an earlier one is dropped: `0.0` and then `-0.0` leave `0.0`. */
  lemma ZerosMerged()
    ensures Dedup([VDouble(0), VDouble(0x8000_0000_0000_0000)]) == [VDouble(0)]
  {
    var items := [VDouble(0), VDouble(0x8000_0000_0000_0000)];
    assert items[..1] == [VDouble(0)];
    assert Same(VDouble(0), VDouble(0x8000_0000_0000_0000));
  }

  /** A NaN equals nothing, not even a NaN with the same bits: both are kept. */
  lemma NaNsKept()
    ensures var nan := VDouble(0x7FF8_0000_0000_0000);
      Dedup([nan, nan]) == [nan, nan]
  {
    var nan := VDouble(0x7FF8_0000_0000_0000);
    assert IsNaN(0x7FF8_0000_0000_0000);
    DedupOfDistinct([nan, nan]);
  }

  function Keys(entries: seq<(Value, Value)>): set<Value>
  {
    set p | p in entries :: p.0
  }

  /** Some key of `entries` is the same, for a dict, as `k`. */
  predicate KeyIn(entries: seq<(Value, Value)>, k: Value)
  {
    exists i :: 0 <= i < |entries| && Same(entries[i].0, k)
  }

  /**
   * `result[key] = value` on a dict kept in insertion order: an entry whose
   * key is the same as `k` keeps its key and takes the new value, otherwise
   * the entry is added at the end.
   */
  function Put(entries: seq<(Value, Value)>, k: Value, v: Value): (r: seq<(Value, Value)>)
    ensures |entries| <= |r| <= |entries| + 1
    ensures forall i :: 0 <= i < |entries| ==> r[i].0 == entries[i].0
  {
    if |entries| == 0 then [(k, v)]
    else if Same(entries[0].0, k) then [(entries[0].0, v)] + entries[1..]
    else [entries[0]] + Put(entries[1..], k, v)
  }

  /**
   * After `result[key] = value`: with no key the same as `k`, the entry is
   * appended; otherwise the first such entry keeps its key and takes the
   * value, and every other entry is kept where it is.
   */
  lemma {:induction false} PutSpec(entries: seq<(Value, Value)>, k: Value, v: Value)
    ensures !KeyIn(entries, k) ==> Put(entries, k, v) == entries + [(k, v)]
    ensures KeyIn(entries, k) ==>
      exists j :: 0 <= j < |entries| && Same(entries[j].0, k) &&
        (forall i :: 0 <= i < j ==> !Same(entries[i].0, k)) &&
        Put(entries, k, v) == entries[j := (entries[j].0, v)]
  {
    if KeyIn(entries, k) {
      var j := FirstKey(entries, k);
      PutAt(entries, k, v, j);
    } else {
      PutAbsent(entries, k, v);
    }
  }

  /** The position of the first key the same as `k`. */
  lemma {:induction false} FirstKey(entries: seq<(Value, Value)>, k: Value) returns (j: nat)
    requires KeyIn(entries, k)
    ensures j < |entries| && Same(entries[j].0, k)
    ensures forall i :: 0 <= i < j ==> !Same(entries[i].0, k)
  {
    if Same(entries[0].0, k) {
      j := 0;
    } else {
      var m :| 0 <= m < |entries| && Same(entries[m].0, k);
      assert entries[1..][m - 1] == entries[m];
      var j' := FirstKey(entries[1..], k);
      j := j' + 1;
      forall i | 0 < i < j ensures !Same(entries[i].0, k) {
        assert entries[i] == entries[1..][i - 1];
      }
    }
  }

  lemma {:induction false} PutAt(entries: seq<(Value, Value)>, k: Value, v: Value, j: nat)
    requires j < |entries| && Same(entries[j].0, k)
    requires forall i :: 0 <= i < j ==> !Same(entries[i].0, k)
    ensures Put(entries, k, v) == entries[j := (entries[j].0, v)]
  {
    var want := entries[j := (entries[j].0, v)];
    if j == 0 {
      assert Put(entries, k, v) == [(entries[0].0, v)] + entries[1..];
      assert [(entries[0].0, v)] + entries[1..] == want;
    } else {
      var tail := entries[1..];
      assert !Same(entries[0].0, k);
      forall i | 0 <= i < j - 1 ensures !Same(tail[i].0, k) {
        assert tail[i] == entries[i + 1];
      }
      PutAt(tail, k, v, j - 1);
      var upd := tail[j - 1 := (tail[j - 1].0, v)];
      assert Put(entries, k, v) == [entries[0]] + upd;
      assert [entries[0]] + upd == want by {
        forall i | 0 <= i < |want| ensures ([entries[0]] + upd)[i] == want[i] {
          if i > 0 {
            assert ([entries[0]] + upd)[i] == upd[i - 1];
          }
        }
      }
    }
  }

  lemma {:induction false} PutAbsent(entries: seq<(Value, Value)>, k: Value, v: Value)
    requires !KeyIn(entries, k)
    ensures Put(entries, k, v) == entries + [(k, v)]
  {
    if |entries| > 0 {
      var tail := entries[1..];
      assert !Same(entries[0].0, k);
      assert !KeyIn(tail, k) by {
        forall i | 0 <= i < |tail| ensures !Same(tail[i].0, k) {
          assert tail[i] == entries[i + 1];
        }
      }
      PutAbsent(tail, k, v);
      assert [entries[0]] + (tail + [(k, v)]) == entries + [(k, v)];
    }
  }

  /** `result[key] = value` keeps the keys of a dictionary pairwise not the same. */
  lemma PutDistinct(entries: seq<(Value, Value)>, k: Value, v: Value)
    requires DistinctKeys(entries)
    ensures DistinctKeys(Put(entries, k, v))
  {
    PutSpec(entries, k, v);
  }

  /** Storing the next entry of a dict with distinct keys extends the prefix stored so far. */
  lemma PutPrefix(ps: seq<(Value, Value)>, i: nat)
    requires DistinctKeys(ps) && i < |ps|
    ensures Put(ps[..i], ps[i].0, ps[i].1) == ps[..i + 1]
  {
    assert !KeyIn(ps[..i], ps[i].0) by {
      forall a | 0 <= a < i ensures !Same(ps[..i][a].0, ps[i].0) {
        assert ps[..i][a] == ps[a];
      }
    }
    PutSpec(ps[..i], ps[i].0, ps[i].1);
    PrefixSnoc(ps, i);
  }

  /** Storing `-0.0` after `0.0` keeps the key `0.0` and takes the new value. */
  lemma ZeroKeyKept(x: Value, y: Value)
    ensures Put([(VDouble(0), x)], VDouble(0x8000_0000_0000_0000), y) == [(VDouble(0), y)]
  {
    assert Same(VDouble(0), VDouble(0x8000_0000_0000_0000));
  }

  /**
   * The attribute loop of `Struct.__init__` from field `i` on: each field
   * pops its name from `values` (falling back to its initial value) and sets
   * the attribute. Returns the attributes and what is left of `values`.
   */
  function FillFrom(fs: seq<NamedField>, i: nat, values: map<string, Value>, attrs: map<string, Value>)
    : (map<string, Value>, map<string, Value>)
    requires i <= |fs|
    decreases |fs| - i
  {
    if i == |fs| then (attrs, values)
    else
      var name := fs[i].name;
      var value := if name in values then values[name] else fs[i].field.initial;
      FillFrom(fs, i + 1, values - {name}, attrs[name := value])
  }

  /**
   * `Struct.__init__(*args, **kwargs)`: at most one positional mapping and
   * not together with keywords. Called with keywords, `values` is the
   * keyword dictionary itself, so a keyword that names no field is still in
   * it after the pops and raises; a positional mapping is copied, and its
   * extra keys are ignored.
   */
  function StructInit(fs: seq<NamedField>, args: seq<map<string, Value>>, kwargs: map<string, Value>)
    : (r: Result<map<string, Value>>)
    ensures r.Err? ==> r.error == UnexpectedArguments || r.error == UnexpectedKeyword
  {
    if |args| > 1 || (|args| > 0 && |kwargs| > 0) then Err(UnexpectedArguments)
    else
      var aliased := |args| == 0;
      var filled := FillFrom(fs, 0, if aliased then kwargs else args[0], map[]);
      var leftover := if aliased then filled.1 else kwargs;
      if |leftover| > 0 then Err(UnexpectedKeyword) else Ok(filled.0)
  }

  lemma NamesFrom(fs: seq<NamedField>, i: nat)
    requires i < |fs|
    ensures Names(fs[i..]) == {fs[i].name} + Names(fs[i + 1..])
  {
    assert forall nf :: nf in fs[i..] <==> nf == fs[i] || nf in fs[i + 1..];
  }

  /** The attribute loop sets an attribute for every field and pops every field name from `values`. */
  lemma {:induction false} FillFromSpec(fs: seq<NamedField>, i: nat, values: map<string, Value>, attrs: map<string, Value>)
    requires i <= |fs|
    ensures FillFrom(fs, i, values, attrs).1 == values - Names(fs[i..])
    ensures FillFrom(fs, i, values, attrs).0.Keys == attrs.Keys + Names(fs[i..])
    decreases |fs| - i
  {
    if i == |fs| {
      assert fs[i..] == [];
    } else {
      var name := fs[i].name;
      var value := if name in values then values[name] else fs[i].field.initial;
      FillFromSpec(fs, i + 1, values - {name}, attrs[name := value]);
      NamesFrom(fs, i);
    }
  }

  /**
   * Each field's attribute is its value from `values`, or its initial
   * value when `values` has none; attributes set before are kept.
   */
  lemma {:induction false} FillFromValues(fs: seq<NamedField>, i: nat, values: map<string, Value>, attrs: map<string, Value>)
    requires i <= |fs| && DistinctNames(fs)
    ensures forall j :: i <= j < |fs| ==>
      fs[j].name in FillFrom(fs, i, values, attrs).0 &&
      FillFrom(fs, i, values, attrs).0[fs[j].name]
        == if fs[j].name in values then values[fs[j].name] else fs[j].field.initial
    ensures forall n :: n in attrs && n !in Names(fs[i..]) ==>
      n in FillFrom(fs, i, values, attrs).0 && FillFrom(fs, i, values, attrs).0[n] == attrs[n]
    decreases |fs| - i
  {
    if i == |fs| {
      assert fs[i..] == [];
    } else {
      var name := fs[i].name;
      var value := if name in values then values[name] else fs[i].field.initial;
      FillFromSpec(fs, i + 1, values - {name}, attrs[name := value]);
      FillFromValues(fs, i + 1, values - {name}, attrs[name := value]);
      NamesFrom(fs, i);
      assert name !in Names(fs[i + 1..]) by {
        forall nf | nf in fs[i + 1..] ensures nf.name != name {
          var j :| i + 1 <= j < |fs| && fs[j] == nf;
        }
      }
      forall j | i + 1 <= j < |fs| ensures fs[j].name != name && fs[j].name in Names(fs[i + 1..]) {
        assert fs[j] in fs[i + 1..];
      }
    }
  }

  /** Keyword construction with exactly the schema's names gives back the same attributes. */
  lemma StructInitExact(fs: seq<NamedField>, m: map<string, Value>)
    requires DistinctNames(fs) && m.Keys == Names(fs)
    ensures StructInit(fs, [], m) == Ok(m)
  {
    StructInitSpec(fs, [], m);
    var r := StructInit(fs, [], m);
    assert r.Ok?;
    forall n | n in m ensures r.value[n] == m[n] {
      var nf :| nf in fs && nf.name == n;
    }
    assert r.value == m;
  }

  /**
   * `Struct.__init__`'s outcome: bad positional use raises; a keyword naming
   * no field raises; otherwise every field's attribute is the given value
   * or the field's initial value, and there are no other attributes.
   */
  lemma StructInitSpec(fs: seq<NamedField>, args: seq<map<string, Value>>, kwargs: map<string, Value>)
    requires DistinctNames(fs)
    ensures StructInit(fs, args, kwargs) == Err(UnexpectedArguments)
        <==> |args| > 1 || (|args| == 1 && |kwargs| > 0)
    ensures StructInit(fs, args, kwargs) == Err(UnexpectedKeyword)
        <==> |args| == 0 && !(kwargs.Keys <= Names(fs))
    ensures StructInit(fs, args, kwargs).Ok? ==>
      var values := if |args| == 0 then kwargs else args[0];
      var attrs := StructInit(fs, args, kwargs).value;
      attrs.Keys == Names(fs) &&
      forall nf :: nf in fs ==>
        attrs[nf.name] == if nf.name in values then values[nf.name] else nf.field.initial
  {
    if |args| <= 1 && !(|args| > 0 && |kwargs| > 0) {
      var values := if |args| == 0 then kwargs else args[0];
      FillFromSpec(fs, 0, values, map[]);
      FillFromValues(fs, 0, values, map[]);
      assert fs[0..] == fs;
      if |args| == 0 {
        var left := values - Names(fs);
        if !(kwargs.Keys <= Names(fs)) {
          var n :| n in kwargs && n !in Names(fs);
          assert n in left;
        } else {
          assert left == map[];
        }
      }
      forall nf | nf in fs
        ensures StructInit(fs, args, kwargs).Ok? ==>
          StructInit(fs, args, kwargs).value[nf.name] == if nf.name in values then values[nf.name] else nf.field.initial
      {
        var j :| 0 <= j < |fs| && fs[j] == nf;
      }
    }
  }

  /** The attributes of `m` named by the fields of `order`. */
  function Restrict(m: map<string, Value>, order: seq<NamedField>): map<string, Value>
  {
    map n | n in m && n in Names(order) :: m[n]
  }

  /** Every attribute of an instance is named by one of its fields. */
  lemma RestrictAll(m: map<string, Value>, fs: seq<NamedField>)
    requires m.Keys == Names(fs)
    ensures map[] + Restrict(m, fs[0..]) == m
  {
    assert fs[0..] == fs;
  }

  /** Adding field `i` to the attributes read so far, then the fields after it. */
  lemma RestrictStep(m: map<string, Value>, fs: seq<NamedField>, i: nat, vals: map<string, Value>)
    requires i < |fs| && fs[i].name in m
    ensures vals[fs[i].name := m[fs[i].name]] + Restrict(m, fs[i + 1..]) == vals + Restrict(m, fs[i..])
  {
    NamesFrom(fs, i);
  }

  /** The position of a field in the collection. */
  function IndexOf(fs: seq<NamedField>, nf: NamedField): (k: nat)
    requires nf in fs
    ensures k < |fs| && fs[k] == nf
  {
    if fs[0] == nf then 0 else 1 + IndexOf(fs[1..], nf)
  }

  /** Two orderings of the same fields have the same names. */
  lemma NamesOfPermutation(a: seq<NamedField>, b: seq<NamedField>)
    requires multiset(a) == multiset(b)
    ensures Names(a) == Names(b)
  {
    assert forall nf :: nf in a <==> nf in multiset(a);
    assert forall nf :: nf in b <==> nf in multiset(b);
  }

  /** `Struct.__init__` as the source runs it: one pass over the fields, popping from `values`. */
  method InitStruct(fs: seq<NamedField>, args: seq<map<string, Value>>, kwargs: map<string, Value>)
    returns (r: Result<map<string, Value>>)
    ensures r == StructInit(fs, args, kwargs)
  {
    if |args| > 1 || (|args| > 0 && |kwargs| > 0) {
      return Err(UnexpectedArguments);
    }
    var aliased := |args| == 0;
    var values := if aliased then kwargs else args[0];
    var attrs: map<string, Value> := map[];
    ghost var start := values;
    for i := 0 to |fs|
      invariant FillFrom(fs, 0, start, map[]) == FillFrom(fs, i, values, attrs)
    {
      var name := fs[i].name;
      var value := if name in values then values[name] else fs[i].field.initial;
      values := values - {name};
      attrs := attrs[name := value];
    }
    // Popping from `values` popped from `kwargs` too when they are one dictionary.
    var leftover := if aliased then values else kwargs;
    if |leftover| > 0 {
      return Err(UnexpectedKeyword);
    }
    return Ok(attrs);
  }

  /** A struct type under construction: the field map of the `StructType` metaclass. */
  class StructType {
    var fields: seq<NamedField>

    ghost predicate Valid()
      reads this
    {
      WellFormedFields(fields)
    }

    constructor ()
      ensures Valid() && fields == []
    {
      fields := [];
    }

    /**
     * `fields()` as the struct type the codecs dispatch on: its fields are
     * well formed, and it is a type of the model exactly when every tag fits
     * two bytes and every field's type is one too. The Binary codec writes
     * every tag in two bytes; the Compact codec needs two bytes only for a
     * tag that does not follow the previous one by 1..15.
     */
    function AsType(): (t: Type)
      requires Valid()
      reads this
      ensures t.Struct? && t.fields == fields && WellFormedFields(t.fields)
      ensures ValidType(t) <==>
        forall nf :: nf in fields ==> nf.field.tag < 0x1_0000 && ValidType(nf.field.ty)
    {
      Struct(fields)
    }

    /**
     * `add_field`: a repeated name or a repeated tag raises and leaves the
     * fields as they were; otherwise exactly the new field is added.
     */
    method AddField(name: string, field: Field) returns (r: Outcome)
      requires Valid() && field.tag > 0
      modifies this
      ensures Valid()
      ensures name in Names(old(fields)) ==>
        r == Fail(DuplicateName(name)) && fields == old(fields)
      ensures name !in Names(old(fields)) && field.tag in Tags(old(fields)) ==>
        r == Fail(DuplicateTag(field.tag)) && fields == old(fields)
      ensures name !in Names(old(fields)) && field.tag !in Tags(old(fields)) ==>
        r == Pass && fields == old(fields) + [NamedField(name, field)]
      ensures old(ValidType(Struct(fields))) && field.tag < 0x1_0000 && ValidType(field.ty) ==>
        ValidType(AsType())
    {
      if name in Names(fields) {
        return Fail(DuplicateName(name));
      }
      var i := 0;
      while i < |fields|
        invariant 0 <= i <= |fields|
        invariant forall j :: 0 <= j < i ==> fields[j].field.tag != field.tag
      {
        if fields[i].field.tag == field.tag {
          assert fields[i] in fields;
          return Fail(DuplicateTag(field.tag));
        }
        i := i + 1;
      }
      assert field.tag !in Tags(fields) by {
        forall nf | nf in fields ensures nf.field.tag != field.tag {
          var j :| 0 <= j < |fields| && fields[j] == nf;
        }
      }
      assert name !in Names(fields);
      var added := NamedField(name, field);
      forall j | 0 <= j < |fields| ensures fields[j].name != name && fields[j].field.tag != field.tag {
        assert fields[j] in fields;
      }
      fields := fields + [added];
      r := Pass;
    }
  }
}

/**
 * Bytes, errors and fixed-width big-endian integers shared by both codecs.
 *
 * Every decoder in this project reads a suffix of the input and returns the
 * decoded value together with the bytes it did not consume.
 */
module Wire {

  /** One octet of a stream (Python's `chr`/`ord` range). */
  type byte = x: int | 0 <= x < 256

  /** The exceptions the codecs and the schema layer raise. */
  datatype Error =
    | EndOfStream                  // a short read: `Error`, `struct.error`, or `ord('')` raising `TypeError`
    | UnknownTag(tag: int)         // `KeyError` from the tag-to-field lookup of a struct decoder
    | NegativeLength(length: int)  // `AssertionError` from the Binary string loader
    | UndefinedName(name: string)  // `NameError`
    | UnexpectedArguments          // `TypeError` from a bad positional call of a struct constructor
    | UnexpectedKeyword            // `TypeError` for a keyword that names no field
    | NonPositiveTag(tag: int)     // `ValueError` from `Field`
    | DuplicateName(name: string)  // `ValueError` from `add_field`
    | DuplicateTag(tag: int)       // `ValueError` from `add_field`
    | Unhashable                   // `TypeError` from a list, set or dict used as a set element or dict key

  datatype Result<T> = Ok(value: T) | Err(error: Error)

  datatype Option<T> = None | Some(value: T)

  /** The outcome of an operation that only succeeds or raises. */
  datatype Outcome = Pass | Fail(error: Error)

  /** A decoded value and the input that follows it. */
  datatype Parsed<T> = Parsed(value: T, rest: seq<byte>)

  function Min(a: int, b: int): int { if a <= b then a else b }

  /** Regrouping a concatenation of three pieces. */
  lemma Append3(a: seq<byte>, b: seq<byte>, c: seq<byte>)
    ensures a + (b + c) == a + b + c
  {
  }

  /** Regrouping a concatenation of four pieces. */
  lemma Regroup(a: seq<byte>, b: seq<byte>, c: seq<byte>, d: seq<byte>)
    ensures a + (b + c + d) == a + b + c + d
  {
  }

  /** Nesting a concatenation of four pieces to the right. */
  lemma Nest(a: seq<byte>, b: seq<byte>, c: seq<byte>, d: seq<byte>)
    ensures a + b + c + d == a + (b + (c + d))
  {
  }

  /** A prefix grown by the next element. */
  lemma PrefixSnoc<T>(xs: seq<T>, i: nat)
    requires i < |xs|
    ensures xs[..i] + [xs[i]] == xs[..i + 1]
  {
  }

  /** A byte built as `(hi << 4) | lo` splits back into its two nibbles. */
  lemma Nibbles(hi: int, lo: int)
    requires 0 <= hi && 0 <= lo < 16
    ensures (hi * 16 + lo) / 16 == hi && (hi * 16 + lo) % 16 == lo
  {
  }

  /** 256 to the power k: the number of values a k-byte field holds. */
  function Pow256(k: nat): (p: nat)
    ensures p >= 1
  {
    if k == 0 then 1 else 256 * Pow256(k - 1)
  }

  function Pow2(k: nat): (p: nat)
    ensures p >= 1
  {
    if k == 0 then 1 else 2 * Pow2(k - 1)
  }

  lemma {:induction false} Pow2Add(a: nat, b: nat)
    ensures Pow2(a + b) == Pow2(a) * Pow2(b)
  {
    if b > 0 {
      Pow2Add(a, b - 1);
      assert Pow2(a + b) == 2 * Pow2(a + b - 1);
    }
  }

  /** `n` as `width` big-endian bytes, as `struct.pack` writes it with a `!` format. */
  function ToBigEndian(n: nat, width: nat): (r: seq<byte>)
    requires n < Pow256(width)
    ensures |r| == width
  {
    if width == 0 then [] else ToBigEndian(n / 256, width - 1) + [n % 256]
  }

  /** The unsigned big-endian value of `s`, as `struct.unpack` reads it. */
  function FromBigEndian(s: seq<byte>): (n: nat)
    ensures n < Pow256(|s|)
  {
    if |s| == 0 then 0 else FromBigEndian(s[..|s| - 1]) * 256 + s[|s| - 1]
  }

  lemma {:induction false} BigEndianRoundTrip(n: nat, width: nat)
    requires n < Pow256(width)
    ensures FromBigEndian(ToBigEndian(n, width)) == n
  {
    if width > 0 {
      var r := ToBigEndian(n, width);
      assert r[..width - 1] == ToBigEndian(n / 256, width - 1);
      BigEndianRoundTrip(n / 256, width - 1);
    }
  }

  lemma {:induction false} BigEndianInverse(s: seq<byte>)
    ensures ToBigEndian(FromBigEndian(s), |s|) == s
  {
    if |s| > 0 {
      var k := |s| - 1;
      var n := FromBigEndian(s);
      assert n / 256 == FromBigEndian(s[..k]) && n % 256 == s[k];
      BigEndianInverse(s[..k]);
      assert s == s[..k] + [s[k]];
    }
  }

  /** A field of at least one byte holds an even number of values. */
  lemma Pow256Even(width: nat)
    requires width >= 1
    ensures Pow256(width) == 2 * (Pow256(width) / 2)
  {
    assert Pow256(width) == 2 * (128 * Pow256(width - 1));
  }

  /** `x` fits a signed two's-complement field of `width` bytes. */
  predicate InSigned(x: int, width: nat)
    requires width >= 1
  {
    -(Pow256(width) / 2) <= x < Pow256(width) / 2
  }

  /** The two's-complement bit pattern of `x` in `width` bytes. */
  function ToUnsigned(x: int, width: nat): (u: nat)
    requires width >= 1 && InSigned(x, width)
    ensures u < Pow256(width)
    ensures x >= 0 ==> u == x
  {
    if x >= 0 then x else x + Pow256(width)
  }

  /** The signed value whose `width`-byte two's-complement pattern is `u`. */
  function ToSigned(u: nat, width: nat): (x: int)
    requires width >= 1 && u < Pow256(width)
    ensures InSigned(x, width)
  {
    Pow256Even(width);
    if u < Pow256(width) / 2 then u else u - Pow256(width)
  }

  /** `struct.pack` with `!h`, `!i` or `!q`: signed big-endian. */
  function PackSigned(x: int, width: nat): (r: seq<byte>)
    requires width >= 1 && InSigned(x, width)
    ensures |r| == width
  {
    ToBigEndian(ToUnsigned(x, width), width)
  }

  /** `struct.unpack` with `!h`, `!i` or `!q`. */
  function UnpackSigned(s: seq<byte>): (x: int)
    requires |s| >= 1
    ensures InSigned(x, |s|)
  {
    ToSigned(FromBigEndian(s), |s|)
  }

  lemma PackSignedRoundTrip(x: int, width: nat)
    requires width >= 1 && InSigned(x, width)
    ensures UnpackSigned(PackSigned(x, width)) == x
  {
    BigEndianRoundTrip(ToUnsigned(x, width), width);
  }

  lemma PackSignedInverse(s: seq<byte>)
    requires |s| >= 1
    ensures PackSigned(UnpackSigned(s), |s|) == s
  {
    BigEndianInverse(s);
  }
}

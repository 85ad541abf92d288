/**
 * Base-128 varints, as the Compact codec writes and reads them: seven
 * payload bits per byte, least significant group first, the 0x80 bit set on
 * every byte but the last.
 */
module Varint {
  import opened Wire
  import opened Streams

  function Pow128(k: nat): (p: nat)
    ensures p >= 1
  {
    if k == 0 then 1 else 128 * Pow128(k - 1)
  }

  /** The bytes `_dump_varint` writes for a non-negative `num`. */
  function VarintBytes(num: nat): (r: seq<byte>)
    ensures |r| >= 1
  {
    if num < 128 then [num] else [num % 128 + 128] + VarintBytes(num / 128)
  }

  /** `_load_varint` on a buffer: the value and the bytes after its last byte. */
  function VarintDecode(s: seq<byte>): (r: Result<Parsed<nat>>)
    ensures r.Ok? ==> |r.value.rest| < |s|
    ensures |s| == 0 ==> r == Err(EndOfStream)
  {
    if |s| == 0 then Err(EndOfStream)
    else if s[0] < 128 then Ok(Parsed(s[0] % 128, s[1..]))
    else
      match VarintDecode(s[1..])
      case Err(e) => Err(e)
      case Ok(p) => Ok(Parsed(s[0] % 128 + 128 * p.value, p.rest))
  }

  /** Group `i` of seven bits of `n`: `(n >> 7*i) & 0x7F`. */
  function Group(n: nat, i: nat): (g: nat)
    ensures g < 128
  {
    if i == 0 then n % 128 else Group(n / 128, i - 1)
  }

  /**
   * Byte i carries bits 7i..7i+6 of `num`; all bytes but the last have the
   * continuation bit set and the last has it clear.
   */
  lemma {:induction false} VarintLayout(num: nat)
    ensures var r := VarintBytes(num);
      r[|r| - 1] < 128 &&
      (forall i :: 0 <= i < |r| - 1 ==> r[i] >= 128) &&
      (forall i :: 0 <= i < |r| ==> r[i] % 128 == Group(num, i))
  {
    if num >= 128 {
      var r := VarintBytes(num);
      var tail := VarintBytes(num / 128);
      VarintLayout(num / 128);
      assert r == [num % 128 + 128] + tail;
      forall i | 1 <= i < |r|
        ensures r[i] % 128 == Group(num, i)
      {
        assert r[i] == tail[i - 1];
      }
    }
  }

  /** The encoding is as short as possible: k bytes for 128^(k-1) <= num < 128^k, one byte for 0. */
  lemma {:induction false} VarintLength(num: nat)
    ensures num < Pow128(|VarintBytes(num)|)
    ensures |VarintBytes(num)| >= 2 ==> Pow128(|VarintBytes(num)| - 1) <= num
    ensures |VarintBytes(num)| == 1 <==> num < 128
  {
    if num >= 128 {
      VarintLength(num / 128);
    }
  }

  /** A value below 128^k takes at most k bytes. */
  lemma {:induction false} VarintAtMost(num: nat, k: nat)
    requires k >= 1 && num < Pow128(k)
    ensures |VarintBytes(num)| <= k
  {
    if num >= 128 {
      VarintAtMost(num / 128, k - 1);
    }
  }

  /** Loading what was dumped gives back `num` and consumes exactly its bytes. */
  lemma {:induction false} VarintRoundTrip(num: nat, rest: seq<byte>)
    ensures VarintDecode(VarintBytes(num) + rest) == Ok(Parsed(num, rest))
  {
    if num >= 128 {
      VarintRoundTrip(num / 128, rest);
      assert VarintBytes(num) + rest == [num % 128 + 128] + (VarintBytes(num / 128) + rest);
    }
  }

  /** The value of the loop state of `_load_varint` once the remaining bytes are read. */
  function Shifted(low: nat, shift: nat, r: Result<Parsed<nat>>): Result<Parsed<nat>>
  {
    match r
    case Err(e) => Err(e)
    case Ok(p) => Ok(Parsed(low + Pow2(shift) * p.value, p.rest))
  }

  lemma GroupBound(g: nat, scale: nat)
    requires g < 128
    ensures scale * g <= scale * 127
  {
  }

  lemma GroupSplit(g: nat, scale: nat, v: nat)
    ensures scale * (g + 128 * v) == scale * g + (scale * 128) * v
  {
  }

  /** Python's `a | b` on non-negative integers, bit by bit. */
  function Or(a: nat, b: nat): (r: nat)
    ensures r >= a && r >= b
  {
    if a == 0 then b
    else if b == 0 then a
    else 2 * Or(a / 2, b / 2) + (if a % 2 == 1 || b % 2 == 1 then 1 else 0)
  }

  /** When `num < 2^shift`, `num` and `g << shift` share no bit, so OR is addition. */
  lemma {:induction false} OrDisjoint(num: nat, g: nat, shift: nat)
    requires num < Pow2(shift)
    ensures Or(num, Pow2(shift) * g) == num + Pow2(shift) * g
  {
    if shift > 0 && num != 0 && g != 0 {
      var p := Pow2(shift - 1);
      assert Pow2(shift) * g == 2 * (p * g);
      assert (2 * (p * g)) / 2 == p * g && (2 * (p * g)) % 2 == 0;
      OrDisjoint(num / 2, g, shift - 1);
    }
  }

  /** `num | (g << shift)`. */
  function OrShifted(num: nat, g: nat, shift: nat): nat
  {
    Or(num, Pow2(shift) * g)
  }

  lemma OrShiftedSum(num: nat, g: nat, shift: nat)
    requires num < Pow2(shift)
    ensures OrShifted(num, g, shift) == num + Pow2(shift) * g
  {
    OrDisjoint(num, g, shift);
  }

  /** One step of `_load_varint`: folding a continuation byte into the loop state. */
  lemma ShiftStep(num: nat, shift: nat, b: byte, r: Result<Parsed<nat>>)
    requires num < Pow2(shift)
    ensures OrShifted(num, b % 128, shift) < Pow2(shift + 7)
    ensures Shifted(num, shift, match r case Err(e) => Err(e) case Ok(p) => Ok(Parsed(b % 128 + 128 * p.value, p.rest)))
         == Shifted(OrShifted(num, b % 128, shift), shift + 7, r)
  {
    var scale := Pow2(shift);
    OrShiftedSum(num, b % 128, shift);
    Pow2Add(shift, 7);
    assert Pow2(7) == 128;
    GroupBound(b % 128, scale);
    match r
    case Err(_) =>
    case Ok(p) =>
      GroupSplit(b % 128, scale, p.value);
  }

  /** The last byte of a varint: its group completes the value. */
  lemma LastStep(num: nat, shift: nat, b: byte, rest: seq<byte>)
    requires num < Pow2(shift) && b < 128
    ensures Shifted(num, shift, VarintDecode([b] + rest)) == Ok(Parsed(OrShifted(num, b % 128, shift), rest))
  {
    OrShiftedSum(num, b % 128, shift);
    assert ([b] + rest)[1..] == rest;
  }

  /** `_dump_varint`. */
  method DumpVarint(num: nat, out: OutputStream)
    modifies out
    ensures out.data == old(out.data) + VarintBytes(num)
  {
    var n := num;
    while n >= 128  // (num & ~0x7F) != 0
      invariant old(out.data) + VarintBytes(num) == out.data + VarintBytes(n)
      decreases n
    {
      out.Write([n % 128 + 128]);  // (num & 0x7F) | 0x80
      n := n / 128;                // num >>= 7
    }
    out.Write([n]);
  }

  /**
   * `_load_varint`: each 7-bit group is ORed in at `shift`; since
   * `num < 2^shift` throughout, the groups never overlap.
   */
  method LoadVarint(inp: InputStream) returns (r: Result<nat>)
    requires inp.Valid()
    modifies inp
    ensures inp.Valid()
    ensures Consumed(r, VarintDecode(old(inp.Rest())), inp.Rest())
  {
    ghost var spec := VarintDecode(inp.Rest());
    var num: nat := 0;
    var shift: nat := 0;
    while true
      invariant inp.Valid()
      invariant num < Pow2(shift)
      invariant spec == Shifted(num, shift, VarintDecode(inp.Rest()))
      decreases |inp.Rest()|
    {
      ghost var here := inp.Rest();
      var b := inp.Read(1);
      if |b| == 0 {
        return Err(EndOfStream);
      }
      assert here == b + inp.Rest();
      ghost var tail := VarintDecode(inp.Rest());
      ShiftStep(num, shift, b[0], tail);
      ghost var prev, at := num, shift;
      num := OrShifted(num, b[0] % 128, shift);  // num |= (byte & 0x7f) << shift
      shift := shift + 7;
      if b[0] < 128 {  // (byte & 0x80) == 0
        LastStep(prev, at, b[0], inp.Rest());
        break;
      }
      assert VarintDecode(here) == match tail case Err(e) => Err(e) case Ok(p) => Ok(Parsed(b[0] % 128 + 128 * p.value, p.rest));
    }
    return Ok(num);
  }
}

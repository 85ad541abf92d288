/**
 * The byte streams the codecs write to and read from: the part of
 * `StringIO` that `write` and `read` use.
 */
module Streams {
  import opened Wire

  /** An output buffer; `write` appends. */
  class OutputStream {
    var data: seq<byte>

    constructor ()
      ensures data == []
    {
      data := [];
    }

    method Write(b: seq<byte>)
      modifies this
      ensures data == old(data) + b
    {
      data := data + b;
    }
  }

  /** An input buffer with a read cursor. */
  class InputStream {
    const buf: seq<byte>
    var pos: nat

    ghost predicate Valid()
      reads this
    {
      pos <= |buf|
    }

    /** The bytes not yet read. */
    function Rest(): seq<byte>
      reads this
      requires Valid()
    {
      buf[pos..]
    }

    constructor (b: seq<byte>)
      ensures Valid() && buf == b && Rest() == b
    {
      buf := b;
      pos := 0;
    }

    /** `read(n)`: up to `n` bytes, fewer only at the end of the buffer. */
    method Read(n: nat) returns (chunk: seq<byte>)
      requires Valid()
      modifies this
      ensures Valid()
      ensures chunk == old(Rest())[..Min(n, |old(Rest())|)]
      ensures Rest() == old(Rest())[|chunk|..]
    {
      var k := Min(n, |buf| - pos);
      chunk := buf[pos..pos + k];
      pos := pos + k;
    }
  }

  /**
   * How a loading method relates to the pure decoder that specifies it: it
   * returns the decoder's value and leaves exactly the decoder's remainder
   * unread, or it raises the decoder's error.
   */
  ghost predicate Consumed<T>(r: Result<T>, spec: Result<Parsed<T>>, rest: seq<byte>)
  {
    match spec
    case Ok(p) => r == Ok(p.value) && rest == p.rest
    case Err(e) => r == Err(e)
  }
}

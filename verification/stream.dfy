/**
 * A single-consumption body stream (an io.ReadCloser) and the io.Copy that
 * drains one into a bytes.Buffer.
 */
module Streams {

  newtype byte = x: int | 0 <= x < 256

  /** What one Read reports: some bytes, the end of the stream (io.EOF), or
      a read error. */
  datatype ReadStatus = Data | Eof | Failed

  /** The most bytes one Read delivers here: an arbitrary chunk size, since
      the sizes in which io.Copy moves bytes are not observable. */
  const CHUNK_SIZE: nat := 512

  /** A body: the bytes it will still deliver sit at and after the read
      cursor; once they are gone it reports io.EOF, or a read error when
      `failing` is set. A reader over an in-memory buffer
      (io.NopCloser(bytes.NewReader(b))) is a body over `b` that never fails. */
  class Body {
    const data: seq<byte>
    const failing: bool
    var pos: nat

    ghost predicate Valid()
      reads this
    {
      pos <= |data|
    }

    /** The bytes a reader of this body still gets. */
    function Pending(): seq<byte>
      reads this
      requires Valid()
    {
      data[pos..]
    }

    constructor (data: seq<byte>, failing: bool)
      ensures Valid() && this.data == data && this.failing == failing && pos == 0
      ensures Pending() == data
    {
      this.data := data;
      this.failing := failing;
      pos := 0;
    }

    /** Read: at most `max` of the pending bytes, or, with none left, the
        end of the stream or its error. */
    method Read(max: nat) returns (chunk: seq<byte>, status: ReadStatus)
      requires Valid() && max > 0
      modifies this
      ensures Valid()
      ensures chunk + Pending() == old(Pending())
      ensures old(Pending()) != [] ==> status == Data && 0 < |chunk| <= max
      ensures old(Pending()) == [] ==> chunk == [] && status == (if failing then Failed else Eof)
    {
      if pos < |data| {
        var end := if pos + max <= |data| then pos + max else |data|;
        chunk, status := data[pos..end], Data;
        assert data[pos..end] + data[end..] == data[pos..];
        pos := end;
      } else {
        chunk := [];
        status := if failing then Failed else Eof;
      }
    }
  }

  /** io.Copy(&buf, body): reads the body to its end into a fresh buffer;
      `ok` is false when the stream ended with a read error, in which case
      `buf` holds what was read before it. Either way the body is drained. */
  method Drain(body: Body) returns (buf: seq<byte>, ok: bool)
    requires body.Valid()
    modifies body
    ensures body.Valid() && body.Pending() == []
    ensures buf == old(body.Pending())
    ensures ok == !body.failing
  {
    buf := [];
    while true
      invariant body.Valid()
      invariant buf + body.Pending() == old(body.Pending())
      decreases |body.data| - body.pos
    {
      var chunk, status := body.Read(CHUNK_SIZE);
      if status != Data {
        ok := status == Eof;
        return;
      }
      buf := buf + chunk;
    }
  }
}

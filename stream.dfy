// The bounds-checked decoding stream of the generated decoder (parser/stream.go): a byte string
// with a read position. Go's panics become a `Panicked` result; a method that panics part-way
// leaves the stream as the Go code leaves it at the point of the panic.

module ByteStream {
  import opened Base

  /** The two ways the stream stops: its own EOS panic, and Go's run-time index check. */
  datatype Panic = EOS | IndexOutOfRange

  datatype Result<T> = Ok(value: T) | Panicked(panic: Panic)

  class Stream {
    var name: string
    var bytes: seq<byte>
    var pos: int

    constructor (name: string, bytes: seq<byte>)
      ensures this.name == name && this.bytes == bytes && pos == 0
    {
      this.name := name;
      this.bytes := bytes;
      pos := 0;
    }

    /** A position the stream can read from or stand at the end of. `Reset` can leave it. */
    predicate Valid()
      reads this
    {
      0 <= pos <= |bytes|
    }

    function Len(): (r: nat)
      reads this
      ensures r == |bytes|
    {
      |bytes|
    }

    /** At the end of the stream: the position equals the length, and nothing else. */
    predicate Eos()
      reads this
      ensures Eos() <==> pos == |bytes|
    {
      pos == Len()
    }

    /** Moves the position to `p`, whatever it is, and changes nothing else. */
    method Reset(p: int)
      modifies this
      ensures pos == p
      ensures bytes == old(bytes) && name == old(name)
    {
      pos := p;
    }

    /** Panics with EOS exactly when `n` more bytes would run past the end. */
    function Check(n: int): (r: Result<()>)
      reads this
      ensures r.Panicked? <==> pos + n > |bytes|
      ensures r.Panicked? ==> r.panic == EOS
    {
      if pos + n > Len() then Panicked(EOS) else Ok(())
    }

    /** Advances by exactly `n`, or panics with EOS, without moving, when `n` is negative or
        would run past the end. */
    method Skip(n: int) returns (r: Result<()>)
      modifies this
      ensures r.Ok? <==> 0 <= n && old(pos) + n <= |bytes|
      ensures r.Ok? ==> pos == old(pos) + n
      ensures r.Panicked? ==> r.panic == EOS && pos == old(pos)
      ensures old(Valid()) ==> Valid()
      ensures bytes == old(bytes) && name == old(name)
    {
      if n < 0 {
        return Panicked(EOS);
      }
      r := Check(n);
      if r.Ok? {
        pos := pos + n;
      }
    }

    /** The byte at the position, with no bounds check of the stream's own: Go's index check
        panics outside the byte string. */
    function Read(): (r: Result<byte>)
      reads this
      ensures r.Ok? <==> 0 <= pos < |bytes|
      ensures r.Ok? ==> r.value == bytes[pos]
      ensures r.Panicked? ==> r.panic == IndexOutOfRange
    {
      if 0 <= pos < |bytes| then Ok(bytes[pos]) else Panicked(IndexOutOfRange)
    }

    /** (0, false) at the end of the stream, otherwise the byte at the position and true. It
        never moves the position (it is a function of the stream). */
    function Peek(): (r: Result<(byte, bool)>)
      reads this
      ensures pos == |bytes| ==> r == Ok((0, false))
      ensures pos != |bytes| ==> (r.Ok? <==> 0 <= pos < |bytes|)
      ensures pos != |bytes| && r.Ok? ==> r.value == (bytes[pos], true)
    {
      if Eos() then Ok((0, false)) else
        var b := Read();
        if b.Panicked? then Panicked(b.panic) else Ok((b.value, true))
    }

    /** Takes the byte at the position: the byte `Peek` sees, then one step forward. At the end
        it panics with EOS; before the start, Go's index check panics. Neither moves. */
    method Get() returns (r: Result<byte>)
      modifies this
      ensures r.Ok? <==> 0 <= old(pos) < |bytes|
      ensures r.Ok? ==> r.value == bytes[old(pos)] && pos == old(pos) + 1
      ensures old(pos) + 1 > |bytes| ==> r == Panicked(EOS)
      ensures old(pos) < 0 ==> r == Panicked(IndexOutOfRange)
      ensures r.Panicked? ==> pos == old(pos)
      ensures old(Peek()).Ok? && old(Peek()).value.1 ==> r == Ok(old(Peek()).value.0)
      ensures old(Valid()) ==> Valid() && (r.Ok? <==> !old(Eos()))
      ensures bytes == old(bytes) && name == old(name)
    {
      var c := Check(1);
      if c.Panicked? {
        return Panicked(c.panic);
      }
      var b := Read();
      if b.Panicked? {
        return Panicked(b.panic);
      }
      var s := Skip(1);
      r := Ok(b.value);
    }

    /** Takes the next `n` bytes. When `n` is negative or runs past the end it panics with EOS
        without moving. A position before the start moves forward by `n` and then fails Go's
        slice bounds check. */
    method GetString(n: int) returns (r: Result<seq<byte>>)
      modifies this
      ensures n < 0 || old(pos) + n > |bytes| ==> r == Panicked(EOS) && pos == old(pos)
      ensures 0 <= n && old(pos) + n <= |bytes| ==> pos == old(pos) + n
      ensures 0 <= n && 0 <= old(pos) && old(pos) + n <= |bytes| ==> r == Ok(bytes[old(pos)..old(pos) + n])
      ensures 0 <= n && old(pos) < 0 && old(pos) + n <= |bytes| ==> r == Panicked(IndexOutOfRange)
      ensures r.Ok? ==> |r.value| == n
      ensures old(Valid()) ==> Valid()
      ensures bytes == old(bytes) && name == old(name)
    {
      var i := pos;
      var s := Skip(n);
      if s.Panicked? {
        return Panicked(s.panic);
      }
      if i < 0 {
        return Panicked(IndexOutOfRange);
      }
      r := Ok(bytes[i..i + n]);
    }
  }

  /** On a stream standing inside its bytes or at their end, `Peek` never hits Go's index check,
      and it reports a byte exactly when the stream is not at its end. */
  lemma ValidPeek(s: Stream)
    requires s.Valid()
    ensures s.Peek().Ok?
    ensures s.Peek().value.1 <==> !s.Eos()
  {
  }
}

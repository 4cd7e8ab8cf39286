/** A raw reader over an iterator of chunks. */
module ChunkReader {
  import opened Common

  type Bytes = seq<bv8>

  class ChunkIteratorIO {
    /** What the iterator has yet to give; chunks may be empty. */
    var chunks: seq<Bytes>
    var current: Bytes
    var offset: nat

    ghost predicate Valid()
      reads this
    {
      offset <= |current|
    }

    /** The bytes that have not been read. */
    ghost function Rest(): Bytes
      requires Valid()
      reads this
    {
      current[offset..] + Flatten(chunks)
    }

    constructor (chunks: seq<Bytes>)
      ensures Valid() && Rest() == Flatten(chunks)
    {
      this.chunks := chunks;
      current, offset := [], 0;
    }

    /** Copy `n` bytes of the current chunk behind the first `written` of `target`. */
    method CopySlice(target: array<bv8>, written: nat, n: nat)
      requires Valid() && written + n <= target.Length && offset + n <= |current|
      modifies target
      ensures target[..written + n] == old(target[..written]) + current[offset..offset + n]
      ensures target[written + n..] == old(target[written + n..])
    {
      for k := 0 to n
        invariant target[..written + k] == old(target[..written]) + current[offset..offset + k]
        invariant target[written + k..] == old(target[written + k..])
      {
        target[written + k] := current[offset + k];
        assert target[..written + k + 1] == target[..written + k] + [current[offset + k]];
      }
    }

    /** Copy as much of the current chunk as fits. */
    method CopyAvailable(target: array<bv8>, written: nat) returns (n: nat)
      requires Valid() && written < target.Length && offset < |current|
      modifies `offset, target
      ensures Valid() && 0 < n <= target.Length - written
      ensures target[..written + n] + Rest() == old(target[..written] + Rest())
      ensures target[written + n..] == old(target[written + n..])
    {
      ghost var before, rest := target[..written], Rest();
      n := Min(target.Length - written, |current| - offset);
      CopySlice(target, written, n);
      assert rest == current[offset..offset + n] + (current[offset + n..] + Flatten(chunks));
      assert before + rest == target[..written + n] + (current[offset + n..] + Flatten(chunks));
      offset := offset + n;
    }

    /** Fills the buffer with the next bytes, fewer only when there are no more. */
    method ReadInto(target: array<bv8>) returns (written: nat)
      requires Valid()
      modifies this, target
      ensures Valid() && written == Min(target.Length, |old(Rest())|)
      ensures target[..written] + Rest() == old(Rest())
      ensures target[written..] == old(target[written..])
    {
      written := 0;
      assert target[..0] == [];
      while written < target.Length
        invariant Valid() && written <= target.Length
        invariant target[..written] + Rest() == old(Rest())
        invariant target[written..] == old(target[written..])
        decreases |chunks|, target.Length - written
      {
        if offset >= |current| {
          if chunks == [] {
            break;
          }
          NextChunk();
        } else {
          var n := CopyAvailable(target, written);
          written := written + n;
        }
      }
    }

    method NextChunk()
      requires Valid() && offset == |current| && chunks != []
      modifies this
      ensures Valid() && Rest() == old(Rest()) && chunks == old(chunks)[1..]
    {
      var chunk := chunks[0];
      chunks := chunks[1..];
      if chunk == [] {
        return;
      }
      current, offset := chunk, 0;
    }
  }

  method ReadOnce(reader: ChunkIteratorIO, size: nat) returns (data: Bytes)
    requires reader.Valid()
    modifies reader
    ensures reader.Valid() && data + reader.Rest() == old(reader.Rest())
    ensures |data| == Min(size, |old(reader.Rest())|)
  {
    var buffer := new bv8[size];
    var written := reader.ReadInto(buffer);
    data := buffer[..written];
  }

  /** Reads with buffers of any positive sizes, up to the first empty result, give
      the chunks one after the other. */
  method ReadToEnd(chunks: seq<Bytes>, sizes: nat -> nat) returns (out: Bytes)
    requires forall k :: sizes(k) > 0
    ensures out == Flatten(chunks)
  {
    var reader := new ChunkIteratorIO(chunks);
    var data := ReadOnce(reader, sizes(0));
    out := data;
    var k: nat := 1;
    while data != []
      invariant fresh(reader) && reader.Valid() && out + reader.Rest() == Flatten(chunks)
      invariant data == [] ==> reader.Rest() == []
      decreases |reader.Rest()|, |data|
    {
      ghost var before := out;
      data := ReadOnce(reader, sizes(k));
      out := out + data;
      assert before + (data + reader.Rest()) == out + reader.Rest();
      k := k + 1;
    }
  }
}

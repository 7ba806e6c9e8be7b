/** Byte streams with a read position. */
module Streams {
  // A read may return fewer bytes than asked for, but none only at the end.
  class ByteStream {
    const data: seq<bv8>
    var position: nat

    constructor (data: seq<bv8>)
      ensures this.data == data && position == 0
    {
      this.data := data;
      position := 0;
    }

    method Read(most: nat) returns (chunk: seq<bv8>)
      requires position <= |data|
      modifies this`position
      ensures old(position) <= position <= |data| && chunk == data[old(position)..position] && |chunk| <= most
      ensures chunk == [] <==> most == 0 || old(position) == |data|
    {
      if most == 0 || position == |data| {
        return [];
      }
      var count: nat :| 1 <= count <= most && position + count <= |data|;
      chunk := data[position..position + count];
      position := position + count;
    }
  }
}

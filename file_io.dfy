/**
 * The two file handles the system uses, as byte sequences: a C stdio stream
 * opened for reading ("rb"), read with fread and moved with fseek, and a
 * Python file opened for writing ("wb"), appended to with write.
 */
module FileIO {
  import opened Bytes
  import opened Wrappers

  /** The n bytes at pos, or None when the file ends before them. */
  function Slice(data: seq<Byte>, pos: nat, n: nat): (r: Option<seq<Byte>>)
    ensures r.Some? <==> pos + n <= |data|
    ensures r.Some? ==> r.value == data[pos..pos + n]
  {
    if pos + n <= |data| then Some(data[pos..pos + n]) else None
  }

  /** A file opened with fopen(path, "rb"). */
  class FileReader {
    const contents: seq<Byte>
    var pos: nat

    constructor Open(contents: seq<Byte>)
      ensures this.contents == contents && pos == 0
    {
      this.contents := contents;
      pos := 0;
    }

    /**
     * fread of n bytes.  A read that runs past the end of the file is a
     * short read, reported as None; the cursor is then left at the end.
     */
    method Read(n: nat) returns (r: Option<seq<Byte>>)
      modifies this
      ensures r == Slice(contents, old(pos), n)
      ensures r.Some? ==> pos == old(pos) + n
      ensures r.None? ==> pos == if old(pos) < |contents| then |contents| else old(pos)
    {
      r := Slice(contents, pos, n);
      if r.Some? {
        pos := pos + n;
      } else if pos < |contents| {
        pos := |contents|;
      }
    }

    /** fseek(f, n, SEEK_CUR); C allows the cursor to move past the end. */
    method Skip(n: nat)
      modifies this
      ensures pos == old(pos) + n
    {
      pos := pos + n;
    }

    method ReadU8() returns (r: Option<Byte>)
      modifies this
      ensures r.Some? <==> old(pos) + 1 <= |contents|
      ensures r.Some? ==> r.value == contents[old(pos)] && pos == old(pos) + 1
    {
      var b := Read(1);
      if b.Some? { r := Some(b.value[0]); } else { r := None; }
    }

    method ReadU16() returns (r: Option<U16>)
      modifies this
      ensures r.Some? <==> old(pos) + 2 <= |contents|
      ensures r.Some? ==> r.value == FromLE16(contents[old(pos)..old(pos) + 2]) && pos == old(pos) + 2
    {
      var b := Read(2);
      if b.Some? { r := Some(FromLE16(b.value)); } else { r := None; }
    }

    method ReadU32() returns (r: Option<U32>)
      modifies this
      ensures r.Some? <==> old(pos) + 4 <= |contents|
      ensures r.Some? ==> r.value == FromLE32(contents[old(pos)..old(pos) + 4]) && pos == old(pos) + 4
    {
      var b := Read(4);
      if b.Some? { r := Some(FromLE32(b.value)); } else { r := None; }
    }
  }

  /** A file opened with Python's open(path, 'wb'). */
  class OutFile {
    var data: seq<Byte>
    var closed: bool

    constructor Create()
      ensures data == [] && !closed
    {
      data := [];
      closed := false;
    }

    method Write(b: seq<Byte>)
      requires !closed
      modifies this
      ensures data == old(data) + b && !closed
    {
      data := data + b;
    }

    method Close()
      modifies this
      ensures closed && data == old(data)
    {
      closed := true;
    }
  }
}

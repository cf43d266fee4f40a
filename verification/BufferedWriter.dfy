/**
 The buffered writer of page files (photondb/src/page_store/page_file/file_builder.rs): blocks of any size
 go through an aligned buffer, and in direct mode the last write is padded and then cut off again.
 */
module BufferedWriter {
  import opened Options
  import opened Data
  import opened Arithmetic
  import opened SortedPage

  /** `ceil_to_block_hi_pos`. */
  function Ceil(pos: nat, align: nat): nat
    requires align > 0
  {
    (pos + align - 1) / align * align
  }

  lemma CeilFacts(pos: nat, align: nat, cap: nat)
    requires align > 0 && pos <= cap && cap % align == 0
    ensures pos <= Ceil(pos, align) <= cap
    ensures Ceil(cap, align) == cap
  {
    var q, c := (pos + align - 1) / align, cap / align;
    Division(pos + align - 1, align);
    Division(cap, align);
    assert q * align >= pos;
    Ordered(q, c, align);
    Product(q, c, align);
    ExactDivision(cap + align - 1, align, c);
  }

  class Writer {
    const direct: bool
    const align: nat
    const buffer: array<Byte>
    var file: Blob
    var bufPos: nat
    var actualDataSize: nat
    var nextPageOffset: nat
    ghost var data: Blob

    /** What was written is in the file or in the buffer, in this order. */
    ghost predicate Valid()
      reads this, buffer
    {
      && align > 0 && buffer.Length > 0 && buffer.Length % align == 0 && bufPos <= buffer.Length
      && file + buffer[..bufPos] == data
      && (direct ==> actualDataSize == |file|)
    }

    constructor (batch: nat, direct: bool, align: nat)
      requires batch > 0 && align > 0
      ensures Valid() && data == [] && nextPageOffset == 0 && fresh(buffer) && this.direct == direct
    {
      var size := Ceil(batch, align);
      Division(batch + align - 1, align);
      ExactMultiple((batch + align - 1) / align, align);
      this.direct, this.align := direct, align;
      buffer := new Byte[size];
      file, bufPos, actualDataSize, nextPageOffset, data := [], 0, 0, 0, [];
    }

    /** Appends one block and says where it starts. */
    method WriteBlock(page: Blob, checksum: Option<nat>) returns (offset: nat)
      requires Valid() && nextPageOffset == |data|
      modifies this, buffer
      ensures Valid() && nextPageOffset == |data| && offset == |old(data)|
      ensures data == if checksum.Some? then old(data) + page + PutInt(checksum.value, 4) else old(data) + page
    {
      FillBuf(page);
      if checksum.Some? {
        FillBuf(PutInt(checksum.value, 4));
      }
      offset := nextPageOffset;
      nextPageOffset := nextPageOffset + |page| + if checksum.None? then 0 else 4;
    }

    method FillBuf(bytes: Blob)
      requires Valid()
      modifies this`file, this`bufPos, this`actualDataSize, this`data, buffer
      ensures Valid() && data == old(data) + bytes
    {
      var consumed := 0;
      while consumed < |bytes|
        invariant Valid() && consumed <= |bytes| && data == old(data) + bytes[..consumed]
        decreases |bytes| - consumed, bufPos
      {
        if bufPos < buffer.Length {
          var free := buffer.Length - bufPos;
          var end := if consumed + free < |bytes| then consumed + free else |bytes|;
          Copy(bytes[consumed..end]);
          assert bytes[..consumed] + bytes[consumed..end] == bytes[..end];
          consumed := end;
        } else {
          FlushFull();
        }
      }
      assert bytes[..consumed] == bytes;
    }

    /** Part of a block that still fits into the buffer. */
    method Copy(part: Blob)
      requires Valid() && bufPos + |part| <= buffer.Length
      modifies this`bufPos, this`data, buffer
      ensures Valid() && data == old(data) + part && bufPos == old(bufPos) + |part|
    {
      ghost var before := buffer[..bufPos];
      for i := 0 to |part|
        invariant bufPos == old(bufPos) && data == old(data)
        invariant buffer[..bufPos] == before
        invariant buffer[bufPos..bufPos + i] == part[..i]
      {
        buffer[bufPos + i] := part[i];
        assert buffer[bufPos..bufPos + i + 1] == buffer[bufPos..bufPos + i] + [part[i]];
        assert part[..i + 1] == part[..i] + [part[i]];
      }
      assert part[..|part|] == part;
      assert buffer[..bufPos + |part|] == before + part;
      assert file + (before + part) == file + before + part;
      bufPos := bufPos + |part|;
      data := data + part;
    }

    /** A full buffer is aligned already, so nothing is padded in the middle of the file. */
    method FlushFull()
      requires Valid() && bufPos == buffer.Length
      modifies this`file, this`bufPos, this`actualDataSize
      ensures Valid() && bufPos == 0
    {
      CeilFacts(bufPos, align, buffer.Length);
      Flush();
      assert file == data;
    }

    /** Writes the buffer, in direct mode rounded up to a whole number of blocks. */
    method Flush()
      requires Valid()
      modifies this`file, this`bufPos, this`actualDataSize
      ensures bufPos == 0
      ensures actualDataSize == old(actualDataSize) + if direct then old(bufPos) else 0
      ensures old(bufPos) == 0 ==> file == old(file)
      ensures old(bufPos) > 0 ==>
                var end := if direct then Ceil(old(bufPos), align) else old(bufPos);
                old(bufPos) <= end <= buffer.Length && file == old(file) + buffer[..end]
    {
      if bufPos == 0 {
        return;
      }
      CeilFacts(bufPos, align, buffer.Length);
      if direct {
        actualDataSize := actualDataSize + bufPos;
        bufPos := Ceil(bufPos, align);
      }
      file := file + buffer[..bufPos];
      bufPos := 0;
    }

    /** In the end the file holds exactly the blocks that were written. */
    method FlushAndSync()
      requires Valid()
      modifies this`file, this`bufPos, this`actualDataSize
      ensures file == data
    {
      ghost var before, pos := file, bufPos;
      Flush();
      if direct {
        assert buffer[..pos] <= file[|before|..];
        file := file[..actualDataSize];
        assert file == before + buffer[..pos];
      }
    }
  }
}

/** devices.c: file reads and writes pass through the system buffer in chunks. */
module DeviceFiles {
  import opened FatLayout
  import opened FatSpec
  import opened FatVolume
  import opened FatRefinement
  import opened FatLinkage
  import opened FatFiles

  /** What sys_write_file returns.  When space runs out it is not the number of bytes stored: the error
      code of the failing chunk is added to the bytes of the chunks before it. */
  function WriteResult(room: nat, count: nat): (n: int) {
    if room == count then count else (room / SYSBUFF_SIZE) * SYSBUFF_SIZE - ENOSPC
  }

  /** The result counts the stored bytes if and only if everything was stored. */
  lemma WriteResultIff(room: nat, count: nat)
    requires room <= count
    ensures WriteResult(room, count) == room <==> room == count
  {
    var q, m := room / SYSBUFF_SIZE, room % SYSBUFF_SIZE;
    assert room == q * SYSBUFF_SIZE + m;
  }

  /** Two writes in a row, the first complete, are one write. */
  lemma WriteAppends(v: Volume, f: nat, at: nat, x: seq<Byte>, y: seq<Byte>)
    requires f < |v.files| && v.files[f].File? && at <= |v.files[f].bytes| && v.free >= 0
    requires Room(v, f, at, |x|) == |x|
    ensures var v1 := Write(v, f, at, x).0;
      && v1.free >= 0 && f < |v1.files| && v1.files[f].File? && at + |x| <= |v1.files[f].bytes|
      && Room(v, f, at, |x + y|) == |x| + Room(v1, f, at + |x|, |y|)
      && Write(v1, f, at + |x|, y).0 == Write(v, f, at, x + y).0
  {
    WriteSpace(v, f, at, x);
    hide CeilDiv;
    var v1, was := Write(v, f, at, x).0, v.files[f].bytes;
    assert x[..|x|] == x;
    var n := Room(v1, f, at + |x|, |y|);
    assert (x + y)[..|x| + n] == x + y[..n];
    assert Overwrite(Overwrite(was, at, x), at + |x|, y[..n]) == Overwrite(was, at, x + y[..n]);
    assert v.files[f := File(Overwrite(was, at, x))][f := File(Overwrite(was, at, x + y[..n]))]
        == v.files[f := File(Overwrite(was, at, x + y[..n]))];
  }

  /** A first write that is cut short leaves nothing for a second. */
  lemma WriteCutShort(v: Volume, f: nat, at: nat, x: seq<Byte>, y: seq<Byte>)
    requires f < |v.files| && v.files[f].File? && at <= |v.files[f].bytes| && v.free >= 0
    requires Room(v, f, at, |x|) != |x|
    ensures Room(v, f, at, |x + y|) == Room(v, f, at, |x|)
    ensures Write(v, f, at, x + y).0 == Write(v, f, at, x).0
  {
    hide CeilDiv;
    assert (x + y)[..Room(v, f, at, |x|)] == x[..Room(v, f, at, |x|)];
  }

  /** One more chunk after w bytes: either all of it is stored, or nothing further can be. */
  lemma ChunkJoins(v0: Volume, f: nat, at: nat, buffer: seq<Byte>, w: nat, c: nat)
    requires f < |v0.files| && v0.files[f].File? && at <= |v0.files[f].bytes| && v0.free >= 0
    requires w + c <= |buffer| && Room(v0, f, at, w) == w
    ensures var v, x := Write(v0, f, at, buffer[..w]).0, buffer[w..w + c];
      && v.free >= 0 && f < |v.files| && v.files[f].File? && at + w <= |v.files[f].bytes|
      && (Room(v, f, at + w, c) == c ==>
            Room(v0, f, at, w + c) == w + c && Write(v, f, at + w, x).0 == Write(v0, f, at, buffer[..w + c]).0)
      && (Room(v, f, at + w, c) != c ==>
            && w <= Room(v0, f, at, |buffer|) < w + c
            && Write(v, f, at + w, x).0 == Write(v0, f, at, buffer).0)
  {
    hide CeilDiv, Write, Room;
    var x := buffer[w..w + c];
    assert buffer[..w] + x == buffer[..w + c] && buffer[..w + c] + buffer[w + c..] == buffer;
    WriteAppends(v0, f, at, buffer[..w], x);
    RoomBound(Write(v0, f, at, buffer[..w]).0, f, at + w, c);
    if Room(v0, f, at, w + c) != w + c {
      WriteCutShort(v0, f, at, buffer[..w + c], buffer[w + c..]);
    }
  }

  lemma RoomBound(v: Volume, f: nat, at: nat, n: nat)
    requires f < |v.files| && v.files[f].File?
    ensures 0 <= Room(v, f, at, n) <= n
    ensures at <= |v.files[f].bytes| && v.free >= 0 ==> Room(v, f, at, 0) == 0 && Write(v, f, at, []).0 == v
  {
    if at <= |v.files[f].bytes| && v.free >= 0 {
      assert Overwrite(v.files[f].bytes, at, []) == v.files[f].bytes;
      assert v.files[f := v.files[f]] == v.files;
    }
  }

  lemma ResultOfChunks(q: nat, room: nat, count: nat)
    requires q * SYSBUFF_SIZE <= room < (q + 1) * SYSBUFF_SIZE && room != count
    ensures WriteResult(room, count) == q * SYSBUFF_SIZE - ENOSPC
  {
    var p, m := room / SYSBUFF_SIZE, room % SYSBUFF_SIZE;
    assert room == p * SYSBUFF_SIZE + m;
    assert p < q ==> (p + 1) * SYSBUFF_SIZE <= q * SYSBUFF_SIZE;
    assert p > q ==> p * SYSBUFF_SIZE >= (q + 1) * SYSBUFF_SIZE;
  }

  lemma Present(fs: Fat, l: seq<seq<int>>, f: nat)
    requires Sound(fs, l) && f < MAX_FILES && fs.root[f].mode != FREE_TYPE
    ensures Describes(fs, l) && SizesMatch(fs, l)
    ensures var v := View(fs, l);
      f < |v.files| && v.free >= 0 && v.files[f].File? && |v.files[f].bytes| == fs.root[f].size
  {
    SizeInChain(fs, l, f);
  }

  /** One chunk goes to fat_write. */
  method WriteChunk(fs: FatFs, file: int, chunk: seq<Byte>, offset: int) returns (wrote: int)
    requires Sound(fs.Value(), fs.layout) && 0 <= file < MAX_FILES && fs.root.Length == MAX_FILES
    requires fs.root[file].mode != FREE_TYPE && 0 <= offset <= fs.root[file].size
    modifies fs, fs.root, fs.links, fs.data
    ensures Sound(fs.Value(), fs.layout) && fs.root[file].mode != FREE_TYPE
    ensures var v := old(View(fs.Value(), fs.layout));
      && v.files[file].File? && offset <= |v.files[file].bytes| && v.free >= 0
      && (View(fs.Value(), fs.layout), wrote) == Write(v, file, offset, chunk)
  {
    hide Describes, WriteEffect, Write, UnusedEmpty, FileView, Linked, Threaded;
    ghost var was, l := fs.Value(), fs.layout;
    Lengths(was, l);
    DescribedLinked(was, l);
    Present(was, l, file);
    wrote := fs.Write(file, chunk, offset);
    WriteRefines(was, l, file, chunk, offset, wrote, fs.Value(), fs.layout);
    WriteParts(was, l, file, chunk, offset, wrote, fs.Value(), fs.layout);
  }

  method SysWriteFile(fs: FatFs, file: int, buffer: seq<Byte>, offset: int) returns (written: int)
    requires Sound(fs.Value(), fs.layout) && 0 <= file < MAX_FILES && fs.root.Length == MAX_FILES
    requires fs.root[file].mode != FREE_TYPE && 0 <= offset <= fs.root[file].size
    modifies fs, fs.root, fs.links, fs.data
    ensures Sound(fs.Value(), fs.layout)
    ensures var v := old(View(fs.Value(), fs.layout));
      && v.files[file].File? && offset <= |v.files[file].bytes| && v.free >= 0
      && View(fs.Value(), fs.layout) == Write(v, file, offset, buffer).0
      && 0 <= Room(v, file, offset, |buffer|)
      && written == WriteResult(Room(v, file, offset, |buffer|), |buffer|)
  {
    hide Describes, SizesMatch, UnusedEmpty, FileView, Room, WriteResult, Write;
    ghost var v0, q := View(fs.Value(), fs.layout), 0;
    Present(fs.Value(), fs.layout, file);
    RoomBound(v0, file, offset, |buffer|);
    written := 0;
    var remain := |buffer|;
    assert buffer[..0] == [];
    while remain != 0
      invariant remain >= 0 && written >= 0 && written + remain == |buffer| && q >= 0
      invariant remain > 0 ==> written == q * SYSBUFF_SIZE
      invariant Sound(fs.Value(), fs.layout) && fs.root[file].mode != FREE_TYPE
      invariant Room(v0, file, offset, written) == written
      invariant View(fs.Value(), fs.layout) == Write(v0, file, offset, buffer[..written]).0
      decreases remain
    {
      var chunk := if remain > SYSBUFF_SIZE then SYSBUFF_SIZE else remain;
      ghost var v := View(fs.Value(), fs.layout);
      Present(fs.Value(), fs.layout, file);
      ChunkJoins(v0, file, offset, buffer, written, chunk);
      RoomOfWrite(v, file, offset + written, buffer[written..written + chunk]);
      var wrote := WriteChunk(fs, file, buffer[written..written + chunk], offset + written);
      written := written + wrote;
      if wrote != chunk {
        ResultOfChunks(q, Room(v0, file, offset, |buffer|), |buffer|);
        return written;
      }
      remain := remain - wrote;
      q := q + 1;
    }
    assert buffer[..written] == buffer;
    ResultOfAll(|buffer|);
  }

  lemma RoomOfWrite(v: Volume, f: nat, at: nat, x: seq<Byte>)
    requires f < |v.files| && v.files[f].File? && at <= |v.files[f].bytes| && v.free >= 0
    ensures Write(v, f, at, x).1 == if Room(v, f, at, |x|) == |x| then |x| else -ENOSPC
  {
  }

  lemma ResultOfAll(count: nat)
    ensures WriteResult(count, count) == count
  {
  }

  /** Two reads in a row, the first complete, are one; after a short read nothing is left. */
  lemma ReadAppends(v: Volume, f: nat, at: nat, m: nat, n: nat, rest: nat)
    requires f < |v.files| && v.files[f].File? && |Read(v, f, at, m)| == m
    ensures Read(v, f, at, m) + Read(v, f, at + m, n) == Read(v, f, at, m + n)
    ensures |Read(v, f, at + m, n)| < n ==> Read(v, f, at, m + n) == Read(v, f, at, m + n + rest)
    ensures |Read(v, f, at + m, n)| <= n
  {
  }

  /** Reading in chunks is one read, up to the end of the file. */
  method SysReadFile(fs: FatFs, file: int, offset: int, count: int) returns (r: int, out: seq<Byte>)
    requires Sound(fs.Value(), fs.layout) && 0 <= file < MAX_FILES && fs.root.Length == MAX_FILES
    requires fs.root[file].mode != FREE_TYPE && offset >= 0 && count >= 0
    modifies fs`blockBuffer
    ensures fs.Value() == old(fs.Value())
    ensures var v := View(fs.Value(), fs.layout);
      v.files[file].File? && out == Read(v, file, offset, count) && r == |out|
  {
    hide Describes, SizesMatch, UnusedEmpty, FileView, Read, BytesRead, BlocksIn, View, Linked, Threaded;
    ghost var was := fs.Value();
    DescribedLinked(was, fs.layout);
    ghost var v := View(was, fs.layout);
    Present(was, fs.layout, file);
    out := [];
    var read, remain := 0, count;
    ReadNothing(v, file, offset);
    while remain != 0
      invariant read >= 0 && remain >= 0 && read + remain == count && fs.Value() == was
      invariant |out| == read && out == Read(v, file, offset, read)
      decreases remain
    {
      var chunk := if remain > SYSBUFF_SIZE then SYSBUFF_SIZE else remain;
      var fsRead, part := fs.Read(file, offset + read, chunk);
      ReadRefines(was, fs.layout, file, offset + read, chunk);
      ReadAppends(v, file, offset, read, chunk, remain - chunk);
      out := out + part;
      read := read + fsRead;
      if fsRead != chunk { return read, out; }
      remain := remain - fsRead;
    }
    return read, out;
  }

  lemma ReadNothing(v: Volume, f: nat, at: nat)
    requires f < |v.files| && v.files[f].File?
    ensures Read(v, f, at, 0) == []
  {
  }
}

/** Buffers of ngx_buf.h, and what copying and sending do to one. */
module OutBuf {
  type Byte = bv8

  /** ngx_buf_t; `mem` is the memory from address 0 on, `file` the contents of the file. */
  datatype Buf = Buf(
    mem: seq<Byte>, start: nat, pos: nat, last: nat, end: nat, tag: nat,
    temporary: bool, memory: bool, mmap: bool, recycled: bool,
    inFile: bool, file: seq<Byte>, filePos: nat, fileLast: nat,
    flush: bool, sync: bool, lastBuf: bool, lastInChain: bool)

  predicate InMemory(b: Buf) { b.temporary || b.memory || b.mmap }

  predicate Special(b: Buf) { (b.flush || b.lastBuf || b.sync) && !InMemory(b) && !b.inFile }

  /** A buffer in memory and in a file holds the same bytes in both; one in neither holds none. */
  predicate Ok(b: Buf) {
    && b.pos <= b.last <= |b.mem| && b.filePos <= b.fileLast <= |b.file|
    && (InMemory(b) && b.inFile ==> b.mem[b.pos..b.last] == b.file[b.filePos..b.fileLast])
    && (!InMemory(b) && !b.inFile ==> b.filePos == b.fileLast)
  }

  /** ngx_buf_size */
  function Size(b: Buf): (r: nat)
    requires Ok(b)
  {
    if InMemory(b) then b.last - b.pos else b.fileLast - b.filePos
  }

  function Bytes(b: Buf): (r: seq<Byte>)
    requires Ok(b)
    ensures |r| == Size(b)
  {
    if InMemory(b) then b.mem[b.pos..b.last] else b.file[b.filePos..b.fileLast]
  }

  /** k bytes have been sent or copied from the buffer. */
  function Advance(b: Buf, k: nat): Buf {
    var c := if InMemory(b) then b.(pos := b.pos + k) else b;
    if b.inFile then c.(filePos := b.filePos + k) else c
  }

  lemma Tail<T>(s: seq<T>, a: nat, b: nat, k: nat)
    requires a <= b <= |s| && k <= b - a
    ensures s[a..b][k..] == s[a + k..b] && s[a..b][..k] == s[a..a + k]
  {}

  lemma AdvanceMemory(b: Buf, k: nat)
    requires Ok(b) && InMemory(b) && k <= Size(b)
    ensures Ok(Advance(b, k)) && Bytes(Advance(b, k)) == Bytes(b)[k..]
  {
    Tail(b.mem, b.pos, b.last, k);
    if b.inFile {
      assert |b.mem[b.pos..b.last]| == |b.file[b.filePos..b.fileLast]|;
      Tail(b.file, b.filePos, b.fileLast, k);
    }
  }

  lemma AdvanceOk(b: Buf, k: nat)
    requires Ok(b) && k <= Size(b)
    ensures Ok(Advance(b, k)) && Bytes(Advance(b, k)) == Bytes(b)[k..]
  {
    if InMemory(b) {
      AdvanceMemory(b, k);
    } else if b.inFile {
      Tail(b.file, b.filePos, b.fileLast, k);
    } else {
      assert Advance(b, k) == b;
    }
  }

  /** A copy buffer with nothing in it and room for something. */
  predicate Blank(b: Buf) {
    b.temporary && !b.memory && !b.mmap && b.pos == b.last == b.start < b.end == |b.mem|
  }

  /** Memory with some bytes written over it. */
  function Blit(m: seq<Byte>, at: nat, s: seq<Byte>): (r: seq<Byte>)
    requires at + |s| <= |m|
    ensures |r| == |m| && r[at..at + |s|] == s
  {
    m[..at] + s + m[at + |s|..]
  }

  /** The bytes written at `pos` of a blank buffer. */
  function Written(dst: Buf, s: seq<Byte>): Buf
    requires dst.pos + |s| <= |dst.mem|
  {
    dst.(mem := Blit(dst.mem, dst.pos, s), last := dst.last + |s|)
  }

  /** Where in the file the bytes are from. */
  function Located(d: Buf, src: Buf, k: nat, sendfile: bool): Buf {
    if sendfile && src.inFile
    then d.(inFile := true, file := src.file, filePos := src.filePos, fileLast := src.filePos + k)
    else d.(inFile := false)
  }

  /** The marks of the source, if its last byte has been copied. */
  function Marked(d: Buf, src: Buf, whole: bool): Buf {
    if whole then d.(flush := src.flush, lastBuf := src.lastBuf, lastInChain := src.lastInChain) else d
  }

  /** ngx_output_chain_copy_buf, the destination: s is what is copied from the source. */
  function Loaded(dst: Buf, src: Buf, s: seq<Byte>, sendfile: bool): Buf
    requires Ok(src) && dst.pos + |s| <= |dst.mem|
  {
    Marked(Located(Written(dst, s), src, |s|, sendfile), src, |s| == Size(src))
  }

  /** A copy is in the memory that the copy buffer is in, and in the file only if files are sent. */
  lemma LoadedKind(dst: Buf, src: Buf, s: seq<Byte>, sendfile: bool)
    requires Ok(src) && dst.pos + |s| <= |dst.mem|
    ensures var d := Loaded(dst, src, s, sendfile);
      && d.temporary == dst.temporary && d.memory == dst.memory && d.mmap == dst.mmap
      && d.inFile == (sendfile && src.inFile)
  {
    var w := Written(dst, s);
    LocatedKind(w, src, |s|, sendfile);
    MarkedKind(Located(w, src, |s|, sendfile), src, |s| == Size(src));
  }

  lemma LocatedKind(d: Buf, src: Buf, k: nat, sendfile: bool)
    ensures var e := Located(d, src, k, sendfile);
      && e.temporary == d.temporary && e.memory == d.memory && e.mmap == d.mmap
      && e.inFile == (sendfile && src.inFile)
  {
    if sendfile && src.inFile {
      var e := d.(inFile := true, file := src.file, filePos := src.filePos, fileLast := src.filePos + k);
      assert Located(d, src, k, sendfile) == e;
    } else {
      var e := d.(inFile := false);
      assert Located(d, src, k, sendfile) == e;
    }
  }

  lemma MarkedKind(d: Buf, src: Buf, whole: bool)
    ensures var e := Marked(d, src, whole);
      e.temporary == d.temporary && e.memory == d.memory && e.mmap == d.mmap && e.inFile == d.inFile
  {}

  /** The same buffer, whatever it holds. */
  predicate SameBuf(b: Buf, c: Buf) {
    c.tag == b.tag && c.start == b.start && c.end == b.end && |c.mem| == |b.mem| && c.temporary == b.temporary
      && c.memory == b.memory && c.mmap == b.mmap && c.pos == b.pos
  }

  lemma WrittenOk(dst: Buf, s: seq<Byte>)
    requires Blank(dst) && dst.pos + |s| <= dst.end
    ensures var d := Written(dst, s); d.pos <= d.last <= |d.mem| && d.mem[d.pos..d.last] == s && SameBuf(dst, d)
  {}

  /** In a buffer that is in memory and in a file, both views are cut alike. */
  lemma FileBytes(src: Buf, k: nat)
    requires Ok(src) && src.inFile && k <= Size(src)
    ensures src.filePos + k <= src.fileLast && src.file[src.filePos..src.filePos + k] == Bytes(src)[..k]
  {
    assert Bytes(src) == src.file[src.filePos..src.fileLast];
    Tail(src.file, src.filePos, src.fileLast, k);
  }

  /** A buffer in memory, and in a file if at all with the same bytes. */
  lemma HoldsBytes(e: Buf, s: seq<Byte>)
    requires e.temporary && e.filePos <= e.fileLast <= |e.file| && e.pos <= e.last <= |e.mem|
      && e.mem[e.pos..e.last] == s
    requires e.inFile ==> e.file[e.filePos..e.fileLast] == s
    ensures Ok(e) && Bytes(e) == s
  {}

  lemma LocatedOk(d: Buf, src: Buf, k: nat, sendfile: bool, s: seq<Byte>)
    requires Ok(src) && k <= Size(src) && d.temporary && d.filePos <= d.fileLast <= |d.file|
    requires d.pos <= d.last <= |d.mem| && d.mem[d.pos..d.last] == s && s == Bytes(src)[..k]
    ensures var e := Located(d, src, k, sendfile); Ok(e) && Bytes(e) == s && SameBuf(d, e)
  {
    var e := Located(d, src, k, sendfile);
    if sendfile && src.inFile {
      FileBytes(src, k);
      assert e.file[e.filePos..e.fileLast] == s;
    }
    HoldsBytes(e, s);
  }

  lemma MarkedOk(d: Buf, src: Buf, whole: bool)
    requires Ok(d)
    ensures var e := Marked(d, src, whole); Ok(e) && Bytes(e) == Bytes(d) && SameBuf(d, e)
  {}

  lemma LoadedOk(dst: Buf, src: Buf, s: seq<Byte>, sendfile: bool)
    requires Ok(dst) && Ok(src) && Blank(dst) && s <= Bytes(src) && dst.pos + |s| <= dst.end
    ensures var d := Loaded(dst, src, s, sendfile); Ok(d) && Bytes(d) == s && SameBuf(dst, d)
  {
    var w, k := Written(dst, s), |s|;
    WrittenOk(dst, s);
    LocatedOk(w, src, k, sendfile, s);
    MarkedOk(Located(w, src, k, sendfile), src, k == Size(src));
  }

  // Marks

  datatype Marks = Marks(flush: bool, lastBuf: bool, lastInChain: bool)

  function MarksOf(b: Buf): Marks { Marks(b.flush, b.lastBuf, b.lastInChain) }

  const NO_MARKS := Marks(false, false, false)

  /** A copy of the end of a source has its marks; one of less has those that the copy buffer had before. */
  lemma CopiedMarks(dst: Buf, src: Buf, s: seq<Byte>, sendfile: bool)
    requires Ok(src) && dst.pos + |s| <= |dst.mem|
    ensures MarksOf(Loaded(dst, src, s, sendfile)) == if |s| == Size(src) then MarksOf(src) else MarksOf(dst)
  {}

  /**
   * So a copy has the marks that belong to its bytes, exactly if the end was copied or the copy buffer had no marks.
   */
  lemma StaleMarks(dst: Buf, src: Buf, s: seq<Byte>, sendfile: bool)
    requires Ok(src) && dst.pos + |s| <= |dst.mem|
    ensures MarksOf(Loaded(dst, src, s, sendfile)) == (if |s| == Size(src) then MarksOf(src) else NO_MARKS) <==>
      |s| == Size(src) || MarksOf(dst) == NO_MARKS
  {
    CopiedMarks(dst, src, s, sendfile);
  }
}

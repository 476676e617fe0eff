/**
  The two storages for request bodies behind one interface (common/body_storage.go): a memory buffer with a
  reader, and a temporary file. Without I/O failures they are the same storage.
*/
module BodyStorage {
  import opened Common
  import opened DiskUsage

  datatype Op = Read(n: nat) | Seek(offset: int, whence: int) | Bytes | Close

  datatype Reply =
    | Data(bytes: seq<Byte>)
    | Eof
    | Position(n: int)
    | Done
    | ErrClosed
    | ErrSeek
    | ErrShort

  /** A byte sequence with a read position: a `bytes.Reader`, or an open file. The position may lie beyond the end. */
  datatype Cursor = Cursor(content: seq<Byte>, pos: nat)

  function Available(c: Cursor, n: nat): seq<Byte> {
    if c.pos >= |c.content| then [] else if c.pos + n > |c.content| then c.content[c.pos..]
    else c.content[c.pos..c.pos + n]
  }

  function Moved(c: Cursor, n: nat): Cursor {
    c.(pos := c.pos + |Available(c, n)|)
  }

  /** Both kinds refuse a negative position and an unknown whence, and stay where they are. */
  function SeekCursor(c: Cursor, offset: int, whence: int): (Cursor, Reply) {
    var target := if whence == 0 then offset else if whence == 1 then c.pos + offset else |c.content| + offset;
    if !(0 <= whence <= 2) || target < 0 then (c, ErrSeek) else (c.(pos := target), Position(target))
  }

  /** `bytes.Reader.Read`: the end is reported whatever the size of the buffer. */
  function ReaderRead(c: Cursor, n: nat): (Cursor, Reply) {
    if c.pos >= |c.content| then (c, Eof) else (Moved(c, n), Data(Available(c, n)))
  }

  /** `os.File.Read`: an empty buffer never reports the end. */
  function FileRead(c: Cursor, n: nat): (Cursor, Reply) {
    if n == 0 then (c, Data([])) else if c.pos >= |c.content| then (c, Eof) else (Moved(c, n), Data(Available(c, n)))
  }

  /** `io.ReadFull` on a file: exactly `n` bytes or an error. */
  function ReadFull(c: Cursor, n: nat): (Cursor, Reply) {
    if |Available(c, n)| == n then (Moved(c, n), Data(Available(c, n))) else (Moved(c, n), ErrShort)
  }

  // ----- the two storages -----

  datatype Memory = Memory(data: seq<Byte>, reader: Cursor, closed: bool)

  datatype Disk = Disk(file: Cursor, size: nat, closed: bool)

  function MemoryDo(m: Memory, op: Op): (Memory, Reply) {
    if op.Close? then (m.(closed := true), Done)
    else if m.closed then (m, ErrClosed)
    else
      match op
      case Read(n) => var (c, r) := ReaderRead(m.reader, n); (m.(reader := c), r)
      case Seek(offset, whence) => var (c, r) := SeekCursor(m.reader, offset, whence); (m.(reader := c), r)
      case Bytes => (m, Data(m.data))
  }

  /** Reads the whole file from its start and puts the position back. */
  function DiskBytes(file: Cursor, size: nat): (Cursor, Reply) {
    var (c0, here) := SeekCursor(file, 0, 1);
    if here.ErrSeek? then (c0, here)
    else
      var (c1, start) := SeekCursor(c0, 0, 0);
      if start.ErrSeek? then (c1, start)
      else
        var (c2, data) := ReadFull(c1, size);
        if !data.Data? then (c2, data)
        else
          var (c3, back) := SeekCursor(c2, here.n, 0);
          if back.ErrSeek? then (c3, back) else (c3, data)
  }

  function DiskDo(d: Disk, op: Op): (Disk, Reply) {
    if op.Close? then (d.(closed := true), Done)
    else if d.closed then (d, ErrClosed)
    else
      match op
      case Read(n) => var (c, r) := FileRead(d.file, n); (d.(file := c), r)
      case Seek(offset, whence) => var (c, r) := SeekCursor(d.file, offset, whence); (d.(file := c), r)
      case Bytes => var (c, r) := DiskBytes(d.file, d.size); (d.(file := c), r)
  }

  function NewMemory(data: seq<Byte>): Memory {
    Memory(data, Cursor(data, 0), false)
  }

  function NewDisk(data: seq<Byte>): Disk {
    Disk(Cursor(data, 0), |data|, false)
  }

  /** Both hold the same body at the same position and are both open or both closed. */
  predicate Alike(m: Memory, d: Disk) {
    m.reader == d.file && m.data == d.file.content && d.size == |m.data| && m.closed == d.closed
  }

  /** `Bytes` gives the whole body and leaves the position where it was. */
  lemma DiskBytesIsBody(file: Cursor)
    ensures DiskBytes(file, |file.content|) == (file, Data(file.content))
  {
    assert file.content[0..|file.content|] == file.content;
  }

  /** A file that was cut short is read to its end and reported. */
  lemma ShortFile(d: Disk)
    requires !d.closed && |d.file.content| < d.size
    ensures DiskDo(d, Bytes) == (d.(file := d.file.(pos := |d.file.content|)), ErrShort)
  {
  }

  /** The storages stay alike, and answer alike except for an empty read at the end of an open body. */
  lemma StepAlike(m: Memory, d: Disk, op: Op)
    requires Alike(m, d)
    ensures Alike(MemoryDo(m, op).0, DiskDo(d, op).0)
    ensures MemoryDo(m, op).1 == DiskDo(d, op).1 <==> !EmptyReadAtEnd(m, op)
    ensures op.Bytes? && !m.closed ==> DiskDo(d, op) == (d, Data(m.data))
  {
    DiskBytesIsBody(d.file);
  }

  /** All replies of a run. */
  function MemoryRun(m: Memory, ops: seq<Op>): seq<Reply>
    decreases |ops|
  {
    if ops == [] then [] else [MemoryDo(m, ops[0]).1] + MemoryRun(MemoryDo(m, ops[0]).0, ops[1..])
  }

  function DiskRun(d: Disk, ops: seq<Op>): seq<Reply>
    decreases |ops|
  {
    if ops == [] then [] else [DiskDo(d, ops[0]).1] + DiskRun(DiskDo(d, ops[0]).0, ops[1..])
  }

  /** A read into an empty buffer at the end of an open body, which only the memory storage reports as the end. */
  predicate EmptyReadAtEnd(m: Memory, op: Op) {
    op == Read(0) && !m.closed && m.reader.pos >= |m.data|
  }

  predicate NoEmptyReadAtEnd(m: Memory, ops: seq<Op>)
    decreases |ops|
  {
    ops == [] || (!EmptyReadAtEnd(m, ops[0]) && NoEmptyReadAtEnd(MemoryDo(m, ops[0]).0, ops[1..]))
  }

  /** A caller can tell the storages apart exactly by such a read. */
  lemma {:induction false} RunsAlikeIff(m: Memory, d: Disk, ops: seq<Op>)
    requires Alike(m, d)
    ensures MemoryRun(m, ops) == DiskRun(d, ops) <==> NoEmptyReadAtEnd(m, ops)
    decreases |ops|
  {
    if ops != [] {
      StepAlike(m, d, ops[0]);
      var m', d', rest := MemoryDo(m, ops[0]).0, DiskDo(d, ops[0]).0, ops[1..];
      RunsAlikeIff(m', d', rest);
      assert MemoryRun(m, ops)[0] == MemoryDo(m, ops[0]).1 && MemoryRun(m, ops)[1..] == MemoryRun(m', rest);
      assert DiskRun(d, ops)[0] == DiskDo(d, ops[0]).1 && DiskRun(d, ops)[1..] == DiskRun(d', rest);
    }
  }

  /** So never with reads into non-empty buffers, seeks, `Bytes` and closing. */
  lemma {:induction false} RunsAlike(m: Memory, d: Disk, ops: seq<Op>)
    requires Alike(m, d) && Read(0) !in ops
    ensures MemoryRun(m, ops) == DiskRun(d, ops)
  {
    RunsAlikeIff(m, d, ops);
    NonEmptyReads(m, ops);
  }

  lemma {:induction false} NonEmptyReads(m: Memory, ops: seq<Op>)
    requires Read(0) !in ops
    ensures NoEmptyReadAtEnd(m, ops)
    decreases |ops|
  {
    if ops != [] {
      NonEmptyReads(MemoryDo(m, ops[0]).0, ops[1..]);
    }
  }

  /** The condition is needed: one read of nothing from an empty body tells them apart. */
  lemma EmptyReadTellsApart()
    ensures MemoryRun(NewMemory([]), [Read(0)]) != DiskRun(NewDisk([]), [Read(0)])
  {
    assert MemoryRun(NewMemory([]), [Read(0)])[0] == Eof;
    assert DiskRun(NewDisk([]), [Read(0)])[0] == Data([]);
  }

  // ----- what a caller reads -----

  /** Reads into buffers of these sizes. */
  function Reads(sizes: seq<nat>): seq<Op> {
    seq(|sizes|, i requires 0 <= i < |sizes| => Read(sizes[i]))
  }

  function SumOfSizes(sizes: seq<nat>): nat {
    if sizes == [] then 0 else sizes[0] + SumOfSizes(sizes[1..])
  }

  /** The bytes that replies deliver, one after the other. */
  function Delivered(replies: seq<Reply>): seq<Byte> {
    if replies == [] then []
    else (if replies[0].Data? then replies[0].bytes else []) + Delivered(replies[1..])
  }

  /** The storage after a run. */
  function MemoryAfter(m: Memory, ops: seq<Op>): Memory
    decreases |ops|
  {
    if ops == [] then m else MemoryAfter(MemoryDo(m, ops[0]).0, ops[1..])
  }

  function DiskAfter(d: Disk, ops: seq<Op>): Disk
    decreases |ops|
  {
    if ops == [] then d else DiskAfter(DiskDo(d, ops[0]).0, ops[1..])
  }

  /** An open buffer whose reader has the whole body. */
  predicate Intact(m: Memory) {
    !m.closed && m.reader.content == m.data
  }

  function Rest(m: Memory): seq<Byte> {
    if m.reader.pos >= |m.data| then [] else m.data[m.reader.pos..]
  }

  /** One read into a non-empty buffer delivers as much of the rest as fits and goes on behind it; only at the end it
      delivers nothing and says so. */
  lemma ReadDelivers(m: Memory, n: nat)
    requires Intact(m) && n > 0
    ensures var (m', r) := MemoryDo(m, Read(n));
      && Intact(m') && m'.data == m.data
      && (Rest(m) == [] ==> m' == m && r == Eof)
      && (Rest(m) != [] ==>
            && r.Data? && 0 < |r.bytes| <= n && Rest(m) == r.bytes + Rest(m')
            && (|r.bytes| == n || Rest(m') == []) && m'.reader.pos == m.reader.pos + |r.bytes|)
  {
  }

  lemma {:induction false} ReadsDeliver(m: Memory, sizes: seq<nat>)
    requires Intact(m) && forall i | 0 <= i < |sizes| :: sizes[i] > 0
    ensures var replies, m' := MemoryRun(m, Reads(sizes)), MemoryAfter(m, Reads(sizes));
      && |replies| == |sizes| && (forall r | r in replies :: r.Data? || r.Eof?)
      && Intact(m') && m'.data == m.data && Rest(m) == Delivered(replies) + Rest(m')
      && (Eof in replies || SumOfSizes(sizes) >= |Rest(m)| ==> Delivered(replies) == Rest(m))
      && m'.reader.pos == m.reader.pos + |Delivered(replies)|
    decreases |sizes|
  {
    if sizes != [] {
      var ops, rest := Reads(sizes), sizes[1..];
      var (m1, r) := MemoryDo(m, Read(sizes[0]));
      ReadDelivers(m, sizes[0]);
      ReadsDeliver(m1, rest);
      assert ops[0] == Read(sizes[0]) && ops[1..] == Reads(rest);
      var replies := MemoryRun(m1, Reads(rest));
      assert MemoryRun(m, ops) == [r] + replies && ([r] + replies)[1..] == replies;
    }
  }

  lemma {:induction false} AfterAlike(m: Memory, d: Disk, ops: seq<Op>)
    requires Alike(m, d)
    ensures Alike(MemoryAfter(m, ops), DiskAfter(d, ops))
    decreases |ops|
  {
    if ops != [] {
      StepAlike(m, d, ops[0]);
      AfterAlike(MemoryDo(m, ops[0]).0, DiskDo(d, ops[0]).0, ops[1..]);
    }
  }

  /** Whatever the sizes of the buffers, reading on delivers the rest of the body in order, from either storage: all of
      it once the end is reported or the buffers together are large enough. The position then is that much further,
      which is what seeking by nothing reports. */
  lemma ReadingOn(m: Memory, d: Disk, sizes: seq<nat>)
    requires Alike(m, d) && Intact(m) && forall i | 0 <= i < |sizes| :: sizes[i] > 0
    ensures var replies := MemoryRun(m, Reads(sizes)); var bytes := Delivered(replies);
      && DiskRun(d, Reads(sizes)) == replies && bytes <= Rest(m)
      && (Eof in replies || SumOfSizes(sizes) >= |Rest(m)| ==> bytes == Rest(m))
      && MemoryDo(MemoryAfter(m, Reads(sizes)), Seek(0, 1)).1 == Position(m.reader.pos + |bytes|)
      && DiskDo(DiskAfter(d, Reads(sizes)), Seek(0, 1)).1 == Position(m.reader.pos + |bytes|)
  {
    var ops := Reads(sizes);
    assert Read(0) !in ops;
    ReadsDeliver(m, sizes);
    RunsAlike(m, d, ops);
    AfterAlike(m, d, ops);
  }

  /** Where seeking goes: from the start, from the position or from the end, unless that is before the start. From
      anywhere else it goes nowhere. */
  lemma SeekGoes(m: Memory, offset: int, whence: int)
    requires Intact(m)
    ensures var (m', r) := MemoryDo(m, Seek(offset, whence));
      var target := if 0 <= whence <= 2 then [offset, m.reader.pos + offset, |m.data| + offset][whence] else -1;
      && Intact(m') && m'.data == m.data
      && (if target < 0 then r == ErrSeek && m' == m else r == Position(target) && m'.reader.pos == target)
      && (whence == 0 && 0 <= offset <= |m.data| ==> Rest(m') == m.data[offset..])
      && (whence == 2 && 0 <= -offset <= |m.data| ==> Rest(m') == m.data[|m.data| + offset..])
  {
  }

  /** A closed storage answers nothing but a further close. */
  lemma ClosedAnswersNothing(m: Memory, d: Disk, op: Op)
    ensures var (m', d') := (MemoryDo(m, Op.Close).0, DiskDo(d, Op.Close).0);
      && MemoryDo(m', op) == (m', if op.Close? then Done else ErrClosed)
      && DiskDo(d', op) == (d', if op.Close? then Done else ErrClosed)
  {
  }

  // ----- the objects -----

  class MemoryStorage {
    const data: seq<Byte>
    var reader: Cursor
    var closed: bool
    const counters: Counters

    ghost function Value(): Memory
      reads this
    {
      Memory(data, reader, closed)
    }

    constructor (data: seq<Byte>, counters: Counters)
      modifies counters
      ensures Value() == NewMemory(data) && this.counters == counters
      ensures counters.Value() == AddMemory(old(counters.Value()), |data|)
    {
      this.data, this.reader, this.closed, this.counters := data, Cursor(data, 0), false, counters;
      new;
      counters.IncrementMemoryBuffers(|data|);
    }

    method Read(n: nat) returns (reply: Reply)
      modifies this
      ensures (Value(), reply) == MemoryDo(old(Value()), Op.Read(n))
    {
      if closed {
        return ErrClosed;
      }
      var (c, r) := ReaderRead(reader, n);
      reader, reply := c, r;
    }

    method Seek(offset: int, whence: int) returns (reply: Reply)
      modifies this
      ensures (Value(), reply) == MemoryDo(old(Value()), Op.Seek(offset, whence))
    {
      if closed {
        return ErrClosed;
      }
      var (c, r) := SeekCursor(reader, offset, whence);
      reader, reply := c, r;
    }

    method Bytes() returns (reply: Reply)
      ensures (Value(), reply) == MemoryDo(Value(), Op.Bytes)
    {
      reply := if closed then ErrClosed else Data(data);
    }

    /** The counters drop once, however often it is called. */
    method Close() returns (reply: Reply)
      modifies this, counters
      ensures (Value(), reply) == MemoryDo(old(Value()), Op.Close)
      ensures counters.Value() == if old(closed) then old(counters.Value())
        else DropMemory(old(counters.Value()), |data|)
    {
      if !closed {
        closed := true;
        counters.DecrementMemoryBuffers(|data|);
      }
      reply := Done;
    }
  }

  class DiskStorage {
    var file: Cursor
    const size: nat
    var closed: bool
    const counters: Counters

    ghost function Value(): Disk
      reads this
    {
      Disk(file, size, closed)
    }

    constructor (data: seq<Byte>, counters: Counters)
      modifies counters
      ensures Value() == NewDisk(data) && this.counters == counters
      ensures counters.Value() == AddDisk(old(counters.Value()), |data|)
    {
      this.file, this.size, this.closed, this.counters := Cursor(data, 0), |data|, false, counters;
      new;
      counters.IncrementDiskFiles(|data|);
    }

    method Read(n: nat) returns (reply: Reply)
      modifies this
      ensures (Value(), reply) == DiskDo(old(Value()), Op.Read(n))
    {
      if closed {
        return ErrClosed;
      }
      var (c, r) := FileRead(file, n);
      file, reply := c, r;
    }

    method Seek(offset: int, whence: int) returns (reply: Reply)
      modifies this
      ensures (Value(), reply) == DiskDo(old(Value()), Op.Seek(offset, whence))
    {
      if closed {
        return ErrClosed;
      }
      var (c, r) := SeekCursor(file, offset, whence);
      file, reply := c, r;
    }

    /** Moves the file position three times; an intact file makes that invisible. */
    method Bytes() returns (reply: Reply)
      modifies this
      ensures (Value(), reply) == DiskDo(old(Value()), Op.Bytes)
      ensures size == |old(file).content| && !closed ==> reply == Data(file.content) && file == old(file)
    {
      if closed {
        return ErrClosed;
      }
      DiskBytesIsBody(file);
      var (here, current) := SeekCursor(file, 0, 1);
      file := here;
      if current.ErrSeek? {
        return current;
      }
      var (start, r0) := SeekCursor(file, 0, 0);
      file := start;
      if r0.ErrSeek? {
        return r0;
      }
      var (end, r1) := ReadFull(file, size);
      file := end;
      if !r1.Data? {
        return r1;
      }
      var (back, r2) := SeekCursor(file, current.n, 0);
      file := back;
      reply := if r2.ErrSeek? then r2 else r1;
    }

    method Close() returns (reply: Reply)
      modifies this, counters
      ensures (Value(), reply) == DiskDo(old(Value()), Op.Close)
      ensures counters.Value() == if old(closed) then old(counters.Value()) else DropDisk(old(counters.Value()), size)
    {
      if !closed {
        closed := true;
        counters.DecrementDiskFiles(size);
      }
      reply := Done;
    }
  }
}

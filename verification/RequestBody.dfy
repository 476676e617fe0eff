/**
  Reuse of the request body (common/gin.go): the first use stores the body, every further use rewinds the
  stored one, so that each relay attempt (controller/relay.go) can read it again.
*/
module RequestBody {
  import opened BodyStorage
  import opened Common
  import opened DiskUsage

  datatype Storage = InMemory(m: Memory) | OnDisk(d: Disk)

  function StorageDo(s: Storage, op: Op): (Storage, Reply) {
    match s
    case InMemory(m) => var (m', r) := MemoryDo(m, op); (InMemory(m'), r)
    case OnDisk(d) => var (d', r) := DiskDo(d, op); (OnDisk(d'), r)
  }

  function NewStorage(disk: bool, body: seq<Byte>): Storage {
    if disk then OnDisk(NewDisk(body)) else InMemory(NewMemory(body))
  }

  /** The parts of the request context: the network body until it is read, how its reader behaves and the limit a
      middleware gave it, the stored body, and the bytes an adapter may have cached. */
  datatype Context = Context(
    unread: seq<Byte>,
    reader: Reading,
    limit: nat,
    contentLength: int,
    stored: Option<Storage>,
    legacy: Option<seq<Byte>>)

  datatype Result = Ok(storage: Storage) | ErrTooLarge | ErrRead | ErrRewind

  /** `maxMB` of zero or less means 128. */
  function MaxBytes(maxMB: int): nat {
    (if maxMB <= 0 then 128 else maxMB) * MIB
  }

  /** The limit of `DecompressRequestMiddleware`, which takes 32 where `MaxBytes` takes 128. */
  function MiddlewareLimit(maxMB: int): nat {
    (if maxMB <= 0 then 32 else maxMB) * MIB
  }

  function ReadingOf(c: Context): Reading {
    if c.reader.Delivers? && |c.unread| > c.limit then Overruns else c.reader
  }

  /** `GetRequestBody`, and the usage counters after it. Once read, the network body is closed; a reader that has
      overrun its limit reports it again. */
  function Acquire(c: Context, u: Usage, config: Config, maxMB: int, fault: Fault): (Context, Usage, Result) {
    if c.stored.Some? then
      var (s, r) := StorageDo(c.stored.value, Seek(0, 0));
      if r.Position? then (c.(stored := Some(s)), u, Ok(s)) else (c.(stored := Some(s)), u, ErrRewind)
    else if c.legacy.Some? then
      var body := c.legacy.value;
      var o := Place(config, u, |body|, fault);
      var s := NewStorage(o.disk, body);
      (c.(stored := Some(s)), UsageWith(u, o, |body|), Ok(s))
    else
      var o := PlaceStream(config, u, |c.unread|, c.contentLength, MaxBytes(maxMB), fault, ReadingOf(c));
      var read := c.(unread := [], reader := if ReadingOf(c).Overruns? then Overruns else Breaks);
      if o.Storage? then
        var s := NewStorage(o.disk, c.unread);
        (read.(stored := Some(s)), UsageWith(u, o, |c.unread|), Ok(s))
      else (read, u, if o.TooLarge? then ErrTooLarge else ErrRead)
  }

  /** An open storage of `body`, whatever its position. */
  predicate Holds(s: Storage, body: seq<Byte>) {
    match s
    case InMemory(m) => !m.closed && m.data == m.reader.content == body
    case OnDisk(d) => !d.closed && d.file.content == body && d.size == |body|
  }

  predicate AtStart(s: Storage) {
    match s case InMemory(m) => m.reader.pos == 0 case OnDisk(d) => d.file.pos == 0
  }

  /** Nothing but closing takes the body away. */
  lemma OpKeepsBody(s: Storage, op: Op, body: seq<Byte>)
    requires Holds(s, body) && !op.Close?
    ensures Holds(StorageDo(s, op).0, body)
  {
    if s.OnDisk? {
      DiskBytesIsBody(s.d.file);
    }
  }

  /** From the start, a read into a large enough buffer and `Bytes` both give the whole body. */
  lemma WholeBody(s: Storage, body: seq<Byte>, n: nat)
    requires Holds(s, body) && AtStart(s) && n >= |body| > 0
    ensures StorageDo(s, Read(n)).1 == Data(body) && StorageDo(s, Bytes).1 == Data(body)
  {
    if s.OnDisk? {
      DiskBytesIsBody(s.d.file);
    }
    assert body[0..|body|] == body[0..] == body;
  }

  function UseAll(s: Storage, ops: seq<Op>): Storage
    decreases |ops|
  {
    if ops == [] then s else UseAll(StorageDo(s, ops[0]).0, ops[1..])
  }

  lemma {:induction false} UseKeepsBody(s: Storage, ops: seq<Op>, body: seq<Byte>)
    requires Holds(s, body) && Op.Close !in ops
    ensures Holds(UseAll(s, ops), body)
    decreases |ops|
  {
    if ops != [] {
      OpKeepsBody(s, ops[0], body);
      UseKeepsBody(StorageDo(s, ops[0]).0, ops[1..], body);
    }
  }

  predicate IsClosed(s: Storage) {
    match s case InMemory(m) => m.closed case OnDisk(d) => d.closed
  }

  /** The counters without an open storage. */
  function Dropped(u: Usage, s: Storage): Usage {
    match s case InMemory(m) => DropMemory(u, |m.data|) case OnDisk(d) => DropDisk(u, d.size)
  }

  /** One attempt: the file failure that would meet it, and what it does with the body. */
  datatype Try = Try(fault: Fault, ops: seq<Op>)

  /** The context after one attempt, which takes the body and then uses it. A storage that gets closed is no longer
      counted. */
  function Attempt(c: Context, u: Usage, config: Config, maxMB: int, a: Try): (Context, Usage) {
    var (c', u', r) := Acquire(c, u, config, maxMB, a.fault);
    if r.Ok? then
      var s := UseAll(r.storage, a.ops);
      (c'.(stored := Some(s)), if IsClosed(s) && !IsClosed(r.storage) then Dropped(u', s) else u')
    else (c', u')
  }

  function Attempts(c: Context, u: Usage, config: Config, maxMB: int, tries: seq<Try>): (Context, Usage) {
    if tries == [] then (c, u)
    else
      var (c', u') := Attempts(c, u, config, maxMB, tries[..|tries| - 1]);
      Attempt(c', u', config, maxMB, tries[|tries| - 1])
  }

  /** The failure that meets the first use of the body, `tries` being followed by one that meets `fault`. */
  function FirstFault(tries: seq<Try>, fault: Fault): Fault {
    if tries == [] then fault else tries[0].fault
  }

  /** Whether a network body is stored: it can be read, is within both limits, and no file failure meets a body that is
      streamed to disk. */
  predicate Storable(c: Context, u: Usage, config: Config, maxMB: int, fault: Fault) {
    c.reader.Delivers? && |c.unread| <= c.limit && |c.unread| <= MaxBytes(maxMB) &&
      !(Streams(config, u, c.contentLength) && !fault.NoFault?)
  }

  /** Which body the context offers: that of an open storage, else the cached bytes, else the network body. */
  predicate Offers(c: Context, u: Usage, config: Config, maxMB: int, fault: Fault, body: seq<Byte>) {
    if c.stored.Some? then Holds(c.stored.value, body)
    else if c.legacy.Some? then c.legacy.value == body
    else Storable(c, u, config, maxMB, fault) && c.unread == body
  }

  /** `GetRequestBody` gives a body, whole and from its start, exactly when the context offers it. */
  lemma AcquireIff(c: Context, u: Usage, config: Config, maxMB: int, fault: Fault, body: seq<Byte>)
    ensures var r := Acquire(c, u, config, maxMB, fault).2;
      r.Ok? && Holds(r.storage, body) && AtStart(r.storage) <==> Offers(c, u, config, maxMB, fault, body)
  {
  }

  /** Without a storage: cached bytes are taken whatever their size, and a readable network body without file failures
      is taken or refused as too large, by the smaller of the two limits. */
  lemma FirstAcquire(c: Context, u: Usage, config: Config, maxMB: int, fault: Fault)
    requires c.stored.None?
    ensures var r := Acquire(c, u, config, maxMB, fault).2;
      && (r.Ok? <==> c.legacy.Some? || Storable(c, u, config, maxMB, fault))
      && (r.ErrTooLarge? ==>
        c.legacy.None? && (c.reader.Overruns? || |c.unread| > c.limit || |c.unread| > MaxBytes(maxMB)))
      && (c.legacy.None? && c.reader.Delivers? && fault.NoFault? ==>
            (r.ErrTooLarge? <==> |c.unread| > c.limit || |c.unread| > MaxBytes(maxMB)))
  {
  }

  /** The limits in bytes. */
  lemma LimitsInBytes(maxMB: int)
    ensures maxMB > 0 ==> MaxBytes(maxMB) == MiddlewareLimit(maxMB) == maxMB * 1048576
    ensures maxMB <= 0 ==> MaxBytes(maxMB) == 134217728 && MiddlewareLimit(maxMB) == 33554432
  {
  }

  /** A network body that was refused is refused again, as too large exactly if its reader overran its limit. */
  lemma RefusedAgain(c: Context, u: Usage, config: Config, maxMB: int, fault: Fault, later: Fault)
    requires c.stored.None? && c.legacy.None? && !Acquire(c, u, config, maxMB, fault).2.Ok? && !later.CreateFails? &&
      !later.WriteFails?
    ensures var (c', u', _) := Acquire(c, u, config, maxMB, fault); var r := Acquire(c', u', config, maxMB, later).2;
      !r.Ok? && (r.ErrTooLarge? <==> c.reader.Overruns? || (c.reader.Delivers? && |c.unread| > c.limit))
  {
  }

  /** With the middleware in front its limit is the one that counts. */
  lemma MiddlewareDecides(c: Context, u: Usage, config: Config, maxMB: int)
    requires c.stored.None? && c.legacy.None? && c.reader.Delivers? && c.limit == MiddlewareLimit(maxMB)
    ensures var r := Acquire(c, u, config, maxMB, NoFault).2;
      (r.Ok? <==> |c.unread| <= MiddlewareLimit(maxMB)) && (r.ErrTooLarge? <==> |c.unread| > MiddlewareLimit(maxMB))
  {
    FirstAcquire(c, u, config, maxMB, NoFault);
    assert MiddlewareLimit(maxMB) <= MaxBytes(maxMB);
  }

  /** However many attempts came before, whatever they did with the body short of closing it, and whatever failures
      would have met those that found it stored, the next attempt gets the complete body the context offered, from its
      start. */
  lemma {:induction false} EveryAttemptGetsWholeBody(c: Context, u: Usage, config: Config, maxMB: int, tries: seq<Try>,
      fault: Fault, body: seq<Byte>)
    requires Offers(c, u, config, maxMB, FirstFault(tries, fault), body)
    requires forall i | 0 <= i < |tries| :: Op.Close !in tries[i].ops
    ensures var (c', u') := Attempts(c, u, config, maxMB, tries); var r := Acquire(c', u', config, maxMB, fault).2;
      r.Ok? && Holds(r.storage, body) && AtStart(r.storage)
  {
    if tries == [] {
      AcquireIff(c, u, config, maxMB, fault, body);
    } else {
      var n := |tries| - 1;
      var (c1, u1) := Attempts(c, u, config, maxMB, tries[..n]);
      EveryAttemptGetsWholeBody(c, u, config, maxMB, tries[..n], tries[n].fault, body);
      UseKeepsBody(Acquire(c1, u1, config, maxMB, tries[n].fault).2.storage, tries[n].ops, body);
    }
  }

  /** The replies of a storage. */
  function StorageRun(s: Storage, ops: seq<Op>): seq<Reply> {
    match s case InMemory(m) => MemoryRun(m, ops) case OnDisk(d) => DiskRun(d, ops)
  }

  /** From the start, reads into any buffers that are together large enough, or go on until the end is reported, give
      the whole body piece by piece. */
  lemma BodyInPieces(s: Storage, body: seq<Byte>, sizes: seq<nat>)
    requires Holds(s, body) && AtStart(s) && forall i | 0 <= i < |sizes| :: sizes[i] > 0
    requires SumOfSizes(sizes) >= |body| || Eof in StorageRun(s, Reads(sizes))
    ensures Delivered(StorageRun(s, Reads(sizes))) == body
  {
    var m, d := Memory(body, Cursor(body, 0), false), Disk(Cursor(body, 0), |body|, false);
    ReadingOn(m, d, sizes);
    assert body[0..] == body;
  }

  /** So does every attempt that reads the body in pieces, whatever the attempts before it did short of closing it. */
  lemma EveryAttemptReadsWholeBody(c: Context, u: Usage, config: Config, maxMB: int, tries: seq<Try>, fault: Fault,
      body: seq<Byte>, sizes: seq<nat>)
    requires Offers(c, u, config, maxMB, FirstFault(tries, fault), body)
    requires forall i | 0 <= i < |tries| :: Op.Close !in tries[i].ops
    requires SumOfSizes(sizes) >= |body| && forall i | 0 <= i < |sizes| :: sizes[i] > 0
    ensures var (c', u') := Attempts(c, u, config, maxMB, tries); var r := Acquire(c', u', config, maxMB, fault).2;
      r.Ok? && Delivered(StorageRun(r.storage, Reads(sizes))) == body
  {
    var (c', u') := Attempts(c, u, config, maxMB, tries);
    EveryAttemptGetsWholeBody(c, u, config, maxMB, tries, fault, body);
    BodyInPieces(Acquire(c', u', config, maxMB, fault).2.storage, body, sizes);
  }

  /** An adapter that rewrites a request caches the new bytes, and may forget the storage of the old ones. */
  function Rewritten(c: Context, bytes: seq<Byte>, forget: bool): Context {
    c.(legacy := Some(bytes), stored := if forget then None else c.stored)
  }

  /** The new bytes are what attempts read if and only if the storage is forgotten, or there was none, or it holds them
      already. */
  lemma RewrittenIff(c: Context, bytes: seq<Byte>, forget: bool, u: Usage, config: Config, maxMB: int, fault: Fault)
    ensures Offers(Rewritten(c, bytes, forget), u, config, maxMB, fault, bytes) <==>
      forget || c.stored.None? || Holds(c.stored.value, bytes)
  {
  }

  /** So an adapter that reads the body first and does not forget the storage is ignored: every attempt still reads the
      old body. */
  lemma {:induction false} RewriteIsIgnored(c: Context, bytes: seq<Byte>, u: Usage, config: Config, maxMB: int,
      first: Fault, tries: seq<Try>, fault: Fault, body: seq<Byte>)
    requires c.stored.None? && Offers(c, u, config, maxMB, first, body) && body != bytes
    requires forall i | 0 <= i < |tries| :: Op.Close !in tries[i].ops
    ensures var (c1, u1) := Attempt(c, u, config, maxMB, Try(first, [Bytes, Seek(0, 0)]));
      var (c2, u2) := Attempts(Rewritten(c1, bytes, false), u1, config, maxMB, tries);
      var r := Acquire(c2, u2, config, maxMB, fault).2;
      r.Ok? && Holds(r.storage, body) && !Holds(r.storage, bytes)
  {
    AcquireIff(c, u, config, maxMB, first, body);
    var (c1, u1) := Attempt(c, u, config, maxMB, Try(first, [Bytes, Seek(0, 0)]));
    UseKeepsBody(Acquire(c, u, config, maxMB, first).2.storage, [Bytes, Seek(0, 0)], body);
    EveryAttemptGetsWholeBody(Rewritten(c1, bytes, false), u1, config, maxMB, tries, fault, body);
  }

  // ----- giving the counters back -----

  /** The counters once the request is cleaned up: an open storage is closed. */
  function Released(c: Context, u: Usage): Usage {
    if c.stored.Some? && !IsClosed(c.stored.value) then Dropped(u, c.stored.value) else u
  }

  /** The disk counters are not negative even without an open storage of the request. */
  ghost predicate Counted(c: Context, u: Usage) {
    if c.stored.Some? && c.stored.value.OnDisk? && !c.stored.value.d.closed
    then u.diskFiles >= 1 && u.diskBytes >= c.stored.value.d.size
    else u.diskFiles >= 0 && u.diskBytes >= 0
  }

  /** What a use may change of a storage: its position, and whether it is open. */
  ghost predicate SameStore(s: Storage, t: Storage) {
    && (s.InMemory? <==> t.InMemory?)
    && (s.InMemory? ==> s.m.data == t.m.data && (s.m.closed ==> t.m.closed))
    && (s.OnDisk? ==> s.d.size == t.d.size && (s.d.closed ==> t.d.closed))
  }

  lemma {:induction false} UseKeepsStore(s: Storage, ops: seq<Op>)
    ensures SameStore(s, UseAll(s, ops))
    decreases |ops|
  {
    if ops != [] {
      UseKeepsStore(StorageDo(s, ops[0]).0, ops[1..]);
    }
  }

  lemma AcquireReleases(c: Context, u: Usage, config: Config, maxMB: int, fault: Fault)
    requires Counted(c, u)
    ensures var (c', u', r) := Acquire(c, u, config, maxMB, fault);
      Counted(c', u') && Released(c', u') == Released(c, u)
  {
  }

  /** Whatever an attempt does, cleaning up afterwards gives back what cleaning up before would have. */
  lemma AttemptReleases(c: Context, u: Usage, config: Config, maxMB: int, a: Try)
    requires Counted(c, u)
    ensures var (c', u') := Attempt(c, u, config, maxMB, a); Counted(c', u') && Released(c', u') == Released(c, u)
  {
    AcquireReleases(c, u, config, maxMB, a.fault);
    var r := Acquire(c, u, config, maxMB, a.fault).2;
    if r.Ok? {
      UseKeepsStore(r.storage, a.ops);
    }
  }

  lemma {:induction false} AttemptsRelease(c: Context, u: Usage, config: Config, maxMB: int, tries: seq<Try>)
    requires Counted(c, u)
    ensures var (c', u') := Attempts(c, u, config, maxMB, tries); Counted(c', u') && Released(c', u') == Released(c, u)
  {
    if tries != [] {
      var n := |tries| - 1;
      AttemptsRelease(c, u, config, maxMB, tries[..n]);
      var (c1, u1) := Attempts(c, u, config, maxMB, tries[..n]);
      AttemptReleases(c1, u1, config, maxMB, tries[n]);
    }
  }

  /** A request that is tried, rewritten by an adapter and tried again. */
  datatype Course = Course(first: seq<Try>, bytes: seq<Byte>, forget: bool, second: seq<Try>)

  /** The context and the counters after it. */
  function RewrittenRun(c: Context, u: Usage, config: Config, maxMB: int, run: Course): (Context, Usage) {
    var (c1, u1) := Attempts(c, u, config, maxMB, run.first);
    Attempts(Rewritten(c1, run.bytes, run.forget), u1, config, maxMB, run.second)
  }

  /** Cleaning up after a rewrite gives the same as before it, unless an open storage was forgotten. */
  lemma RewriteReleases(c: Context, u: Usage, bytes: seq<Byte>, forget: bool)
    requires Counted(c, u)
    ensures Released(Rewritten(c, bytes, forget), u) == Released(c, u) <==>
      !(forget && c.stored.Some? && !IsClosed(c.stored.value))
  {
  }

  /** A request gives back all it added to the counters if and only if no adapter forgets a storage that is open. */
  lemma GivenBackIff(c: Context, u: Usage, config: Config, maxMB: int, run: Course)
    requires Counted(c, u) && c.stored.None?
    ensures var c1 := Attempts(c, u, config, maxMB, run.first).0;
      var (c2, u2) := RewrittenRun(c, u, config, maxMB, run);
      Released(c2, u2) == u <==> !(run.forget && c1.stored.Some? && !IsClosed(c1.stored.value))
  {
    var p1 := Attempts(c, u, config, maxMB, run.first);
    assert Counted(p1.0, p1.1) && Released(p1.0, p1.1) == u by {
      AttemptsRelease(c, u, config, maxMB, run.first);
    }
    var p2 := Attempts(Rewritten(p1.0, run.bytes, run.forget), p1.1, config, maxMB, run.second);
    assert Released(p2.0, p2.1) == Released(Rewritten(p1.0, run.bytes, run.forget), p1.1) by {
      AttemptsRelease(Rewritten(p1.0, run.bytes, run.forget), p1.1, config, maxMB, run.second);
    }
    RewriteReleases(p1.0, p1.1, run.bytes, run.forget);
  }

  /** A body that fits in memory and has not been used. */
  predicate Small(c: Context) {
    c.stored.None? && c.legacy.None? && c.reader.Delivers? && |c.unread| <= c.limit && |c.unread| <= MIB
  }

  lemma StoredInMemory(c: Context, u: Usage)
    requires Small(c)
    ensures var c1 := Attempt(c, u, Config(false, 0, 0), 1, Try(NoFault, [])).0;
      c1.stored == Some(InMemory(NewMemory(c.unread)))
  {
  }

  /** Any body that is stored in memory, rewritten with the storage forgotten, and cleaned up stays counted. */
  lemma ForgottenStaysCounted(c: Context, u: Usage, bytes: seq<Byte>, second: seq<Try>)
    requires Counted(c, u) && Small(c)
    ensures var (c2, u2) := RewrittenRun(c, u, Config(false, 0, 0), 1, Course([Try(NoFault, [])], bytes, true, second));
      Released(c2, u2) != u
  {
    var config, once := Config(false, 0, 0), Try(NoFault, []);
    StoredInMemory(c, u);
    assert Attempts(c, u, config, 1, [once]) == Attempt(c, u, config, 1, once) by {
      assert [once][..0] == [] && Attempts(c, u, config, 1, []) == (c, u);
    }
    GivenBackIff(c, u, config, 1, Course([once], bytes, true, second));
  }

  /** A closed storage is found again but cannot be rewound. */
  lemma ClosedBodyIsGone(c: Context, u: Usage, config: Config, maxMB: int, fault: Fault, later: Fault, body: seq<Byte>)
    requires Offers(c, u, config, maxMB, fault, body)
    ensures var (c', u') := Attempt(c, u, config, maxMB, Try(fault, [Op.Close]));
      Acquire(c', u', config, maxMB, later).2 == ErrRewind
  {
    AcquireIff(c, u, config, maxMB, fault, body);
    var s := Acquire(c, u, config, maxMB, fault).2.storage;
    assert UseAll(s, [Op.Close]) == StorageDo(s, Op.Close).0 by {
      assert [Op.Close][1..] == [];
      assert UseAll(StorageDo(s, Op.Close).0, []) == StorageDo(s, Op.Close).0;
    }
  }

  /** The request context with the global counters it uses. */
  class RequestContext {
    var unread: seq<Byte>
    var reader: Reading
    const limit: nat
    const contentLength: int
    var stored: Option<Storage>
    var legacy: Option<seq<Byte>>
    const counters: Counters
    const config: Config

    constructor (body: seq<Byte>, limit: nat, contentLength: int, legacy: Option<seq<Byte>>, counters: Counters,
        config: Config)
      ensures Value() == Context(body, Delivers, limit, contentLength, None, legacy) && this.counters == counters &&
        this.config == config
    {
      this.unread, this.reader, this.limit, this.contentLength, this.stored :=
        body, Delivers, limit, contentLength, None;
      this.legacy, this.counters, this.config := legacy, counters, config;
    }

    function Value(): Context
      reads this
    {
      Context(unread, reader, limit, contentLength, stored, legacy)
    }

    /** What the adapters do; a storage that is forgotten is not closed and stays counted. */
    method Rewrite(bytes: seq<Byte>, forget: bool)
      modifies this`legacy, this`stored
      ensures Value() == Rewritten(old(Value()), bytes, forget) && counters.Value() == old(counters.Value())
    {
      legacy := Some(bytes);
      if forget {
        stored := None;
      }
    }

    method Keep(disk: bool, body: seq<Byte>) returns (r: Result)
      modifies this`stored, counters
      ensures stored == Some(NewStorage(disk, body)) && r == Ok(stored.value)
      ensures counters.Value() == if disk then AddDisk(old(counters.Value()), |body|)
        else AddMemory(old(counters.Value()), |body|)
    {
      if disk {
        counters.IncrementDiskFiles(|body|);
      } else {
        counters.IncrementMemoryBuffers(|body|);
      }
      stored := Some(NewStorage(disk, body));
      r := Ok(stored.value);
    }

    method GetRequestBody(maxMB: int, fault: Fault) returns (r: Result)
      modifies this, counters
      ensures (Value(), counters.Value(), r) == Acquire(old(Value()), old(counters.Value()), config, maxMB, fault)
    {
      if stored.Some? {
        var (s, reply) := StorageDo(stored.value, Seek(0, 0));
        stored := Some(s);
        return if reply.Position? then Ok(s) else ErrRewind;
      }
      if legacy.Some? {
        var outcome := Place(config, counters.Value(), |legacy.value|, fault);
        r := Keep(outcome.disk, legacy.value);
        return;
      }
      var body := unread;
      var reading := if reader.Delivers? && |body| > limit then Overruns else reader;
      var outcome := PlaceStream(config, counters.Value(), |body|, contentLength, MaxBytes(maxMB), fault, reading);
      unread, reader := [], if reading.Overruns? then Overruns else Breaks;
      if outcome.Storage? {
        r := Keep(outcome.disk, body);
      } else {
        r := if outcome.TooLarge? then ErrTooLarge else ErrRead;
      }
    }

    /** Closes the stored body, once, and forgets it. */
    method CleanupBodyStorage()
      modifies this, counters
      ensures Value() == old(Value()).(stored := None)
      ensures counters.Value() == Released(old(Value()), old(counters.Value()))
    {
      if stored.Some? {
        match stored.value
        case InMemory(m) => if !m.closed { counters.DecrementMemoryBuffers(|m.data|); }
        case OnDisk(d) => if !d.closed { counters.DecrementDiskFiles(d.size); }
      }
      stored := None;
    }
  }
}

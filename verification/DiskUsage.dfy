/**
  The configuration and the global usage counters of the body cache (common/disk_cache_config.go), and the
  accounting of storages that are created and closed (common/body_storage.go).
*/
module DiskUsage {

  datatype Config = Config(enabled: bool, thresholdMB: int, maxSizeMB: int)

  const MIB := 1048576

  datatype Usage = Usage(diskFiles: int, diskBytes: int, memoryBuffers: int, memoryBytes: int)

  const NO_USAGE := Usage(0, 0, 0, 0)

  function AtLeastZero(x: int): nat {
    if x < 0 then 0 else x
  }

  function AddDisk(u: Usage, size: int): Usage {
    u.(diskFiles := u.diskFiles + 1, diskBytes := u.diskBytes + size)
  }

  /** The disk counters are clamped at zero. */
  function DropDisk(u: Usage, size: int): Usage {
    u.(diskFiles := AtLeastZero(u.diskFiles - 1), diskBytes := AtLeastZero(u.diskBytes - size))
  }

  function AddMemory(u: Usage, size: int): Usage {
    u.(memoryBuffers := u.memoryBuffers + 1, memoryBytes := u.memoryBytes + size)
  }

  function DropMemory(u: Usage, size: int): Usage {
    u.(memoryBuffers := u.memoryBuffers - 1, memoryBytes := u.memoryBytes - size)
  }

  predicate DiskCacheAvailable(config: Config, u: Usage, size: int) {
    config.enabled && u.diskBytes + size <= config.maxSizeMB * MIB
  }

  class Counters {
    var diskFiles: int
    var diskBytes: int
    var memoryBuffers: int
    var memoryBytes: int

    constructor ()
      ensures Value() == NO_USAGE
    {
      diskFiles, diskBytes, memoryBuffers, memoryBytes := 0, 0, 0, 0;
    }

    function Value(): Usage
      reads this
    {
      Usage(diskFiles, diskBytes, memoryBuffers, memoryBytes)
    }

    method IncrementDiskFiles(size: int)
      modifies this
      ensures Value() == AddDisk(old(Value()), size)
    {
      diskFiles := diskFiles + 1;
      diskBytes := diskBytes + size;
    }

    method DecrementDiskFiles(size: int)
      modifies this
      ensures Value() == DropDisk(old(Value()), size)
    {
      diskFiles := diskFiles - 1;
      if diskFiles < 0 {
        diskFiles := 0;
      }
      diskBytes := diskBytes - size;
      if diskBytes < 0 {
        diskBytes := 0;
      }
    }

    method IncrementMemoryBuffers(size: int)
      modifies this
      ensures Value() == AddMemory(old(Value()), size)
    {
      memoryBuffers := memoryBuffers + 1;
      memoryBytes := memoryBytes + size;
    }

    method DecrementMemoryBuffers(size: int)
      modifies this
      ensures Value() == DropMemory(old(Value()), size)
    {
      memoryBuffers := memoryBuffers - 1;
      memoryBytes := memoryBytes - size;
    }
  }

  // ----- creating and closing storages -----

  /** What goes wrong while a file is written. */
  datatype Fault = NoFault | CreateFails | WriteFails | RewindFails

  /** `declared` is the size the availability was tested with. */
  datatype Stored = Stored(disk: bool, size: nat, declared: int, open: bool)

  datatype Outcome = Storage(disk: bool) | TooLarge | DiskFailed | ReadFailed

  /** `CreateBodyStorage` of a body of `size` bytes: when the file fails, memory is used. */
  function Place(config: Config, u: Usage, size: nat, fault: Fault): Outcome {
    Storage(config.enabled && size >= config.thresholdMB * MIB && DiskCacheAvailable(config, u, size) && fault.NoFault?)
  }

  /** Whether `CreateBodyStorageFromReader` streams to a file, judged by the declared length. */
  predicate Streams(config: Config, u: Usage, contentLength: int) {
    config.enabled && contentLength > 0 && contentLength >= config.thresholdMB * MIB &&
      DiskCacheAvailable(config, u, contentLength)
  }

  /** What a reader does: it delivers the body, breaks off, or reports that a limit of its own is overrun. */
  datatype Reading = Delivers | Breaks | Overruns

  /** `CreateBodyStorageFromReader` of a body of `size` bytes; an overrun is recognised as a body that is too large. */
  function PlaceStream(config: Config, u: Usage, size: nat, contentLength: int, maxBytes: nat, fault: Fault,
      reading: Reading): Outcome {
    if Streams(config, u, contentLength) then
      if fault.CreateFails? || fault.WriteFails? || reading.Breaks? then DiskFailed
      else if reading.Overruns? || size > maxBytes then TooLarge
      else if fault.RewindFails? then DiskFailed
      else Storage(true)
    else if reading.Breaks? then ReadFailed
    else if reading.Overruns? || size > maxBytes then TooLarge
    else Place(config, u, size, fault)
  }

  /** Closing more than is counted leaves the disk counters at zero. */
  lemma DropsToZero(u: Usage, size: int)
    ensures var u' := DropDisk(u, size);
      && u'.diskFiles == (if u.diskFiles >= 1 then u.diskFiles - 1 else 0)
      && u'.diskBytes == (if u.diskBytes >= size then u.diskBytes - size else 0)
      && u'.memoryBuffers == u.memoryBuffers && u'.memoryBytes == u.memoryBytes
  {
  }

  /** Room on disk for so many bytes: the cache is on, they reach the threshold and fit, exactly if need be. */
  predicate Room(config: Config, u: Usage, bytes: int) {
    config.enabled && config.thresholdMB * 1048576 <= bytes <= config.maxSizeMB * 1048576 - u.diskBytes
  }

  /** Where a body goes without failures: to disk exactly if there is room for it, or, when it is streamed, for the
      positive length it declares. */
  lemma OnDiskIff(config: Config, u: Usage, size: nat, contentLength: int, maxBytes: nat)
    ensures Place(config, u, size, NoFault) == Storage(Room(config, u, size))
    ensures size <= maxBytes ==>
      PlaceStream(config, u, size, contentLength, maxBytes, NoFault, Delivers).Storage?
    ensures size <= maxBytes && contentLength > 0 && Room(config, u, contentLength) ==>
      PlaceStream(config, u, size, contentLength, maxBytes, NoFault, Delivers).disk
  {
  }

  /** Without failures a body is stored exactly when it has at most `maxBytes` bytes, and refused as too large
      otherwise. */
  lemma StoredIffWithinLimit(config: Config, u: Usage, size: nat, contentLength: int, maxBytes: nat)
    ensures var o := PlaceStream(config, u, size, contentLength, maxBytes, NoFault, Delivers);
      (o.Storage? <==> size <= maxBytes) && (o.TooLarge? <==> size > maxBytes)
  {
  }

  datatype State = State(usage: Usage, stores: seq<Stored>)

  datatype Action =
    | Create(size: nat, fault: Fault)
    | CreateFromReader(size: nat, contentLength: int, maxBytes: nat, fault: Fault, reading: Reading)
    | Close(i: nat)

  /** The counters with one more storage. */
  function UsageWith(u: Usage, outcome: Outcome, size: nat): Usage
    requires outcome.Storage?
  {
    if outcome.disk then AddDisk(u, size) else AddMemory(u, size)
  }

  function Opened(s: State, outcome: Outcome, size: nat, declared: int): State {
    if !outcome.Storage? then s
    else State(UsageWith(s.usage, outcome, size), s.stores + [Stored(outcome.disk, size, declared, true)])
  }

  function Do(s: State, a: Action, config: Config): State {
    match a
    case Create(size, fault) => Opened(s, Place(config, s.usage, size, fault), size, size)
    case CreateFromReader(size, contentLength, maxBytes, fault, reading) =>
      Opened(s, PlaceStream(config, s.usage, size, contentLength, maxBytes, fault, reading), size,
             if Streams(config, s.usage, contentLength) then contentLength else size)
    case Close(i) =>
      if i < |s.stores| && s.stores[i].open then
        var st := s.stores[i];
        State(if st.disk then DropDisk(s.usage, st.size) else DropMemory(s.usage, st.size),
              s.stores[i := st.(open := false)])
      else s
  }

  /** A body that is created without a failure is one more open storage, on disk exactly if there is room. */
  lemma CreateOpens(s: State, size: nat, config: Config)
    ensures Do(s, Create(size, NoFault), config).stores ==
      s.stores + [Stored(Room(config, s.usage, size), size, size, true)]
  {
    OnDiskIff(config, s.usage, size, 0, size);
  }

  /** So is a streamed one that is not too large. */
  lemma StreamOpens(s: State, size: nat, contentLength: int, maxBytes: nat, config: Config)
    requires size <= maxBytes
    ensures var s' := Do(s, CreateFromReader(size, contentLength, maxBytes, NoFault, Delivers), config);
      |s'.stores| == |s.stores| + 1 && s'.stores[..|s.stores|] == s.stores &&
      s'.stores[|s.stores|].open && s'.stores[|s.stores|].size == size
  {
  }

  /** Closing closes that storage and no other. */
  lemma CloseCloses(s: State, i: nat, config: Config)
    requires i < |s.stores|
    ensures Do(s, Close(i), config).stores == s.stores[i := s.stores[i].(open := false)]
  {
  }

  function Run(actions: seq<Action>, config: Config): State {
    if actions == [] then State(NO_USAGE, [])
    else Do(Run(actions[..|actions| - 1], config), actions[|actions| - 1], config)
  }

  predicate Live(st: Stored, disk: bool) {
    st.open && st.disk == disk
  }

  /** A sum over the storages. */
  function SumOf(stores: seq<Stored>, f: Stored -> int): int {
    if stores == [] then 0 else f(stores[0]) + SumOf(stores[1..], f)
  }

  function One(disk: bool): Stored -> int {
    (st: Stored) => if Live(st, disk) then 1 else 0
  }

  function Size(disk: bool): Stored -> int {
    (st: Stored) => if Live(st, disk) then st.size else 0
  }

  /** How much longer an open file is than its declared length. */
  function Excess(): Stored -> int {
    (st: Stored) => if Live(st, true) then AtLeastZero(st.size - st.declared) else 0
  }

  lemma {:induction false} SumAppend(stores: seq<Stored>, st: Stored, f: Stored -> int)
    ensures SumOf(stores + [st], f) == SumOf(stores, f) + f(st)
  {
    if stores == [] {
      assert [st][1..] == [];
    } else {
      SumAppend(stores[1..], st, f);
      assert (stores + [st])[1..] == stores[1..] + [st];
    }
  }

  lemma {:induction false} SumReplace(stores: seq<Stored>, i: nat, st: Stored, f: Stored -> int)
    requires i < |stores|
    ensures SumOf(stores[i := st], f) == SumOf(stores, f) - f(stores[i]) + f(st)
  {
    if i == 0 {
      assert stores[i := st][1..] == stores[1..];
    } else {
      SumReplace(stores[1..], i - 1, st, f);
      assert stores[i := st][1..] == stores[1..][i - 1 := st];
    }
  }

  /** Every part of a sum of non-negative numbers is at most the sum. */
  lemma {:induction false} PartOfSum(stores: seq<Stored>, i: nat, f: Stored -> int)
    requires i < |stores| && forall st :: f(st) >= 0
    ensures f(stores[i]) <= SumOf(stores, f)
  {
    if i == 0 {
      SumNotNegative(stores[1..], f);
    } else {
      PartOfSum(stores[1..], i - 1, f);
    }
  }

  lemma {:induction false} SumNotNegative(stores: seq<Stored>, f: Stored -> int)
    requires forall st :: f(st) >= 0
    ensures SumOf(stores, f) >= 0
  {
    if stores != [] {
      SumNotNegative(stores[1..], f);
    }
  }

  /** The counters are the number and the total size of the open storages of each kind. */
  ghost predicate Exact(s: State) {
    s.usage == Usage(SumOf(s.stores, One(true)), SumOf(s.stores, Size(true)),
                     SumOf(s.stores, One(false)), SumOf(s.stores, Size(false)))
  }

  ghost predicate WithinLimit(s: State, config: Config) {
    s.usage.diskBytes <= AtLeastZero(config.maxSizeMB * MIB) + SumOf(s.stores, Excess())
  }

  ghost predicate Declared(s: State) {
    forall i | 0 <= i < |s.stores| :: s.stores[i].declared >= 0
  }

  ghost predicate Inv(s: State, config: Config) {
    Exact(s) && WithinLimit(s, config) && Declared(s)
  }

  /** Closing an open storage takes exactly its share away: the clamp at zero never fires. */
  lemma ClampNeverFires(s: State, i: nat)
    requires Exact(s) && i < |s.stores| && s.stores[i].open && s.stores[i].disk
    ensures s.usage.diskFiles >= 1 && s.usage.diskBytes >= s.stores[i].size
  {
    PartOfSum(s.stores, i, One(true));
    PartOfSum(s.stores, i, Size(true));
  }

  lemma CloseKeeps(s: State, i: nat, config: Config)
    requires Inv(s, config) && i < |s.stores| && s.stores[i].open
    ensures Inv(Do(s, Close(i), config), config)
  {
    var st := s.stores[i];
    var closed := st.(open := false);
    SumReplace(s.stores, i, closed, One(true));
    SumReplace(s.stores, i, closed, Size(true));
    SumReplace(s.stores, i, closed, One(false));
    SumReplace(s.stores, i, closed, Size(false));
    SumReplace(s.stores, i, closed, Excess());
    if st.disk {
      ClampNeverFires(s, i);
    }
  }

  lemma OpenKeeps(s: State, outcome: Outcome, size: nat, declared: int, config: Config)
    requires Inv(s, config) && declared >= 0
    requires outcome.Storage? && outcome.disk ==> DiskCacheAvailable(config, s.usage, declared)
    ensures Inv(Opened(s, outcome, size, declared), config)
  {
    if outcome.Storage? {
      var st := Stored(outcome.disk, size, declared, true);
      SumAppend(s.stores, st, One(true));
      SumAppend(s.stores, st, Size(true));
      SumAppend(s.stores, st, One(false));
      SumAppend(s.stores, st, Size(false));
      SumAppend(s.stores, st, Excess());
      SumNotNegative(s.stores, Excess());
    }
  }

  /** Over every run: the counters are exact, and disk usage stays within the configured size plus what open files
      exceed their declared lengths by. */
  lemma {:induction false} AccountingExact(actions: seq<Action>, config: Config)
    ensures Inv(Run(actions, config), config)
  {
    if actions != [] {
      var before, a := Run(actions[..|actions| - 1], config), actions[|actions| - 1];
      AccountingExact(actions[..|actions| - 1], config);
      match a
      case Create(size, fault) => OpenKeeps(before, Place(config, before.usage, size, fault), size, size, config);
      case CreateFromReader(size, contentLength, maxBytes, fault, reading) =>
        OpenKeeps(before, PlaceStream(config, before.usage, size, contentLength, maxBytes, fault, reading), size,
                  if Streams(config, before.usage, contentLength) then contentLength else size, config);
      case Close(i) => if i < |before.stores| && before.stores[i].open { CloseKeeps(before, i, config); }
    }
  }

  /** So bodies no longer than their declared length keep disk usage within the limit. */
  lemma HonestLengthsStayWithinLimit(actions: seq<Action>, config: Config)
    requires forall a | a in actions && a.CreateFromReader? :: a.contentLength > 0 ==> a.size <= a.contentLength
    ensures Run(actions, config).usage.diskBytes <= AtLeastZero(config.maxSizeMB * MIB)
  {
    AccountingExact(actions, config);
    NoExcess(actions, config);
    ExcessIsZero(Run(actions, config).stores);
  }

  lemma {:induction false} NoExcess(actions: seq<Action>, config: Config)
    requires forall a | a in actions && a.CreateFromReader? :: a.contentLength > 0 ==> a.size <= a.contentLength
    ensures forall i | 0 <= i < |Run(actions, config).stores| ::
      Run(actions, config).stores[i].size <= Run(actions, config).stores[i].declared
  {
    if actions != [] {
      NoExcess(actions[..|actions| - 1], config);
      assert actions[|actions| - 1] in actions;
    }
  }

  lemma {:induction false} ExcessIsZero(stores: seq<Stored>)
    requires forall i | 0 <= i < |stores| :: stores[i].size <= stores[i].declared
    ensures SumOf(stores, Excess()) == 0
  {
    if stores != [] {
      ExcessIsZero(stores[1..]);
    }
  }

  ghost predicate Within(s: State, config: Config) {
    s.usage.diskBytes <= AtLeastZero(config.maxSizeMB * MIB)
  }

  /** A body is streamed to a file it makes too large: it was admitted by its declared length, and is longer. */
  predicate Overflows(s: State, a: Action, config: Config) {
    && a.CreateFromReader? && Streams(config, s.usage, a.contentLength)
    && a.fault.NoFault? && a.reading.Delivers? && a.size <= a.maxBytes
    && s.usage.diskBytes + a.size > AtLeastZero(config.maxSizeMB * MIB)
  }

  /** Only such a step leads out of the limit. */
  lemma StepStaysWithinIff(s: State, a: Action, config: Config)
    requires Within(s, config)
    ensures Within(Do(s, a, config), config) <==> !Overflows(s, a, config)
  {
  }

  ghost predicate WithinUpTo(actions: seq<Action>, n: nat, config: Config)
    requires n <= |actions|
  {
    forall k: nat | k <= n :: Within(Run(actions[..k], config), config)
  }

  ghost predicate NoOverflowUpTo(actions: seq<Action>, n: nat, config: Config)
    requires n <= |actions|
  {
    forall k: nat | k < n :: !Overflows(Run(actions[..k], config), actions[k], config)
  }

  lemma {:induction false} StaysWithinUpTo(actions: seq<Action>, n: nat, config: Config)
    requires n <= |actions|
    ensures WithinUpTo(actions, n, config) <==> NoOverflowUpTo(actions, n, config)
  {
    if n == 0 {
      assert actions[..0] == [];
    } else {
      StaysWithinUpTo(actions, n - 1, config);
      assert actions[..n][..n - 1] == actions[..n - 1];
      if Within(Run(actions[..n - 1], config), config) {
        StepStaysWithinIff(Run(actions[..n - 1], config), actions[n - 1], config);
      }
    }
  }

  /** So disk usage stays within the limit all along if and only if no streamed body overflows it when it comes. */
  lemma RunStaysWithinIff(actions: seq<Action>, config: Config)
    ensures (forall k: nat | k <= |actions| :: Within(Run(actions[..k], config), config)) <==>
      forall k: nat | k < |actions| :: !Overflows(Run(actions[..k], config), actions[k], config)
  {
    StaysWithinUpTo(actions, |actions|, config);
  }

  /** An overflow leaves a longer body than declared, as decompression can make one. */
  lemma OverflowIsLonger(s: State, a: Action, config: Config)
    requires Overflows(s, a, config)
    ensures a.size > a.contentLength
  {
  }

  /** A body longer than declared can push disk usage over the limit. */
  lemma LongerBodyExceedsLimit()
    ensures exists actions, config :: Run(actions, config).usage.diskBytes > AtLeastZero(config.maxSizeMB * MIB)
  {
    var config := Config(true, 0, 1);
    var a := CreateFromReader(2 * MIB, 1, 2 * MIB, NoFault, Delivers);
    assert [a][..0] == [];
    assert Run([], config) == State(NO_USAGE, []);
    assert Run([a], config).usage.diskBytes == 2 * MIB;
  }
}

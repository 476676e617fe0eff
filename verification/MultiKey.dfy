/**
  Multi-key channel management (controller/channel.go, with `GetKeys` and `Update` of model/channel.go): a key
  list stored as text plus three sparse maps from key index to status, disabling time and reason, which are
  re-indexed on deletion. The model proves what each action does to the plain list of key records.
*/
module MultiKey {
  import opened Text

  const ENABLED := 1
  const MANUALLY_DISABLED := 2
  const AUTO_DISABLED := 3

  /** The result of decoding text as a JSON array of raw messages. */
  datatype Decoded = NotArray | Array(items: seq<string>)

  type Decoder = string -> Decoded

  /** `ChannelInfo`: the key count and the three maps. */
  datatype Info = Info(size: int, status: map<int, int>, time: map<int, int>, reason: map<int, string>)

  /** One key as an administrator sees it. */
  datatype Rec = Rec(key: string, status: int, time: int, reason: string)

  function At<T>(m: map<int, T>, i: int, default: T): T {
    if i in m then m[i] else default
  }

  function RecAt(key: string, info: Info, i: int): Rec {
    Rec(key, At(info.status, i, ENABLED), At(info.time, i, 0), At(info.reason, i, ""))
  }

  /** The records of a key list. */
  function Records(keys: seq<string>, info: Info): (recs: seq<Rec>)
    ensures |recs| == |keys|
    ensures forall i | 0 <= i < |keys| :: recs[i] == RecAt(keys[i], info, i)
  {
    seq(|keys|, i requires 0 <= i < |keys| => RecAt(keys[i], info, i))
  }

  predicate LooksLikeArray(key: string) {
    "[" <= TrimSpace(key)
  }

  /** The first character that is no space decides. */
  lemma LooksLikeArrayIff(key: string)
    ensures LooksLikeArray(key) <==>
      exists i | 0 <= i < |key| :: key[i] == '[' && forall j | 0 <= j < i :: IsSpace(key[j])
  {
    var left := TrimLeft(key, IsSpace);
    TrimLeftClips(key, IsSpace);
    TrimRightClips(left, IsSpace);
    SkippedAreSpace(key);
    var k := |key| - |left|;
    if left != [] {
      FirstIsKept(left);
    }
    if left != [] && left[0] == '[' {
      assert key[k] == '[';
    }
    if i :| 0 <= i < |key| && key[i] == '[' && forall j | 0 <= j < i :: IsSpace(key[j]) {
      assert i == k;
    }
  }

  lemma {:induction false} FirstIsKept(s: string)
    requires s != [] && !IsSpace(s[0])
    ensures TrimRight(s, IsSpace) != []
  {
    if IsSpace(s[|s| - 1]) {
      FirstIsKept(s[..|s| - 1]);
    }
  }

  lemma {:induction false} SkippedAreSpace(s: string)
    ensures var k := |s| - |TrimLeft(s, IsSpace)|; k >= 0 && forall j | 0 <= j < k :: IsSpace(s[j])
  {
    if s != [] && IsSpace(s[0]) {
      SkippedAreSpace(s[1..]);
      assert forall j | 1 <= j < |s| :: s[j] == s[1..][j - 1];
    }
  }

  /** `Channel.GetKeys` on a row loaded from the database. */
  function GetKeys(key: string, decode: Decoder): seq<string> {
    if key == "" then []
    else if LooksLikeArray(key) && decode(TrimSpace(key)).Array? then decode(TrimSpace(key)).items
    else Split(Trim(key, '\n'), '\n')
  }

  /** The count `Channel.Update` takes: like `GetKeys`, but an empty array falls back to lines. */
  function CountKeys(key: string, decode: Decoder): nat {
    var keys := GetKeys(key, decode);
    if key != "" && keys == [] then |Split(Trim(key, '\n'), '\n')| else |keys|
  }

  /** So the text of an empty array counts as its lines although no key is read from it. */
  lemma EmptyArrayCount(key: string, decode: Decoder)
    requires LooksLikeArray(key) && decode(TrimSpace(key)) == Array([])
    ensures GetKeys(key, decode) == [] && CountKeys(key, decode) == |Split(Trim(key, '\n'), '\n')| >= 1
  {
  }

  /** The stored row of a multi-key channel. */
  datatype Row = Row(key: string, info: Info)

  function Pruned(status: map<int, int>, size: int): map<int, int> {
    map i | i in status && i < size :: status[i]
  }

  /** `Channel.Update`: recounts, drops statuses beyond the count, and writes only non-zero columns, so an empty
      key text leaves the stored one. */
  function Updated(stored: Row, key: string, info: Info, decode: Decoder): Row {
    var text := if key != "" then key else stored.key;
    var size := CountKeys(text, decode);
    Row(text, info.(size := size, status := Pruned(info.status, size)))
  }

  function ViewOf(row: Row, decode: Decoder): seq<Rec> {
    Records(GetKeys(row.key, decode), row.info)
  }

  predicate InRange<T>(m: map<int, T>, size: int) {
    forall i | i in m :: 0 <= i < size
  }

  predicate MapsInRange(info: Info, size: int) {
    InRange(info.status, size) && InRange(info.time, size) && InRange(info.reason, size)
  }

  /** The count is the one `Update` takes, and no status speaks about a missing key. Times and reasons may. */
  predicate ValidRow(row: Row, decode: Decoder) {
    row.info.size == CountKeys(row.key, decode) && InRange(row.info.status, row.info.size)
  }

  /** So the count is the number of keys, except for the text of an empty array. */
  lemma ViewSize(row: Row, decode: Decoder)
    requires ValidRow(row, decode)
    ensures |ViewOf(row, decode)| == row.info.size || ViewOf(row, decode) == []
  {
  }

  /** Every saved row is valid. */
  lemma UpdatedIsValid(stored: Row, key: string, info: Info, decode: Decoder)
    requires forall i | i in info.status :: i >= 0
    ensures ValidRow(Updated(stored, key, info, decode), decode)
  {
  }

  // ----- storing a key list as lines -----

  /** Keys that are one line each, the first and the last not blank. */
  predicate ReadAsLines(keys: seq<string>)
    requires keys != []
  {
    (forall k | k in keys :: '\n' !in k) && keys[0] != "" && keys[|keys| - 1] != ""
  }

  /** Which lists survive being stored as lines. One blank key is stored as no text at all, and a text that happens to
      be an array is read as that. */
  predicate Storable(keys: seq<string>, decode: Decoder) {
    var text := Join(keys, '\n');
    || keys == []
    || (keys != [""] &&
        if LooksLikeArray(text) && decode(TrimSpace(text)).Array? then decode(TrimSpace(text)).items == keys
        else ReadAsLines(keys))
  }

  /** These and no others read back unchanged. */
  lemma StorableIff(keys: seq<string>, decode: Decoder)
    ensures GetKeys(Join(keys, '\n'), decode) == keys <==> Storable(keys, decode)
  {
    if keys != [] {
      var text := Join(keys, '\n');
      JoinEnds(keys, '\n');
      if forall k | k in keys :: '\n' !in k {
        SplitOfTrimOfJoin(keys, '\n');
      } else {
        assert Split(Trim(text, '\n'), '\n') != keys;
      }
    }
  }

  /** Saving new maps for the same keys. */
  lemma SavedInfo(stored: Row, info: Info, decode: Decoder)
    requires ValidRow(stored, decode) && InRange(info.status, stored.info.size)
    ensures var row := Updated(stored, stored.key, info, decode);
      ValidRow(row, decode) && row.key == stored.key &&
        ViewOf(row, decode) == Records(GetKeys(stored.key, decode), info)
  {
    assert Updated(stored, stored.key, info, decode).info.status == info.status;
  }

  // ----- the actions on the list of records -----

  function Disabled(recs: seq<Rec>): seq<Rec> {
    seq(|recs|, i requires 0 <= i < |recs| =>
      if recs[i].status == ENABLED then recs[i].(status := MANUALLY_DISABLED) else recs[i])
  }

  /** How many records have a status. */
  function CountStatus(recs: seq<Rec>, status: int): nat {
    if recs == [] then 0
    else CountStatus(recs[..|recs| - 1], status) + if recs[|recs| - 1].status == status then 1 else 0
  }

  function Enabled(rec: Rec): Rec {
    Rec(rec.key, ENABLED, 0, "")
  }

  function AllEnabled(recs: seq<Rec>): seq<Rec> {
    seq(|recs|, i requires 0 <= i < |recs| => Enabled(recs[i]))
  }

  function Without(recs: seq<Rec>, i: nat): seq<Rec>
    requires i < |recs|
  {
    recs[..i] + recs[i + 1..]
  }

  /** The records that are not automatically disabled; an enabled key loses its stale time and reason. */
  function Survivors(recs: seq<Rec>): seq<Rec> {
    if recs == [] then []
    else
      var last := recs[|recs| - 1];
      Survivors(recs[..|recs| - 1]) +
      if last.status == AUTO_DISABLED then [] else if last.status == ENABLED then [Enabled(last)] else [last]
  }

  function KeysOf(recs: seq<Rec>): (keys: seq<string>)
    ensures |keys| == |recs| && forall i | 0 <= i < |recs| :: keys[i] == recs[i].key
  {
    seq(|recs|, i requires 0 <= i < |recs| => recs[i].key)
  }

  lemma {:induction false} SurvivorsLength(recs: seq<Rec>)
    ensures |Survivors(recs)| <= |recs|
    ensures forall i | 0 <= i < |Survivors(recs)| :: Survivors(recs)[i].status != AUTO_DISABLED
  {
    if recs != [] {
      SurvivorsLength(recs[..|recs| - 1]);
    }
  }

  /** Nothing survives exactly when every key is automatically disabled, and everything when none is. */
  lemma {:induction false} SurvivorsOf(recs: seq<Rec>)
    ensures Survivors(recs) == [] <==> forall i | 0 <= i < |recs| :: recs[i].status == AUTO_DISABLED
    ensures |Survivors(recs)| == |recs| <==> forall i | 0 <= i < |recs| :: recs[i].status != AUTO_DISABLED
  {
    if recs != [] {
      var before, last := recs[..|recs| - 1], recs[|recs| - 1];
      SurvivorsOf(before);
      SurvivorsLength(before);
      assert forall i | 0 <= i < |recs| :: recs[i] == if i < |before| then before[i] else last;
    }
  }

  /** What `get_key_status` shows of a record: an enabled key has no time and reason. */
  function Shown(recs: seq<Rec>): seq<Rec> {
    if recs == [] then []
    else
      var last := recs[|recs| - 1];
      Shown(recs[..|recs| - 1]) + [if last.status == ENABLED then Enabled(last) else last]
  }

  function NotAutoDisabled(recs: seq<Rec>): seq<Rec> {
    if recs == [] then []
    else
      var last := recs[|recs| - 1];
      NotAutoDisabled(recs[..|recs| - 1]) + if last.status == AUTO_DISABLED then [] else [last]
  }

  /** As shown, deleting disabled keys is filtering out status 3. */
  lemma {:induction false} SurvivorsAreFiltered(recs: seq<Rec>)
    ensures Shown(Survivors(recs)) == NotAutoDisabled(Shown(recs))
  {
    if recs != [] {
      var before, last := recs[..|recs| - 1], recs[|recs| - 1];
      SurvivorsAreFiltered(before);
      var shown := Shown(recs);
      assert shown[..|shown| - 1] == Shown(before);
      if last.status != AUTO_DISABLED {
        var kept := Survivors(recs);
        assert kept[..|kept| - 1] == Survivors(before);
      } else {
        assert Survivors(recs) == Survivors(before);
      }
    }
  }

  // ----- records saved with a new key text -----

  /** A disabling time or reason is kept for key `i`. */
  predicate Dated(info: Info, i: int) {
    i in info.time || i in info.reason
  }

  ghost predicate NoNewDates(info: Info, info': Info) {
    forall j | Dated(info', j) :: Dated(info, j)
  }

  /** The records of the keys a text gives, with the maps of other records: record `i` keeps everything but its key, and
      a key beyond them is enabled. */
  function Relabelled(recs: seq<Rec>, keys: seq<string>): seq<Rec> {
    seq(|keys|, i requires 0 <= i < |keys| =>
      if i < |recs| then recs[i].(key := keys[i]) else Rec(keys[i], ENABLED, 0, ""))
  }

  /** What a channel that showed `view` shows after `recs` are saved, whether or not their keys read back. */
  function Reread(view: seq<Rec>, recs: seq<Rec>, decode: Decoder): seq<Rec> {
    var text := Join(KeysOf(recs), '\n');
    Relabelled(recs, if text != "" then GetKeys(text, decode) else KeysOf(view))
  }

  lemma PrunedRecords(keys: seq<string>, info: Info, read: seq<string>, size: nat)
    requires MapsInRange(info, |keys|) && |read| <= size
    ensures Records(read, info.(size := size, status := Pruned(info.status, size))) ==
      Relabelled(Records(keys, info), read)
  {
    var info' := info.(size := size, status := Pruned(info.status, size));
    forall i | 0 <= i < |read| ensures RecAt(read[i], info', i) == Relabelled(Records(keys, info), read)[i] {
      assert At(info'.status, i, ENABLED) == At(info.status, i, ENABLED);
    }
  }

  /** Saving any records shows what is read back. */
  lemma SavedRecords(stored: Row, keys: seq<string>, info: Info, decode: Decoder)
    requires MapsInRange(info, |keys|)
    ensures ViewOf(Updated(stored, Join(keys, '\n'), info, decode), decode) ==
      Reread(ViewOf(stored, decode), Records(keys, info), decode)
  {
    var row := Updated(stored, Join(keys, '\n'), info, decode);
    assert KeysOf(Records(keys, info)) == keys && KeysOf(ViewOf(stored, decode)) == GetKeys(stored.key, decode);
    PrunedRecords(keys, info, GetKeys(row.key, decode), row.info.size);
  }

  /** Saving fewer records than there were keys shows exactly them if and only if there are some and their keys can be
      stored; without any, all keys stay and are enabled. */
  lemma RereadIff(view: seq<Rec>, recs: seq<Rec>, decode: Decoder)
    requires |recs| < |view|
    ensures Reread(view, recs, decode) == recs <==> recs != [] && Storable(KeysOf(recs), decode)
    ensures recs == [] ==> Reread(view, recs, decode) == AllEnabled(view)
  {
    var keys := KeysOf(recs);
    if keys != [] {
      JoinEnds(keys, '\n');
      StorableIff(keys, decode);
      assert Reread(view, recs, decode) == recs ==> KeysOf(Reread(view, recs, decode)) == keys;
    }
  }

  datatype Index = Missing | Given(i: int)

  datatype Action =
    | Disable(index: Index) | Enable(index: Index) | EnableAll | DisableAll | Delete(index: Index) | DeleteDisabled

  predicate Names(view: seq<Rec>, index: Index) {
    index.Given? && 0 <= index.i < |view|
  }

  /** What an action that is saved makes of the records; deletions show what is read back. */
  function ActOn(view: seq<Rec>, a: Action, decode: Decoder): seq<Rec> {
    match a
    case Disable(index) => if Names(view, index) then view[index.i := view[index.i].(status := MANUALLY_DISABLED)]
      else view
    case Enable(index) => if Names(view, index) then view[index.i := Enabled(view[index.i])] else view
    case EnableAll => AllEnabled(view)
    case DisableAll => Disabled(view)
    case Delete(index) => if Names(view, index) && |view| > 1 then Reread(view, Without(view, index.i), decode)
      else view
    case DeleteDisabled => if |Survivors(view)| < |view| then Reread(view, Survivors(view), decode) else view
  }

  /** How saving a row ends: the database rejects it, takes it, or takes it and then fails on the channel's
      abilities. */
  datatype Saving = Rejected | Saved | Unlisted

  /** An action is refused, or fails because not everything could be saved, or is done on `count` keys. */
  datatype Reply = Refused | Failed | Done(count: int)

  /** Whether the row was written, which it can be although the request fails. */
  predicate Wrote(reply: Reply, saving: Saving) {
    !reply.Refused? && !saving.Rejected?
  }

  /** Appending a key with its entries appends its record. */
  lemma AppendedRecord(keys: seq<string>, info: Info, key: string, info': Info, rec: Rec)
    requires forall i | 0 <= i < |keys| :: RecAt(keys[i], info', i) == RecAt(keys[i], info, i)
    requires RecAt(key, info', |keys|) == rec
    ensures Records(keys + [key], info') == Records(keys, info) + [rec]
  {
  }

  /** `if v, exists := m[i]; exists { m'[j] = v }`. */
  function Carry<T>(m': map<int, T>, j: int, m: map<int, T>, i: int): map<int, T> {
    if i in m then m'[j := m[i]] else m'
  }

  function CarryStatus(m': map<int, int>, j: int, m: map<int, int>, i: int): map<int, int> {
    if i in m && m[i] != ENABLED then m'[j := m[i]] else m'
  }

  /** The entries of key `i`, moved to index `j`. */
  function CarryAll(info': Info, j: int, info: Info, i: int): Info {
    Info(0, CarryStatus(info'.status, j, info.status, i), Carry(info'.time, j, info.time, i),
      Carry(info'.reason, j, info.reason, i))
  }

  lemma CarriedRecord(keys: seq<string>, info': Info, key: string, info: Info, i: int)
    requires MapsInRange(info', |keys|)
    ensures var next := CarryAll(info', |keys|, info, i);
      MapsInRange(next, |keys| + 1) && Records(keys + [key], next) == Records(keys, info') + [RecAt(key, info, i)]
  {
    AppendedRecord(keys, info', key, CarryAll(info', |keys|, info, i), RecAt(key, info, i));
  }

  lemma EnabledRecord(keys: seq<string>, info': Info, key: string)
    requires MapsInRange(info', |keys|)
    ensures MapsInRange(info', |keys| + 1)
    ensures Records(keys + [key], info') == Records(keys, info') + [Rec(key, ENABLED, 0, "")]
  {
    AppendedRecord(keys, info', key, info', Rec(key, ENABLED, 0, ""));
  }

  /** The old index of the key that has index `j` once key `keyIndex` is gone. */
  function Source(keyIndex: nat, j: int): int {
    if j < keyIndex then j else j + 1
  }

  lemma CarriedDates(info': Info, k: nat, info: Info, i: int)
    requires MapsInRange(info', k)
    ensures forall j :: Dated(CarryAll(info', k, info, i), j) <==> Dated(info', j) || (Dated(info, i) && j == k)
  {
  }

  /** The re-indexing loop of `delete_key`. */
  method WithoutKey(keys: seq<string>, info: Info, keyIndex: nat) returns (remaining: seq<string>, info': Info)
    requires keyIndex < |keys| || keys == []
    ensures keys != [] ==> Records(remaining, info') == Without(Records(keys, info), keyIndex)
    ensures keys == [] ==> remaining == []
    ensures MapsInRange(info', |remaining|)
    ensures forall j | 0 <= j < |remaining| :: Dated(info', j) <==> Dated(info, Source(keyIndex, j))
  {
    ghost var recs := Records(keys, info);
    remaining, info' := [], Info(0, map[], map[], map[]);
    for i := 0 to |keys|
      invariant MapsInRange(info', |remaining|)
      invariant |remaining| == if i <= keyIndex then i else i - 1
      invariant Records(remaining, info') == if i <= keyIndex then recs[..i]
        else recs[..keyIndex] + recs[keyIndex + 1..i]
      invariant forall j | 0 <= j < |remaining| :: Dated(info', j) <==> Dated(info, Source(keyIndex, j))
    {
      if i != keyIndex {
        CarriedRecord(remaining, info', keys[i], info, i);
        CarriedDates(info', |remaining|, info, i);
        info' := CarryAll(info', |remaining|, info, i);
        remaining := remaining + [keys[i]];
      }
    }
  }

  /** Key `i` is neither deleted nor enabled, so its time and reason move with it to its new index. */
  predicate Moves(info: Info, i: int) {
    At(info.status, i, ENABLED) != AUTO_DISABLED && At(info.status, i, ENABLED) != ENABLED && Dated(info, i)
  }

  /** Every entry left for index `j` was moved there, and every moved one is left. */
  ghost predicate Moved(recs: seq<Rec>, info: Info, info': Info) {
    && (forall i | 0 <= i < |recs| && Moves(info, i) :: Dated(info', |Survivors(recs[..i])|))
    && (forall j | Dated(info', j) :: exists i | 0 <= i < |recs| :: Moves(info, i) && j == |Survivors(recs[..i])|)
  }

  lemma MovedStep(recs: seq<Rec>, info: Info, k: nat, info': Info, next: Info)
    requires k < |recs| && Moved(recs[..k], info, info')
    requires forall j :: Dated(next, j) <==> Dated(info', j) || (Moves(info, k) && j == |Survivors(recs[..k])|)
    ensures Moved(recs[..k + 1], info, next)
  {
    var a, b := recs[..k], recs[..k + 1];
    assert b[..k] == a;
    assert forall i | 0 <= i < k :: a[..i] == b[..i];
    forall j | Dated(next, j) ensures exists i | 0 <= i < |b| :: Moves(info, i) && j == |Survivors(b[..i])| {
      if Dated(info', j) {
        var i :| 0 <= i < |a| && Moves(info, i) && j == |Survivors(a[..i])|;
        assert j == |Survivors(b[..i])|;
      }
    }
  }

  /** What is kept of the first `i` keys. */
  ghost predicate KeptSoFar(recs: seq<Rec>, info: Info, i: nat, remaining: seq<string>, info': Info)
    requires i <= |recs|
  {
    && MapsInRange(info', |remaining|)
    && Records(remaining, info') == Survivors(recs[..i])
    && Moved(recs[..i], info, info')
  }

  /** One turn of the loop: a key is dropped, kept with its entries, or kept without. */
  method KeepKey(keys: seq<string>, info: Info, i: nat, remaining: seq<string>, info': Info)
    returns (remaining': seq<string>, next: Info, gone: bool)
    requires i < |keys| && KeptSoFar(Records(keys, info), info, i, remaining, info')
    ensures KeptSoFar(Records(keys, info), info, i + 1, remaining', next)
    ensures |remaining'| == if gone then |remaining| else |remaining| + 1
  {
    ghost var recs := Records(keys, info);
    assert recs[..i + 1][..i] == recs[..i];
    var status := At(info.status, i, ENABLED);
    remaining', next, gone := remaining, info', status == AUTO_DISABLED;
    if !gone {
      remaining' := remaining + [keys[i]];
      if status != ENABLED {
        CarriedRecord(remaining, info', keys[i], info, i);
        CarriedDates(info', |remaining|, info, i);
        next := CarryAll(info', |remaining|, info, i);
      } else {
        EnabledRecord(remaining, info', keys[i]);
      }
    }
    MovedStep(recs, info, i, info', next);
  }

  /** The re-indexing loop of `delete_disabled_keys`. */
  method WithoutAutoDisabled(keys: seq<string>, info: Info) returns (remaining: seq<string>, info': Info, deleted: nat)
    ensures Records(remaining, info') == Survivors(Records(keys, info))
    ensures MapsInRange(info', |remaining|) && deleted == |keys| - |remaining|
    ensures Moved(Records(keys, info), info, info')
  {
    ghost var recs := Records(keys, info);
    remaining, info', deleted := [], Info(0, map[], map[], map[]), 0;
    for i := 0 to |keys|
      invariant KeptSoFar(recs, info, i, remaining, info') && deleted == i - |remaining|
    {
      var gone;
      remaining, info', gone := KeepKey(keys, info, i, remaining, info');
      if gone {
        deleted := deleted + 1;
      }
    }
    assert recs[..|keys|] == recs;
  }

  /** How many of the first `n` keys are enabled. */
  function EnabledCount(status: map<int, int>, n: int): nat
    decreases n
  {
    if n <= 0 then 0 else EnabledCount(status, n - 1) + if At(status, n - 1, ENABLED) == ENABLED then 1 else 0
  }

  lemma {:induction false} EnabledIsCount(keys: seq<string>, info: Info)
    ensures EnabledCount(info.status, |keys|) == CountStatus(Records(keys, info), ENABLED)
  {
    if keys != [] {
      var before := keys[..|keys| - 1];
      EnabledIsCount(before, info);
      assert Records(keys, info)[..|before|] == Records(before, info);
    }
  }

  ghost predicate DisabledUpTo(was: map<int, int>, status: map<int, int>, i: int, size: int) {
    forall j | 0 <= j < size :: At(status, j, ENABLED) ==
      if j < i && At(was, j, ENABLED) == ENABLED then MANUALLY_DISABLED else At(was, j, ENABLED)
  }

  /** The loop of `disable_all_keys`, which goes by the count. */
  method DisableEnabled(info: Info) returns (status: map<int, int>, disabled: nat)
    requires InRange(info.status, info.size)
    ensures InRange(status, info.size) && DisabledUpTo(info.status, status, info.size, info.size)
    ensures disabled == EnabledCount(info.status, info.size)
  {
    status, disabled := info.status, 0;
    var i := 0;
    while i < info.size
      invariant 0 <= i && (i <= info.size || i == 0)
      invariant InRange(status, info.size) && DisabledUpTo(info.status, status, i, info.size)
      invariant disabled == EnabledCount(info.status, i)
    {
      if At(status, i, ENABLED) == ENABLED {
        status := status[i := MANUALLY_DISABLED];
        disabled := disabled + 1;
      }
      i := i + 1;
    }
  }

  lemma DisabledRecords(keys: seq<string>, info: Info, status: map<int, int>)
    requires |keys| <= info.size && DisabledUpTo(info.status, status, info.size, info.size)
    ensures Records(keys, info.(status := status)) == Disabled(Records(keys, info))
  {
  }

  /** Only times and reasons matter. */
  lemma MovedAsSaved(recs: seq<Rec>, info: Info, info': Info, saved: Info)
    requires Moved(recs, info, info') && saved.time == info'.time && saved.reason == info'.reason
    ensures Moved(recs, info, saved)
  {
    assert forall j :: Dated(saved, j) <==> Dated(info', j);
  }

  /** What saving fewer records leaves. */
  lemma SavedFewer(stored: Row, view: seq<Rec>, rest: seq<Rec>, remaining: seq<string>, info: Info, decode: Decoder)
    requires view == ViewOf(stored, decode) && |rest| < |view| && Records(remaining, info) == rest &&
      MapsInRange(info, |remaining|)
    ensures var row := Updated(stored, Join(remaining, '\n'), info, decode);
      && ValidRow(row, decode) && ViewOf(row, decode) == Reread(view, rest, decode)
      && (ViewOf(row, decode) == rest <==> rest != [] && Storable(KeysOf(rest), decode))
      && (rest == [] ==> ViewOf(row, decode) == AllEnabled(view))
  {
    SavedRecords(stored, remaining, info, decode);
    RereadIff(view, rest, decode);
    UpdatedIsValid(stored, Join(remaining, '\n'), info, decode);
  }

  // ----- the stored channel -----

  class Channel {
    var key: string
    var info: Info
    const decode: Decoder

    constructor (key: string, info: Info, decode: Decoder)
      ensures Value() == Row(key, info) && this.decode == decode
    {
      this.key, this.info, this.decode := key, info, decode;
    }

    function Value(): Row
      reads this
    {
      Row(key, info)
    }

    ghost predicate Valid()
      reads this
    {
      ValidRow(Value(), decode)
    }

    ghost function View(): seq<Rec>
      reads this
    {
      ViewOf(Value(), decode)
    }

    /** `channel.Update()`, whose last error is that of the abilities: the row is stored by then. */
    method Update(newKey: string, newInfo: Info, saving: Saving) returns (reply: Reply)
      modifies this
      ensures reply == if saving.Saved? then Done(0) else Failed
      ensures Value() == if saving.Rejected? then old(Value()) else Updated(old(Value()), newKey, newInfo, decode)
    {
      if saving.Rejected? {
        return Failed;
      }
      var text := if newKey != "" then newKey else key;
      var size := CountKeys(text, decode);
      key, info := text, newInfo.(size := size, status := Pruned(newInfo.status, size));
      reply := if saving.Saved? then Done(0) else Failed;
    }

    method DisableKey(index: Index, saving: Saving) returns (reply: Reply)
      requires Valid()
      modifies this
      ensures Valid()
      ensures reply.Refused? <==> index.Missing? || !(0 <= index.i < old(info.size))
      ensures reply.Done? <==> !reply.Refused? && saving.Saved?
      ensures View() == if Wrote(reply, saving) then ActOn(old(View()), Disable(index), decode) else old(View())
      ensures NoNewDates(old(info), info)
    {
      if index.Missing? || index.i < 0 || index.i >= info.size {
        return Refused;
      }
      var next := info.(status := info.status[index.i := MANUALLY_DISABLED]);
      SavedInfo(Value(), next, decode);
      reply := Update(key, next, saving);
    }

    method EnableKey(index: Index, saving: Saving) returns (reply: Reply)
      requires Valid()
      modifies this
      ensures Valid()
      ensures reply.Refused? <==> index.Missing? || !(0 <= index.i < old(info.size))
      ensures reply.Done? <==> !reply.Refused? && saving.Saved?
      ensures View() == if Wrote(reply, saving) then ActOn(old(View()), Enable(index), decode) else old(View())
      ensures NoNewDates(old(info), info)
    {
      if index.Missing? || index.i < 0 || index.i >= info.size {
        return Refused;
      }
      var next := Info(info.size, info.status - {index.i}, info.time - {index.i}, info.reason - {index.i});
      SavedInfo(Value(), next, decode);
      reply := Update(key, next, saving);
    }

    method EnableAllKeys(saving: Saving) returns (reply: Reply)
      requires Valid()
      modifies this
      ensures Valid()
      ensures reply == if saving.Saved? then Done(|old(info.status)|) else Failed
      ensures View() == if Wrote(reply, saving) then ActOn(old(View()), EnableAll, decode) else old(View())
      ensures NoNewDates(old(info), info)
    {
      var enabled := |info.status|;
      var next := Info(info.size, map[], map[], map[]);
      SavedInfo(Value(), next, decode);
      reply := Update(key, next, saving);
      if reply.Done? {
        reply := Done(enabled);
      }
    }

    /** When keys are shown, the count is that of the enabled ones shown. */
    method DisableAllKeys(saving: Saving) returns (reply: Reply)
      requires Valid()
      modifies this
      ensures Valid()
      ensures reply.Refused? <==> EnabledCount(old(info.status), old(info.size)) == 0
      ensures reply.Done? <==> !reply.Refused? && saving.Saved?
      ensures reply.Done? ==> reply.count == EnabledCount(old(info.status), old(info.size))
      ensures old(View()) != [] ==> EnabledCount(old(info.status), old(info.size)) == CountStatus(old(View()), ENABLED)
      ensures View() == if Wrote(reply, saving) then ActOn(old(View()), DisableAll, decode) else old(View())
      ensures NoNewDates(old(info), info)
    {
      ViewSize(Value(), decode);
      EnabledIsCount(GetKeys(key, decode), info);
      var status, disabled := DisableEnabled(info);
      if disabled == 0 {
        return Refused;
      }
      DisabledRecords(GetKeys(key, decode), info, status);
      SavedInfo(Value(), info.(status := status), decode);
      reply := Update(key, info.(status := status), saving);
      if reply.Done? {
        reply := Done(disabled);
      }
    }

    /** Shows the other records with the keys that are read back: exactly them if and only if those keys can be stored.
        Times and reasons move with their records, also beyond the keys read. */
    method DeleteKey(index: Index, saving: Saving) returns (reply: Reply)
      requires Valid()
      modifies this
      ensures Valid()
      ensures reply.Refused? <==> index.Missing? || !(0 <= index.i < old(info.size)) || |old(View())| <= 1
      ensures reply.Done? <==> !reply.Refused? && saving.Saved?
      ensures !Wrote(reply, saving) ==> Value() == old(Value())
      ensures Wrote(reply, saving) ==>
        && Names(old(View()), index)
        && var rest := Without(old(View()), index.i);
        && View() == Reread(old(View()), rest, decode)
        && (View() == rest <==> Storable(KeysOf(rest), decode))
        && forall j :: Dated(info, j) <==> 0 <= j < |rest| && Dated(old(info), Source(index.i, j))
    {
      ViewSize(Value(), decode);
      if index.Missing? || index.i < 0 || index.i >= info.size {
        return Refused;
      }
      var remaining, next := WithoutKey(GetKeys(key, decode), info, index.i);
      if |remaining| == 0 {
        return Refused;
      }
      SavedFewer(Value(), View(), Without(View(), index.i), remaining, next, decode);
      reply := Update(Join(remaining, '\n'), next, saving);
    }

    /** Shows the records that are not automatically disabled with the keys that are read back: exactly them if and only
        if there are some and their keys can be stored. When every key is automatically disabled none is deleted: the
        keys stay and all become enabled. */
    method DeleteDisabledKeys(saving: Saving) returns (reply: Reply)
      requires Valid()
      modifies this
      ensures Valid()
      ensures reply.Refused? <==> |Survivors(old(View()))| == |old(View())|
      ensures reply.Done? <==> !reply.Refused? && saving.Saved?
      ensures !Wrote(reply, saving) ==> Value() == old(Value())
      ensures reply.Done? ==> reply.count == |old(View())| - |Survivors(old(View()))|
      ensures Wrote(reply, saving) ==>
        && var rest := Survivors(old(View()));
        && View() == Reread(old(View()), rest, decode)
        && (View() == rest <==> rest != [] && Storable(KeysOf(rest), decode))
        && (rest == [] ==> View() == AllEnabled(old(View())))
        && Moved(old(View()), old(info), info)
    {
      var remaining, next, deleted := WithoutAutoDisabled(GetKeys(key, decode), info);
      if deleted == 0 {
        return Refused;
      }
      SavedFewer(Value(), View(), Survivors(View()), remaining, next, decode);
      MovedAsSaved(View(), info, next, Updated(Value(), Join(remaining, '\n'), next, decode).info);
      reply := Update(Join(remaining, '\n'), next, saving);
      if reply.Done? {
        reply := Done(deleted);
      }
    }
  }

  // ----- whole runs -----

  lemma {:induction false} NoneEnabled(view: seq<Rec>)
    requires CountStatus(view, ENABLED) == 0
    ensures Disabled(view) == view
  {
    if view != [] {
      var before := view[..|view| - 1];
      NoneEnabled(before);
      assert forall i | 0 <= i < |before| :: before[i] == Disabled(before)[i];
    }
  }

  /** One request: an action and how saving ends if it gets that far. */
  datatype Request = Request(action: Action, saving: Saving)

  /** The records after a request: refused or not, those the action makes of them, unless the row is rejected. */
  function After(view: seq<Rec>, r: Request, decode: Decoder): seq<Rec> {
    if r.saving.Rejected? then view else ActOn(view, r.action, decode)
  }

  /** The records a deletion means to keep. */
  function Kept(view: seq<Rec>, a: Action): seq<Rec> {
    match a
    case Delete(index) => if Names(view, index) && |view| > 1 then Without(view, index.i) else view
    case DeleteDisabled => if |Survivors(view)| < |view| then Survivors(view) else view
    case _ => view
  }

  /** A deletion leaves times and reasons only for what it means to keep; other actions add none. */
  ghost predicate DatesAfter(view: seq<Rec>, info: Info, r: Request, info': Info) {
    var kept := Kept(view, r.action);
    if |kept| < |view| && !r.saving.Rejected? then forall j | Dated(info', j) :: 0 <= j < |kept|
    else NoNewDates(info, info')
  }

  lemma {:induction false} SurvivorsBefore(recs: seq<Rec>, i: nat)
    requires i < |recs| && recs[i].status != AUTO_DISABLED
    ensures |Survivors(recs[..i])| < |Survivors(recs)|
  {
    var before := recs[..|recs| - 1];
    if i < |before| {
      SurvivorsBefore(before, i);
      assert before[..i] == recs[..i];
    }
  }

  lemma MovedBefore(keys: seq<string>, info: Info, info': Info)
    requires Moved(Records(keys, info), info, info')
    ensures forall j | Dated(info', j) :: 0 <= j < |Survivors(Records(keys, info))|
  {
    var recs := Records(keys, info);
    forall j | Dated(info', j) ensures 0 <= j < |Survivors(recs)| {
      var i :| 0 <= i < |recs| && Moves(info, i) && j == |Survivors(recs[..i])|;
      SurvivorsBefore(recs, i);
    }
  }

  method PerformDeletion(c: Channel, r: Request) returns (reply: Reply)
    requires c.Valid() && (r.action.Delete? || r.action.DeleteDisabled?)
    modifies c
    ensures c.Valid()
    ensures reply.Done? <==> !reply.Refused? && r.saving.Saved?
    ensures c.View() == After(old(c.View()), r, c.decode)
    ensures DatesAfter(old(c.View()), old(c.info), r, c.info)
  {
    ghost var keys, info := GetKeys(c.key, c.decode), c.info;
    if r.action.Delete? {
      ViewSize(c.Value(), c.decode);
      reply := c.DeleteKey(r.action.index, r.saving);
    } else {
      SurvivorsLength(c.View());
      reply := c.DeleteDisabledKeys(r.saving);
      if Wrote(reply, r.saving) {
        MovedBefore(keys, info, c.info);
      }
    }
  }

  /** `ManageMultiKeys`. */
  method Perform(c: Channel, r: Request) returns (reply: Reply)
    requires c.Valid()
    modifies c
    ensures c.Valid()
    ensures reply.Done? <==> !reply.Refused? && r.saving.Saved?
    ensures c.View() == After(old(c.View()), r, c.decode)
    ensures DatesAfter(old(c.View()), old(c.info), r, c.info)
  {
    ghost var view := c.View();
    ViewSize(c.Value(), c.decode);
    match r.action
    case Disable(index) => reply := c.DisableKey(index, r.saving);
    case Enable(index) => reply := c.EnableKey(index, r.saving);
    case EnableAll => reply := c.EnableAllKeys(r.saving);
    case DisableAll =>
      reply := c.DisableAllKeys(r.saving);
      if reply.Refused? && view != [] {
        NoneEnabled(view);
      }
    case _ => reply := PerformDeletion(c, r);
  }

  /** The records after a sequence of requests. */
  function RunOn(view: seq<Rec>, requests: seq<Request>, decode: Decoder): seq<Rec> {
    if requests == [] then view
    else After(RunOn(view, requests[..|requests| - 1], decode), requests[|requests| - 1], decode)
  }

  /** The request after the first `i`. */
  method PerformNext(c: Channel, requests: seq<Request>, i: nat, ghost start: seq<Rec>) returns (reply: Reply)
    requires i < |requests| && c.Valid() && c.View() == RunOn(start, requests[..i], c.decode)
    modifies c
    ensures c.Valid() && c.View() == RunOn(start, requests[..i + 1], c.decode)
    ensures reply.Done? <==> !reply.Refused? && requests[i].saving.Saved?
  {
    assert requests[..i + 1][..i] == requests[..i];
    reply := Perform(c, requests[i]);
  }

  /** Over every sequence of requests count and statuses stay right, and what is shown follows the operations on the
      records. */
  method Manage(c: Channel, requests: seq<Request>) returns (replies: seq<Reply>)
    requires c.Valid()
    modifies c
    ensures c.Valid() && c.View() == RunOn(old(c.View()), requests, c.decode)
    ensures |replies| == |requests|
    ensures forall i | 0 <= i < |requests| :: replies[i].Done? <==> !replies[i].Refused? && requests[i].saving.Saved?
  {
    replies := [];
    for i := 0 to |requests|
      invariant c.Valid() && c.View() == RunOn(old(c.View()), requests[..i], c.decode)
      invariant |replies| == i
      invariant forall k | 0 <= k < i :: replies[k].Done? <==> !replies[k].Refused? && requests[k].saving.Saved?
    {
      var reply := PerformNext(c, requests, i, old(c.View()));
      replies := replies + [reply];
    }
    assert requests[..|requests|] == requests;
  }

  /** A key of one line that starts neither with a blank nor with a bracket. */
  predicate Plain(k: string) {
    k != "" && '\n' !in k && !IsSpace(k[0]) && k[0] != '['
  }

  predicate PlainView(view: seq<Rec>) {
    forall i | 0 <= i < |view| :: Plain(view[i].key)
  }

  lemma StartsPlain(s: string)
    requires s != "" && !IsSpace(s[0]) && s[0] != '['
    ensures !LooksLikeArray(s)
  {
    var t := TrimSpace(s);
    assert TrimLeft(s, IsSpace) == s;
    TrimRightClips(s, IsSpace);
  }

  lemma PlainStorable(keys: seq<string>, decode: Decoder)
    requires forall i | 0 <= i < |keys| :: Plain(keys[i])
    ensures Storable(keys, decode)
  {
    if keys != [] {
      JoinEnds(keys, '\n');
      StartsPlain(Join(keys, '\n'));
      assert keys[0] != "" && keys[|keys| - 1] != "";
    }
  }

  /** The record with another status; enabling drops time and reason. */
  function Switched(rec: Rec, on: bool): Rec {
    if on then Rec(rec.key, 1, 0, "") else Rec(rec.key, 2, rec.time, rec.reason)
  }

  /** The operation on the list of records alone. Status 1 is enabled, 2 disabled by hand and 3 automatically; deleting
      all records enables them instead. */
  function ListAct(view: seq<Rec>, a: Action): seq<Rec> {
    match a
    case Disable(index) => seq(|view|, j requires 0 <= j < |view| =>
      if index == Given(j) then Switched(view[j], false) else view[j])
    case Enable(index) => seq(|view|, j requires 0 <= j < |view| =>
      if index == Given(j) then Switched(view[j], true) else view[j])
    case EnableAll => seq(|view|, j requires 0 <= j < |view| => Switched(view[j], true))
    case DisableAll => seq(|view|, j requires 0 <= j < |view| =>
      if view[j].status == 1 then Switched(view[j], false) else view[j])
    case Delete(index) => if Names(view, index) && |view| > 1 then view[..index.i] + view[index.i + 1..] else view
    case DeleteDisabled =>
      var rest := Remaining(view);
      if |rest| == |view| then view else if rest == [] then AllEnabled(view) else rest
  }

  /** The records without those of status 3, the enabled ones without time and reason. */
  function Remaining(view: seq<Rec>): seq<Rec> {
    if view == [] then []
    else
      var before, last := Remaining(view[..|view| - 1]), view[|view| - 1];
      if last.status == 3 then before else if last.status == 1 then before + [Switched(last, true)] else before + [last]
  }

  lemma {:induction false} SurvivorsRemain(view: seq<Rec>)
    ensures Survivors(view) == Remaining(view)
  {
    if view != [] {
      SurvivorsRemain(view[..|view| - 1]);
    }
  }

  /** Switching keys on and off is the operation on the list, whatever the keys. */
  lemma SwitchedAct(view: seq<Rec>, a: Action, decode: Decoder)
    requires !a.Delete? && !a.DeleteDisabled?
    ensures ActOn(view, a, decode) == ListAct(view, a)
  {
  }

  function ListAfter(view: seq<Rec>, r: Request): seq<Rec> {
    if r.saving.Rejected? then view else ListAct(view, r.action)
  }

  function ListRun(view: seq<Rec>, requests: seq<Request>): seq<Rec> {
    if requests == [] then view else ListAfter(ListRun(view, requests[..|requests| - 1]), requests[|requests| - 1])
  }

  lemma {:induction false} SurvivorsPlain(recs: seq<Rec>)
    requires PlainView(recs)
    ensures PlainView(Survivors(recs))
  {
    if recs != [] {
      SurvivorsPlain(recs[..|recs| - 1]);
    }
  }

  lemma PlainReread(view: seq<Rec>, rest: seq<Rec>, decode: Decoder)
    requires PlainView(rest) && |rest| < |view|
    ensures Reread(view, rest, decode) == if rest == [] then AllEnabled(view) else rest
  {
    PlainStorable(KeysOf(rest), decode);
    RereadIff(view, rest, decode);
  }

  lemma PlainAct(view: seq<Rec>, a: Action, decode: Decoder)
    requires PlainView(view)
    ensures ActOn(view, a, decode) == ListAct(view, a) && PlainView(ListAct(view, a))
  {
    if a.Delete? && Names(view, a.index) && |view| > 1 {
      PlainReread(view, Without(view, a.index.i), decode);
    } else if a.DeleteDisabled? {
      SurvivorsRemain(view);
      SurvivorsLength(view);
      SurvivorsPlain(view);
      if |Survivors(view)| < |view| {
        PlainReread(view, Survivors(view), decode);
      }
    } else if !a.Delete? {
      SwitchedAct(view, a, decode);
    }
  }

  /** With plain keys every run is the run of the list operations. */
  lemma {:induction false} PlainRun(view: seq<Rec>, requests: seq<Request>, decode: Decoder)
    requires PlainView(view)
    ensures RunOn(view, requests, decode) == ListRun(view, requests) && PlainView(ListRun(view, requests))
  {
    if requests != [] {
      var before := requests[..|requests| - 1];
      PlainRun(view, before, decode);
      PlainAct(ListRun(view, before), requests[|requests| - 1].action, decode);
    }
  }

  ghost predicate DatesWithin(info: Info, n: nat) {
    forall j | Dated(info, j) :: 0 <= j < n
  }

  /** A row with some keys, all of them plain, and no time or reason beyond them. */
  ghost predicate Tidy(row: Row, decode: Decoder) {
    var view := ViewOf(row, decode);
    ValidRow(row, decode) && view != [] && PlainView(view) && DatesWithin(row.info, |view|)
  }

  /** The list is as long as what a deletion keeps, and as before when that is nothing or nothing is deleted. */
  lemma ListActLength(view: seq<Rec>, a: Action)
    ensures var n := |Kept(view, a)|; |ListAct(view, a)| == if n == 0 then |view| else n
  {
    SurvivorsRemain(view);
    SurvivorsLength(view);
  }

  lemma TidyDates(view: seq<Rec>, info: Info, r: Request, info': Info, n: nat)
    requires DatesWithin(info, |view|) && DatesAfter(view, info, r, info')
    requires var kept := |Kept(view, r.action)|; n == if r.saving.Rejected? || kept == 0 then |view| else kept
    requires |Kept(view, r.action)| <= |view|
    ensures DatesWithin(info', n)
  {
  }

  /** A request on a tidy row does what it does to the list, and leaves nothing beyond it. */
  lemma TidyAfter(view: seq<Rec>, info: Info, r: Request, info': Info, decode: Decoder)
    requires view != [] && PlainView(view) && DatesWithin(info, |view|) && DatesAfter(view, info, r, info')
    ensures var view' := After(view, r, decode);
      view' == ListAfter(view, r) && view' != [] && PlainView(view') && DatesWithin(info', |view'|)
  {
    PlainAct(view, r.action, decode);
    ListActLength(view, r.action);
    assert |Kept(view, r.action)| <= |view| by { SurvivorsLength(view); }
    TidyDates(view, info, r, info', |ListAfter(view, r)|);
  }

  // ----- a failing input -----

  lemma ThreeKeysRead(decode: Decoder)
    ensures GetKeys("a\n\nb", decode) == ["a", "", "b"]
  {
    var keys := ["a", "", "b"];
    assert keys[1..] == ["", "b"] && ["", "b"][1..] == ["b"];
    assert Join(["b"], '\n') == "b" && Join(["", "b"], '\n') == "\nb" && Join(keys, '\n') == "a\n\nb";
    TrimClips("a\n\nb", IsSpace);
    assert !LooksLikeArray("a\n\nb");
    StorableIff(keys, decode);
  }

  lemma OneKeyRead(decode: Decoder)
    ensures GetKeys("\nb", decode) == ["b"]
  {
    assert "\nb"[1..] == "b";
    SplitPrefix("b", '\n', "");
    assert TrimSpace("\nb") == "b" && Trim("\nb", '\n') == "b" && Split("b", '\n') == ["b"];
  }

  /** With a blank key next to it, deleting one key takes two: the last of three, which was disabled, takes the place of
      the blank one and is enabled, and its time is left beyond the keys. */
  lemma DeletionTakesTwo(decode: Decoder)
    ensures var row := Row("a\n\nb", Info(3, map[2 := MANUALLY_DISABLED], map[2 := 5], map[]));
      && ValidRow(row, decode) &&
        ViewOf(row, decode) == [Rec("a", ENABLED, 0, ""), Rec("", ENABLED, 0, ""), Rec("b", MANUALLY_DISABLED, 5, "")]
      && Reread(ViewOf(row, decode), Without(ViewOf(row, decode), 0), decode) == [Rec("b", ENABLED, 0, "")]
  {
    ThreeKeysRead(decode);
    OneKeyRead(decode);
    var row := Row("a\n\nb", Info(3, map[2 := MANUALLY_DISABLED], map[2 := 5], map[]));
    var rest := Without(ViewOf(row, decode), 0);
    assert KeysOf(rest) == ["", "b"];
    assert Join(["", "b"], '\n') == "\nb" by {
      assert ["", "b"][1..] == ["b"] && Join(["b"], '\n') == "b";
    }
  }
}

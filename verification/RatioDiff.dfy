/**
  `buildDifferences` of controller/ratio_sync.go: the difference table between the local ratios and those of the
  upstream channels. Entries are collected model by model, then channels without any difference and entries
  without any difference are pruned. Floats are reals; an upstream value may be any scalar.
*/
module RatioDiff {
  import opened Common

  datatype RatioType = ModelRatio | CompletionRatio | CacheRatio | ModelPrice

  const RATIO_TYPES := [ModelRatio, CompletionRatio, CacheRatio, ModelPrice]

  function Position(ratio: RatioType): (u: nat)
    ensures u < |RATIO_TYPES| && RATIO_TYPES[u] == ratio
  {
    match ratio case ModelRatio => 0 case CompletionRatio => 1 case CacheRatio => 2 case ModelPrice => 3
  }

  datatype Value = Null | Num(v: real) | Str(s: string)

  const SAME := Str("same")

  /** Ratio type to model to value. */
  type Local = map<RatioType, map<string, real>>

  datatype Channel = Channel(name: string, data: map<RatioType, map<string, Value>>)

  datatype Item = Item(current: Value, upstreams: map<string, Value>, confidence: map<string, bool>)

  /** Model to ratio type to item. */
  type Diffs = map<string, map<RatioType, Item>>

  predicate ValuesEqual(a: Value, b: Value) {
    if a.Num? && b.Num? then NearlyEqual(a.v, b.v) else a == b
  }

  function LocalValue(local: Local, model: string, ratio: RatioType): Value {
    if ratio in local && model in local[ratio] then Num(local[ratio][model]) else Null
  }

  function Given(c: Channel, model: string, ratio: RatioType): Option<Value> {
    if ratio in c.data && model in c.data[ratio] then Some(c.data[ratio][model]) else None
  }

  /** What the table shows for a channel. */
  function Cell(current: Value, given: Option<Value>): Value {
    var shown := if given.None? then Null else if ValuesEqual(current, given.value) then SAME else given.value;
    if shown.Null? && current.Null? then SAME else shown
  }

  predicate Shows(cell: Value) {
    !cell.Null? && cell != SAME
  }

  /** Whether a channel makes the entry worth listing. */
  predicate Triggers(current: Value, given: Option<Value>) {
    given.Some? && (current.Null? || !ValuesEqual(current, given.value))
  }

  /** A price list that gives every model ratio 37.5 and completion ratio 1 is a placeholder. */
  predicate Trusted(c: Channel, model: string) {
    !(Given(c, model, ModelRatio) == Some(Num(37.5)) && Given(c, model, CompletionRatio) == Some(Num(1.0)))
  }

  // ----- the first pass, as a function: the last channel of a name wins -----

  function Cells(channels: seq<Channel>, current: Value, model: string, ratio: RatioType): map<string, Value> {
    if channels == [] then map[]
    else
      var c := channels[|channels| - 1];
      Cells(channels[..|channels| - 1], current, model, ratio)[c.name := Cell(current, Given(c, model, ratio))]
  }

  function Confidence(channels: seq<Channel>, model: string): map<string, bool> {
    if channels == [] then map[]
    else
      var c := channels[|channels| - 1];
      Confidence(channels[..|channels| - 1], model)[c.name := Trusted(c, model)]
  }

  predicate Included(channels: seq<Channel>, current: Value, model: string, ratio: RatioType) {
    channels != [] &&
    (Included(channels[..|channels| - 1], current, model, ratio) ||
      Triggers(current, Given(channels[|channels| - 1], model, ratio)))
  }

  function FirstEntry(local: Local, channels: seq<Channel>, model: string, ratio: RatioType): Option<Item> {
    var current := LocalValue(local, model, ratio);
    if Included(channels, current, model, ratio) then
      Some(Item(current, Cells(channels, current, model, ratio), Confidence(channels, model)))
    else None
  }

  function InRow(row: map<RatioType, Item>, ratio: RatioType): Option<Item> {
    if ratio in row then Some(row[ratio]) else None
  }

  function Entry(diffs: Diffs, model: string, ratio: RatioType): Option<Item> {
    if model in diffs then InRow(diffs[model], ratio) else None
  }

  /** No model is listed without an entry. */
  ghost predicate NoEmptyRows(diffs: Diffs) {
    forall model | model in diffs :: diffs[model] != map[]
  }

  /** One channel of the innermost loop: the cell, and the two flags it raises. */
  method ShowChannel(current: Value, given: Option<Value>)
      returns (shown: Value, hasUpstream: bool, hasDifference: bool)
    ensures shown == Cell(current, given)
    ensures Triggers(current, given) <==> if current.Null? then hasUpstream else hasDifference
    ensures hasUpstream <==> given.Some?
    ensures hasDifference <==>
      if current.Null? then Shows(shown) else given.Some? && !ValuesEqual(current, given.value)
  {
    shown, hasUpstream, hasDifference := Null, false, false;
    if given.Some? {
      shown, hasUpstream := given.value, true;
      if !current.Null? && !ValuesEqual(current, given.value) {
        hasDifference := true;
      } else if ValuesEqual(current, given.value) {
        shown := SAME;
      }
    }
    if shown.Null? && current.Null? {
      shown := SAME;
    }
    if current.Null? && Shows(shown) {
      hasDifference := true;
    }
  }

  lemma FoldStep(channels: seq<Channel>, i: nat, current: Value, model: string, ratio: RatioType)
    requires i < |channels|
    ensures var given := Given(channels[i], model, ratio);
      && Cells(channels[..i + 1], current, model, ratio) ==
        Cells(channels[..i], current, model, ratio)[channels[i].name := Cell(current, given)]
      && (Included(channels[..i + 1], current, model, ratio) <==>
        Included(channels[..i], current, model, ratio) || Triggers(current, given))
  {
    assert channels[..i + 1][..i] == channels[..i];
  }

  /** The confidence of each channel, copied for one entry. */
  method CopyConfidence(channels: seq<Channel>, confidence: map<string, bool>) returns (copy: map<string, bool>)
    requires confidence.Keys == NamesOf(channels)
    ensures copy == confidence
  {
    copy := map[];
    for i := 0 to |channels|
      invariant forall k | 0 <= k < i :: channels[k].name in copy
      invariant forall n | n in copy :: n in confidence && copy[n] == confidence[n]
    {
      assert channels[i] in channels;
      copy := copy[channels[i].name := confidence[channels[i].name]];
    }
    assert forall n | n in confidence :: n in copy;
  }

  /** One (model, ratio type) of the main loop. */
  method BuildItem(local: Local, channels: seq<Channel>, confidence: map<string, bool>, model: string, ratio: RatioType)
    returns (item: Option<Item>)
    requires confidence == Confidence(channels, model)
    ensures item == FirstEntry(local, channels, model, ratio)
  {
    var current := LocalValue(local, model, ratio);
    var upstreams: map<string, Value> := map[];
    var hasUpstream, hasDifference := false, false;
    for i := 0 to |channels|
      invariant upstreams == Cells(channels[..i], current, model, ratio)
      invariant Included(channels[..i], current, model, ratio) <==> if current.Null? then hasUpstream else hasDifference
    {
      FoldStep(channels, i, current, model, ratio);
      var shown, upstream, difference := ShowChannel(current, Given(channels[i], model, ratio));
      hasUpstream, hasDifference := hasUpstream || upstream, hasDifference || difference;
      upstreams := upstreams[channels[i].name := shown];
    }
    assert channels[..|channels|] == channels;
    ConfidenceKeys(channels, model);
    var confidences := CopyConfidence(channels, confidence);
    var shouldInclude := if current.Null? then hasUpstream else hasDifference;
    item := if shouldInclude then Some(Item(current, upstreams, confidences)) else None;
  }

  function NamesOf(channels: seq<Channel>): set<string> {
    set c | c in channels :: c.name
  }

  lemma {:induction false} CellsKeys(channels: seq<Channel>, current: Value, model: string, ratio: RatioType)
    ensures Cells(channels, current, model, ratio).Keys == NamesOf(channels)
  {
    if channels != [] {
      var before, c := channels[..|channels| - 1], channels[|channels| - 1];
      assert channels == before + [c];
      CellsKeys(before, current, model, ratio);
    }
  }

  lemma {:induction false} ConfidenceKeys(channels: seq<Channel>, model: string)
    ensures Confidence(channels, model).Keys == NamesOf(channels)
    ensures forall i | 0 <= i < |channels| :: channels[i].name in Confidence(channels, model)
  {
    if channels != [] {
      var before, c := channels[..|channels| - 1], channels[|channels| - 1];
      assert channels == before + [c];
      ConfidenceKeys(before, model);
    }
  }

  method ConfidenceFor(channels: seq<Channel>, model: string) returns (confidence: map<string, bool>)
    ensures confidence == Confidence(channels, model)
  {
    confidence := map[];
    for i := 0 to |channels|
      invariant confidence == Confidence(channels[..i], model)
    {
      assert channels[..i + 1][..i] == channels[..i];
      confidence := confidence[channels[i].name := Trusted(channels[i], model)];
    }
    assert channels[..|channels|] == channels;
  }

  /** All models either side knows. */
  method AllModels(local: Local, channels: seq<Channel>) returns (models: set<string>)
    ensures forall i, ratio, model | 0 <= i < |channels| && Given(channels[i], model, ratio).Some? :: model in models
  {
    models := {};
    for t := 0 to |RATIO_TYPES| {
      if RATIO_TYPES[t] in local {
        models := models + local[RATIO_TYPES[t]].Keys;
      }
    }
    for k := 0 to |channels|
      invariant forall i, ratio, model | 0 <= i < k && Given(channels[i], model, ratio).Some? :: model in models
    {
      for t := 0 to |RATIO_TYPES|
        invariant forall i, ratio, model | 0 <= i < k && Given(channels[i], model, ratio).Some? :: model in models
        invariant forall u, model | 0 <= u < t && Given(channels[k], model, RATIO_TYPES[u]).Some? :: model in models
      {
        if RATIO_TYPES[t] in channels[k].data {
          models := models + channels[k].data[RATIO_TYPES[t]].Keys;
        }
      }
      forall ratio, model | Given(channels[k], model, ratio).Some? ensures model in models {
        var u := Position(ratio);
      }
    }
  }

  lemma {:induction false} IncludedIff(channels: seq<Channel>, current: Value, model: string, ratio: RatioType)
    ensures Included(channels, current, model, ratio) <==>
      exists i | 0 <= i < |channels| :: Triggers(current, Given(channels[i], model, ratio))
  {
    if channels != [] {
      var n := |channels| - 1;
      IncludedIff(channels[..n], current, model, ratio);
      if Included(channels[..n], current, model, ratio) {
        var i :| 0 <= i < n && Triggers(current, Given(channels[..n][i], model, ratio));
        assert Triggers(current, Given(channels[i], model, ratio));
      }
      if i :| 0 <= i < n && Triggers(current, Given(channels[i], model, ratio)) {
        assert Triggers(current, Given(channels[..n][i], model, ratio));
      }
    }
  }

  method BuildRow(local: Local, channels: seq<Channel>, model: string) returns (row: map<RatioType, Item>)
    ensures forall ratio :: InRow(row, ratio) == FirstEntry(local, channels, model, ratio)
  {
    row := map[];
    var confidence := ConfidenceFor(channels, model);
    ghost var done: set<RatioType> := {};
    for t := 0 to |RATIO_TYPES|
      invariant forall u | 0 <= u < t :: RATIO_TYPES[u] in done
      invariant row.Keys <= done
      invariant forall ratio | ratio in done :: InRow(row, ratio) == FirstEntry(local, channels, model, ratio)
    {
      var item := BuildItem(local, channels, confidence, model, RATIO_TYPES[t]);
      if item.Some? {
        row := row[RATIO_TYPES[t] := item.value];
      }
      done := done + {RATIO_TYPES[t]};
    }
    forall ratio ensures InRow(row, ratio) == FirstEntry(local, channels, model, ratio) {
      var u := Position(ratio);
    }
  }

  /** The first pass over all models, in any order. */
  method Collect(local: Local, channels: seq<Channel>) returns (diffs: Diffs)
    ensures forall model, ratio :: Entry(diffs, model, ratio) == FirstEntry(local, channels, model, ratio)
    ensures NoEmptyRows(diffs)
  {
    diffs := map[];
    var models := AllModels(local, channels);
    var pending := models;
    while pending != {}
      invariant pending <= models && NoEmptyRows(diffs) && diffs.Keys !! pending
      invariant forall model, ratio | model !in pending && model in models ::
        Entry(diffs, model, ratio) == FirstEntry(local, channels, model, ratio)
      invariant forall model | model !in models :: model !in diffs
      decreases pending
    {
      var model :| model in pending;
      var row := BuildRow(local, channels, model);
      if |row| > 0 {
        diffs := diffs[model := row];
      }
      pending := pending - {model};
    }
    forall model, ratio | model !in models ensures FirstEntry(local, channels, model, ratio) == None {
      IncludedIff(channels, LocalValue(local, model, ratio), model, ratio);
    }
  }

  // ----- pruning -----

  function ShowingIn(item: Item): set<string> {
    set n | n in item.upstreams && Shows(item.upstreams[n])
  }

  /** The channel shows a difference somewhere in the table. */
  ghost predicate HasDiff(diffs: Diffs, name: string) {
    exists model, ratio | Entry(diffs, model, ratio).Some? :: name in ShowingIn(Entry(diffs, model, ratio).value)
  }

  /** An entry without its difference-free channels; gone when nothing but "same" is left. */
  function Pruned(item: Item, showing: set<string>): Option<Item> {
    var left := map n | n in item.upstreams && n in showing :: item.upstreams[n];
    if forall n | n in left :: left[n] == SAME then None
    else Some(Item(item.current, left, map n | n in item.confidence && n in showing :: item.confidence[n]))
  }

  function PrunedEntry(entry: Option<Item>, showing: set<string>): Option<Item> {
    if entry.None? then None else Pruned(entry.value, showing)
  }

  method RowShowing(row: map<RatioType, Item>) returns (names: set<string>)
    ensures forall n :: n in names <==> exists ratio | ratio in row :: n in ShowingIn(row[ratio])
  {
    names := {};
    var pending := row.Keys;
    while pending != {}
      invariant pending <= row.Keys
      invariant forall n :: n in names <==>
        exists ratio | ratio in row && ratio !in pending :: n in ShowingIn(row[ratio])
      decreases pending
    {
      var ratio :| ratio in pending;
      names := names + ShowingIn(row[ratio]);
      pending := pending - {ratio};
    }
  }

  /** The second pass: the channels that show a difference. */
  method ChannelsWithDiff(diffs: Diffs) returns (names: set<string>)
    ensures forall n :: n in names <==> HasDiff(diffs, n)
  {
    names := {};
    var pending := diffs.Keys;
    while pending != {}
      invariant pending <= diffs.Keys
      invariant forall n :: n in names <==>
        exists model, ratio | model !in pending && Entry(diffs, model, ratio).Some? ::
          n in ShowingIn(Entry(diffs, model, ratio).value)
      decreases pending
    {
      var model :| model in pending;
      var more := RowShowing(diffs[model]);
      forall n ensures n in more <==>
        exists ratio | Entry(diffs, model, ratio).Some? :: n in ShowingIn(Entry(diffs, model, ratio).value) {
        if n in more {
          var ratio :| ratio in diffs[model] && n in ShowingIn(diffs[model][ratio]);
          assert Entry(diffs, model, ratio).Some?;
        }
      }
      names := names + more;
      pending := pending - {model};
    }
  }

  method PruneRow(row: map<RatioType, Item>, showing: set<string>) returns (r: map<RatioType, Item>)
    ensures forall ratio :: InRow(r, ratio) == PrunedEntry(InRow(row, ratio), showing)
  {
    r := row;
    var pending := row.Keys;
    while pending != {}
      invariant pending <= row.Keys
      invariant forall ratio :: InRow(r, ratio) == if ratio in pending then InRow(row, ratio)
        else PrunedEntry(InRow(row, ratio), showing)
      decreases pending
    {
      var ratio :| ratio in pending;
      var item := Pruned(row[ratio], showing);
      if item.None? {
        r := r - {ratio};
      } else {
        r := r[ratio := item.value];
      }
      pending := pending - {ratio};
    }
  }

  /** The third pass. */
  method Prune(diffs: Diffs, showing: set<string>) returns (r: Diffs)
    ensures forall model, ratio :: Entry(r, model, ratio) == PrunedEntry(Entry(diffs, model, ratio), showing)
    ensures NoEmptyRows(diffs) ==> NoEmptyRows(r)
  {
    r := diffs;
    var pending := diffs.Keys;
    while pending != {}
      invariant pending <= diffs.Keys && (NoEmptyRows(diffs) ==> NoEmptyRows(r))
      invariant forall model | model in pending :: model in r && r[model] == diffs[model]
      invariant forall model, ratio | model !in pending ::
        Entry(r, model, ratio) == PrunedEntry(Entry(diffs, model, ratio), showing)
      decreases pending
    {
      var model :| model in pending;
      var row := PruneRow(diffs[model], showing);
      r := if |row| == 0 then r - {model} else r[model := row];
      pending := pending - {model};
    }
  }

  // ----- the whole table -----

  /** The channel name shows a difference in some entry of the first pass. */
  ghost predicate ShowsSomewhere(local: Local, channels: seq<Channel>, name: string) {
    exists model, ratio | FirstEntry(local, channels, model, ratio).Some? ::
      name in ShowingIn(FirstEntry(local, channels, model, ratio).value)
  }

  ghost function Showing(local: Local, channels: seq<Channel>): set<string> {
    set n | n in NamesOf(channels) && ShowsSomewhere(local, channels, n)
  }

  ghost function FinalEntry(local: Local, channels: seq<Channel>, model: string, ratio: RatioType): Option<Item> {
    PrunedEntry(FirstEntry(local, channels, model, ratio), Showing(local, channels))
  }

  method BuildDifferences(local: Local, channels: seq<Channel>) returns (r: Diffs)
    ensures forall model, ratio :: Entry(r, model, ratio) == FinalEntry(local, channels, model, ratio)
    ensures NoEmptyRows(r)
  {
    var diffs := Collect(local, channels);
    var showing := ChannelsWithDiff(diffs);
    r := Prune(diffs, showing);
    forall n ensures n in showing <==> n in Showing(local, channels) {
      if n in showing {
        var model, ratio :| Entry(diffs, model, ratio).Some? && n in ShowingIn(Entry(diffs, model, ratio).value);
        assert FirstEntry(local, channels, model, ratio) == Entry(diffs, model, ratio);
        CellsKeys(channels, LocalValue(local, model, ratio), model, ratio);
      }
    }
    assert showing == Showing(local, channels);
  }

  // ----- what the table means -----

  ghost predicate DistinctNames(channels: seq<Channel>) {
    forall i, j | 0 <= i < j < |channels| :: channels[i].name != channels[j].name
  }

  ghost predicate Numeric(channels: seq<Channel>) {
    forall c, model, ratio | c in channels && Given(c, model, ratio).Some? :: Given(c, model, ratio).value.Num?
  }

  /** The channel has a value with no local counterpart, or one that differs from it by at least `EPSILON`. */
  predicate RealDifference(local: Local, c: Channel, model: string, ratio: RatioType) {
    var given := Given(c, model, ratio);
    given.Some? && given.value.Num? &&
    (ratio !in local || model !in local[ratio] ||
     (var d := given.value.v - local[ratio][model]; d >= EPSILON || -d >= EPSILON))
  }

  /** The channel does not agree with the local value: it differs from it, or is silent about it. */
  predicate Unlike(local: Local, c: Channel, model: string, ratio: RatioType) {
    RealDifference(local, c, model, ratio) || (LocalValue(local, model, ratio).Num? && Given(c, model, ratio).None?)
  }

  ghost predicate DiffersSomewhere(local: Local, c: Channel) {
    exists model, ratio :: RealDifference(local, c, model, ratio)
  }

  /** No later channel has the name. */
  ghost predicate LastOfName(channels: seq<Channel>, i: int) {
    0 <= i < |channels| && forall j | i < j < |channels| :: channels[j].name != channels[i].name
  }

  /** Every name has a last channel. */
  lemma {:induction false} NameHasLast(channels: seq<Channel>, name: string) returns (i: nat)
    requires name in NamesOf(channels)
    ensures LastOfName(channels, i) && channels[i].name == name
  {
    var n := |channels| - 1;
    if channels[n].name == name {
      i := n;
    } else {
      i := NameHasLast(channels[..n], name);
      assert forall j | i < j < n :: channels[..n][j].name != name;
    }
  }

  /** The last channel of a name is the one the table shows. */
  lemma {:induction false} CellsAt(channels: seq<Channel>, current: Value, model: string, ratio: RatioType, i: nat)
    requires LastOfName(channels, i)
    ensures var cells := Cells(channels, current, model, ratio);
      channels[i].name in cells && cells[channels[i].name] == Cell(current, Given(channels[i], model, ratio))
  {
    if i < |channels| - 1 {
      CellsAt(channels[..|channels| - 1], current, model, ratio, i);
    }
  }

  lemma {:induction false} ConfidenceAt(channels: seq<Channel>, model: string, i: nat)
    requires LastOfName(channels, i)
    ensures var known := Confidence(channels, model);
      channels[i].name in known && known[channels[i].name] == Trusted(channels[i], model)
  {
    if i < |channels| - 1 {
      ConfidenceAt(channels[..|channels| - 1], model, i);
    }
  }

  /** The channel lists the placeholder for a model. */
  predicate Placeholder(c: Channel, model: string) {
    && ModelRatio in c.data && model in c.data[ModelRatio] && c.data[ModelRatio][model] == Num(37.5)
    && CompletionRatio in c.data && model in c.data[CompletionRatio] && c.data[CompletionRatio][model] == Num(1.0)
  }

  /** For numeric values a cell shows exactly the real differences, and these are what gets an entry included. */
  lemma CellMeaning(local: Local, channels: seq<Channel>, i: nat, model: string, ratio: RatioType)
    requires Numeric(channels) && i < |channels|
    ensures var current := LocalValue(local, model, ratio); var c := channels[i];
      && (Triggers(current, Given(c, model, ratio)) <==> RealDifference(local, c, model, ratio))
      && (Shows(Cell(current, Given(c, model, ratio))) <==> RealDifference(local, c, model, ratio))
      && (Cell(current, Given(c, model, ratio)) != SAME <==> Unlike(local, c, model, ratio))
  {
    assert channels[i] in channels;
  }

  /** A name shows a difference somewhere exactly when its last channel really differs somewhere. */
  lemma ShowsIffDiffers(local: Local, channels: seq<Channel>, i: nat)
    requires Numeric(channels) && LastOfName(channels, i)
    ensures channels[i].name in Showing(local, channels) <==> DiffersSomewhere(local, channels[i])
  {
    var c := channels[i];
    assert c in channels;
    forall model, ratio ensures RealDifference(local, c, model, ratio) <==>
      var e := FirstEntry(local, channels, model, ratio); e.Some? && c.name in ShowingIn(e.value)
    {
      var current := LocalValue(local, model, ratio);
      CellMeaning(local, channels, i, model, ratio);
      IncludedIff(channels, current, model, ratio);
      CellsAt(channels, current, model, ratio, i);
    }
    if DiffersSomewhere(local, c) {
      var model, ratio :| RealDifference(local, c, model, ratio);
      assert FirstEntry(local, channels, model, ratio).Some?;
      assert ShowsSomewhere(local, channels, c.name);
    }
  }

  lemma PruneKeeps(item: Item, showing: set<string>, n: string)
    requires n in item.upstreams && n in showing && item.upstreams[n] != SAME
    ensures Pruned(item, showing).Some?
  {
    var left := map m | m in item.upstreams && m in showing :: item.upstreams[m];
    assert n in left && left[n] != SAME;
  }

  /** A listed channel that keeps the entry from being pruned: the last of its name, differing somewhere and not
      agreeing here. */
  ghost predicate Holds(local: Local, channels: seq<Channel>, model: string, ratio: RatioType, j: int) {
    LastOfName(channels, j) && DiffersSomewhere(local, channels[j]) && Unlike(local, channels[j], model, ratio)
  }

  lemma IncludedIffDiffers(local: Local, channels: seq<Channel>, model: string, ratio: RatioType)
    requires Numeric(channels)
    ensures FirstEntry(local, channels, model, ratio).Some? <==>
      exists i | 0 <= i < |channels| :: RealDifference(local, channels[i], model, ratio)
  {
    var current := LocalValue(local, model, ratio);
    IncludedIff(channels, current, model, ratio);
    forall i | 0 <= i < |channels|
      ensures Triggers(current, Given(channels[i], model, ratio)) <==> RealDifference(local, channels[i], model, ratio)
    {
      CellMeaning(local, channels, i, model, ratio);
    }
  }

  lemma PrunedIffNoneHolds(local: Local, channels: seq<Channel>, model: string, ratio: RatioType)
    requires Numeric(channels) && FirstEntry(local, channels, model, ratio).Some?
    ensures FinalEntry(local, channels, model, ratio).Some? <==> exists j :: Holds(local, channels, model, ratio, j)
  {
    var current, item := LocalValue(local, model, ratio), FirstEntry(local, channels, model, ratio).value;
    if j :| Holds(local, channels, model, ratio, j) {
      CellMeaning(local, channels, j, model, ratio);
      CellsAt(channels, current, model, ratio, j);
      ShowsIffDiffers(local, channels, j);
      PruneKeeps(item, Showing(local, channels), channels[j].name);
    }
    if FinalEntry(local, channels, model, ratio).Some? {
      var n :| n in item.upstreams && n in Showing(local, channels) && item.upstreams[n] != SAME;
      var j := NameHasLast(channels, n);
      CellMeaning(local, channels, j, model, ratio);
      CellsAt(channels, current, model, ratio, j);
      ShowsIffDiffers(local, channels, j);
      assert Holds(local, channels, model, ratio, j);
    }
  }

  /** The exact meaning for every list of numeric channels: (model, ratio type) is kept exactly when some channel really
      differs there, and the last channel of some name differs somewhere and does not agree there. */
  lemma KeptIff(local: Local, channels: seq<Channel>, model: string, ratio: RatioType)
    requires Numeric(channels)
    ensures FinalEntry(local, channels, model, ratio).Some? <==>
      && (exists i | 0 <= i < |channels| :: RealDifference(local, channels[i], model, ratio))
      && exists j :: Holds(local, channels, model, ratio, j)
  {
    IncludedIffDiffers(local, channels, model, ratio);
    if FirstEntry(local, channels, model, ratio).Some? {
      PrunedIffNoneHolds(local, channels, model, ratio);
    }
  }

  /** With distinct names this is the one-line specification: some channel really differs there. */
  lemma KeptIffRealDifference(local: Local, channels: seq<Channel>, model: string, ratio: RatioType)
    requires DistinctNames(channels) && Numeric(channels)
    ensures FinalEntry(local, channels, model, ratio).Some? <==>
      exists i | 0 <= i < |channels| :: RealDifference(local, channels[i], model, ratio)
  {
    KeptIff(local, channels, model, ratio);
    if i :| 0 <= i < |channels| && RealDifference(local, channels[i], model, ratio) {
      assert Holds(local, channels, model, ratio, i);
    }
  }

  /** Each listed channel comes with whether it can be trusted: not where it lists the placeholder. */
  lemma ListedConfidence(local: Local, channels: seq<Channel>, model: string, ratio: RatioType, i: nat)
    requires LastOfName(channels, i) && FinalEntry(local, channels, model, ratio).Some?
    ensures var known, c := FinalEntry(local, channels, model, ratio).value.confidence, channels[i];
      c.name in known ==> (known[c.name] <==> !Placeholder(c, model))
  {
    ConfidenceAt(channels, model, i);
  }

  /** In every kept entry exactly the names whose last channel really differs somewhere are listed, each with that
      channel's value, or "same" where it agrees, or nothing where it is silent about a local value. */
  lemma ListedChannels(local: Local, channels: seq<Channel>, model: string, ratio: RatioType, i: nat)
    requires Numeric(channels) && LastOfName(channels, i)
    requires FinalEntry(local, channels, model, ratio).Some?
    ensures var item := FinalEntry(local, channels, model, ratio).value; var c := channels[i];
      && item.current == LocalValue(local, model, ratio)
      && item.confidence.Keys == item.upstreams.Keys <= NamesOf(channels)
      && (c.name in item.upstreams <==> DiffersSomewhere(local, c))
      && (c.name in item.upstreams ==>
            item.upstreams[c.name] ==
            if RealDifference(local, c, model, ratio) then Given(c, model, ratio).value
            else if item.current.Num? && Given(c, model, ratio).None? then Null else SAME)
  {
    var current := LocalValue(local, model, ratio);
    CellMeaning(local, channels, i, model, ratio);
    CellsAt(channels, current, model, ratio, i);
    CellsKeys(channels, current, model, ratio);
    ConfidenceKeys(channels, model);
    ShowsIffDiffers(local, channels, i);
    assert channels[i] in channels;
  }

  /** Channels may share a name, and then a real difference can get lost: here the later of two says nothing at all. */
  lemma SharedNameHidesDifference()
    ensures exists local, channels, model, ratio, i ::
      Numeric(channels) && 0 <= i < |channels| && RealDifference(local, channels[i], model, ratio) &&
      FinalEntry(local, channels, model, ratio).None?
  {
    var local: Local := map[];
    var channels := [Channel("x", map[ModelRatio := map["m" := Num(2.0)]]), Channel("x", map[])];
    KeptIff(local, channels, "m", ModelRatio);
    assert RealDifference(local, channels[0], "m", ModelRatio);
    assert !LastOfName(channels, 0) by {
      assert channels[1].name == channels[0].name;
    }
  }
}

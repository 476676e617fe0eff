/**
  Reconciliation of a channel's model list with its upstream (controller/channel_upstream_update.go):
  ordered-set algebra over trimmed names, and the two-step protocol of detecting pending changes and
  applying a selection of them. Regular-expression matching is a parameter.
*/
module ModelReconcile {
  import opened Names
  import opened Text

  // ----- ordered sets of names -----

  function NormalizeModelNames(models: seq<string>): seq<string> {
    Uniq(Clean(models))
  }

  function SubtractModelNames(base: seq<string>, removed: seq<string>): seq<string> {
    var names := NormalizeModelNames(base);
    Keep(names, Elements(names) - Elements(NormalizeModelNames(removed)))
  }

  function IntersectModelNames(base: seq<string>, allowed: seq<string>): seq<string> {
    Keep(NormalizeModelNames(base), Elements(NormalizeModelNames(allowed)))
  }

  /** What `mergeModelNames` computes: the names of both lists in order of first occurrence. */
  function Merged(base: seq<string>, appended: seq<string>): seq<string> {
    Uniq(Clean(base) + Clean(appended))
  }

  /** Add wins when a name is in both selected lists. */
  function ApplySelectedModelChanges(origin: seq<string>, add: seq<string>, remove: seq<string>): seq<string> {
    var normalizedAdd := NormalizeModelNames(add);
    var normalizedRemove := SubtractModelNames(NormalizeModelNames(remove), normalizedAdd);
    SubtractModelNames(Merged(origin, normalizedAdd), normalizedRemove)
  }

  /** What every list the protocol stores looks like. */
  predicate Normal(names: seq<string>) {
    Distinct(names) && forall n | n in names :: IsName(n)
  }

  /** Normalisation gives a normal list and leaves normal lists alone. */
  lemma NormalizeNormal(models: seq<string>)
    ensures Normal(NormalizeModelNames(models))
    ensures Normal(models) ==> NormalizeModelNames(models) == models
    ensures forall n :: n in NormalizeModelNames(models) <==> n in Clean(models)
  {
    CleanNames(models);
    UniqNames(Clean(models));
  }

  lemma SubtractNames(base: seq<string>, removed: seq<string>)
    ensures Normal(SubtractModelNames(base, removed))
    ensures forall n :: n in SubtractModelNames(base, removed) <==>
      n in NormalizeModelNames(base) && n !in NormalizeModelNames(removed)
  {
    NormalizeNormal(base);
    var names := NormalizeModelNames(base);
    KeepNames(names, Elements(names) - Elements(NormalizeModelNames(removed)));
    KeepDistinct(names, Elements(names) - Elements(NormalizeModelNames(removed)));
  }

  lemma IntersectNames(base: seq<string>, allowed: seq<string>)
    ensures Normal(IntersectModelNames(base, allowed))
    ensures forall n :: n in IntersectModelNames(base, allowed) <==>
      n in NormalizeModelNames(base) && n in NormalizeModelNames(allowed)
    ensures Normal(base) && Normal(allowed) && (forall n | n in base :: n in allowed) ==>
      IntersectModelNames(base, allowed) == base
  {
    NormalizeNormal(base);
    NormalizeNormal(allowed);
    KeepNames(NormalizeModelNames(base), Elements(NormalizeModelNames(allowed)));
    KeepDistinct(NormalizeModelNames(base), Elements(NormalizeModelNames(allowed)));
  }

  lemma MergedNames(base: seq<string>, appended: seq<string>)
    ensures Normal(Merged(base, appended))
    ensures forall n :: n in Merged(base, appended) <==>
      n in NormalizeModelNames(base) || n in NormalizeModelNames(appended)
  {
    NormalizeNormal(base);
    NormalizeNormal(appended);
    CleanNames(base);
    CleanNames(appended);
    UniqNames(Clean(base) + Clean(appended));
  }

  lemma MergedIsUniq(origin: seq<string>, add: seq<string>)
    ensures Merged(origin, NormalizeModelNames(add)) == Uniq(Clean(origin) + Clean(add))
  {
    NormalizeNormal(add);
    CleanNames(NormalizeModelNames(add));
    UniqAbsorbs(Clean(origin), Clean(add));
  }

  lemma RemovedNames(add: seq<string>, remove: seq<string>)
    ensures var r := SubtractModelNames(NormalizeModelNames(remove), NormalizeModelNames(add));
      Normal(r) && Elements(r) == Elements(Clean(remove)) - Elements(Clean(add))
  {
    var a, r := NormalizeModelNames(add), NormalizeModelNames(remove);
    NormalizeNormal(add);
    NormalizeNormal(a);
    NormalizeNormal(remove);
    NormalizeNormal(r);
    SubtractNames(r, a);
  }

  /** The new model list: the origin's names and then the added ones, each once and in order of first
      occurrence, without the names removed and not added. */
  lemma SelectedChanges(origin: seq<string>, add: seq<string>, remove: seq<string>)
    ensures var next, all := ApplySelectedModelChanges(origin, add, remove), Clean(origin) + Clean(add);
      && next == Keep(Uniq(all), Elements(all) - (Elements(Clean(remove)) - Elements(Clean(add))))
      && Normal(next)
  {
    var all := Clean(origin) + Clean(add);
    var r := SubtractModelNames(NormalizeModelNames(remove), NormalizeModelNames(add));
    var merged := Merged(origin, NormalizeModelNames(add));
    MergedIsUniq(origin, add);
    RemovedNames(add, remove);
    assert Normal(merged) by { MergedNames(origin, NormalizeModelNames(add)); }
    assert NormalizeModelNames(merged) == merged by { NormalizeNormal(merged); }
    assert NormalizeModelNames(r) == r by { NormalizeNormal(r); }
    assert Normal(SubtractModelNames(merged, r)) by { SubtractNames(merged, r); }
    assert Elements(merged) == Elements(all) by { UniqNames(all); }
  }

  method MergeModelNames(base: seq<string>, appended: seq<string>) returns (merged: seq<string>)
    ensures merged == Merged(base, appended)
  {
    merged := NormalizeModelNames(base);
    var seen := Elements(merged);
    var names := NormalizeModelNames(appended);
    assert Clean(base) + names[..0] == Clean(base);
    for i := 0 to |names|
      invariant seen == Elements(merged)
      invariant merged == Uniq(Clean(base) + names[..i])
    {
      UniqStep(Clean(base), names, i);
      if names[i] !in seen {
        ElementsAppend(merged, names[i]);
        seen := seen + {names[i]};
        merged := merged + [names[i]];
      }
    }
    assert names[..|names|] == names;
    UniqAbsorbs(Clean(base), Clean(appended));
  }

  // ----- the protocol -----

  /** Whether a pattern matches a name; a pattern that does not compile matches nothing. */
  type Regex = (string, string) -> bool

  const REGEX := "regex:"

  /** One ignore rule: `regex:` and a pattern, or a name. */
  predicate RuleCovers(rule: string, name: string, regex: Regex) {
    if REGEX <= rule then regex(TrimSpace(rule[|REGEX|..]), name) else rule == name
  }

  /** A rule that starts with `regex:` goes by the rest of it, any other is a name. */
  lemma RuleLaw(rule: string, name: string, regex: Regex)
    ensures (|rule| >= 6 && rule[..6] == "regex:" ==>
      (RuleCovers(rule, name, regex) <==> regex(TrimSpace(rule[6..]), name)))
    ensures (|rule| < 6 || rule[..6] != "regex:" ==> (RuleCovers(rule, name, regex) <==> rule == name))
  {
  }

  predicate Ignored(name: string, rules: seq<string>, regex: Regex) {
    exists r | r in NormalizeModelNames(rules) :: RuleCovers(r, name, regex)
  }

  /** The pending additions and removals. A redirect target counts as present, a redirect source is virtual. */
  function CollectPending(local: seq<string>, upstream: seq<string>, ignored: seq<string>, mapping: map<string, string>,
      regex: Regex): (seq<string>, seq<string>) {
    var l, u := NormalizeModelNames(local), NormalizeModelNames(upstream);
    var add := Keep(u, set n | n in u && n !in l && n !in mapping.Values && !Ignored(n, ignored, regex));
    var remove := Keep(l, set n | n in l && n !in mapping.Keys && n !in u);
    (NormalizeModelNames(add), NormalizeModelNames(remove))
  }

  /** The stored settings: the ignore rules and the pending changes last detected. */
  datatype Settings = Settings(ignored: seq<string>, detected: seq<string>, removed: seq<string>)

  /** The part of a channel row the protocol works on; `mapping` is the normalised model mapping. */
  datatype Row = Row(models: string, mapping: map<string, string>, settings: Settings)

  /** `Channel.GetModels`. */
  function GetModels(models: string): seq<string> {
    if models == "" then [] else Split(Trim(models, ','), ',')
  }

  function Local(row: Row): seq<string> {
    NormalizeModelNames(GetModels(row.models))
  }

  function Pending(row: Row, upstream: seq<string>, regex: Regex): (seq<string>, seq<string>) {
    CollectPending(GetModels(row.models), upstream, row.settings.ignored, row.mapping, regex)
  }

  /** `checkAndPersistChannelUpstreamModelUpdates` after a successful fetch; `auto` is whether additions are
      taken over at once. */
  function Detect(row: Row, upstream: seq<string>, auto: bool, regex: Regex): Row {
    var (add, remove) := Pending(row, upstream, regex);
    if auto && add != [] then
      var merged := Merged(Local(row), add);
      row.(models := if |merged| > |Local(row)| then Join(merged, ',') else row.models,
           settings := row.settings.(detected := [], removed := remove))
    else row.(settings := row.settings.(detected := add, removed := remove))
  }

  /** What a check stores as pending: the removals, and the additions unless they were taken over. */
  lemma StoredPending(row: Row, upstream: seq<string>, auto: bool, regex: Regex)
    ensures var row', (add, remove) := Detect(row, upstream, auto, regex), Pending(row, upstream, regex);
      && row'.settings == Settings(row.settings.ignored, if auto then [] else add, remove)
      && row'.mapping == row.mapping && (!auto || add == [] ==> row'.models == row.models)
  {
  }

  /** What `applyChannelUpstreamModelUpdates` reports. */
  datatype Outcome = Outcome(added: seq<string>, removed: seq<string>, remaining: seq<string>,
      remainingRemove: seq<string>)

  function Select(row: Row, add: seq<string>, ignore: seq<string>, remove: seq<string>): Outcome {
    var pendingAdd, pendingRemove :=
      NormalizeModelNames(row.settings.detected), NormalizeModelNames(row.settings.removed);
    var a, i := IntersectModelNames(add, pendingAdd), IntersectModelNames(ignore, pendingAdd);
    var r := SubtractModelNames(IntersectModelNames(remove, pendingRemove), a);
    Outcome(a, r, SubtractModelNames(pendingAdd, a + i), SubtractModelNames(pendingRemove, r))
  }

  function Apply(row: Row, add: seq<string>, ignore: seq<string>, remove: seq<string>): Row {
    var o := Select(row, add, ignore, remove);
    var i := IntersectModelNames(ignore, NormalizeModelNames(row.settings.detected));
    var next := ApplySelectedModelChanges(Local(row), o.added, o.removed);
    var ignored := Merged(row.settings.ignored, i);
    Row(
      if next != Local(row) then Join(next, ',') else row.models,
      row.mapping,
      Settings(if o.added != [] then SubtractModelNames(ignored, o.added) else ignored, o.remaining, o.remainingRemove))
  }

  /** `ApplyAllChannelUpstreamModelUpdates` on one channel. */
  function ApplyAll(row: Row): Row {
    Apply(row, NormalizeModelNames(row.settings.detected), [], NormalizeModelNames(row.settings.removed))
  }

  /** Whatever is requested, each pending addition is added, or ignored and not added, or remains; each pending
      removal is removed or remains; nothing else is reported; and an added name is no longer ignored. */
  lemma ApplyPartitions(row: Row, add: seq<string>, ignore: seq<string>, remove: seq<string>, n: string)
    ensures var o := Select(row, add, ignore, remove);
      var added, ignored, remains := n in o.added, n in NormalizeModelNames(ignore) && n !in o.added, n in o.remaining;
      && (n in NormalizeModelNames(row.settings.detected) ==>
            (added || ignored || remains) && !(added && ignored) && !(added && remains) && !(ignored && remains))
      && (n !in NormalizeModelNames(row.settings.detected) ==> !added && !remains)
      && (n in NormalizeModelNames(row.settings.removed) <==> n in o.removed || n in o.remainingRemove)
      && !(n in o.removed && n in o.remainingRemove) && !(added && n in o.removed)
  {
    var pendingAdd, pendingRemove :=
      NormalizeModelNames(row.settings.detected), NormalizeModelNames(row.settings.removed);
    var a, i := IntersectModelNames(add, pendingAdd), IntersectModelNames(ignore, pendingAdd);
    var r := IntersectModelNames(remove, pendingRemove);
    NormalizeNormal(row.settings.detected);
    NormalizeNormal(row.settings.removed);
    NormalizeNormal(pendingAdd);
    NormalizeNormal(pendingRemove);
    IntersectNames(add, pendingAdd);
    IntersectNames(ignore, pendingAdd);
    IntersectNames(remove, pendingRemove);
    NormalizeNormal(a);
    NormalizeNormal(r);
    SubtractNames(r, a);
    NormalizeNormal(SubtractModelNames(r, a));
    SubtractNames(pendingRemove, SubtractModelNames(r, a));
    NormalizeNormal(a + i);
    CleanNames(a + i);
    SubtractNames(pendingAdd, a + i);
  }

  predicate IsAdded(row: Row, add: seq<string>, n: string) {
    n in NormalizeModelNames(add) && n in NormalizeModelNames(row.settings.detected)
  }

  predicate IsRemoved(row: Row, add: seq<string>, remove: seq<string>, n: string) {
    n in NormalizeModelNames(remove) && n in NormalizeModelNames(row.settings.removed) && !IsAdded(row, add, n)
  }

  /** Name by name in terms of the request: what was asked for and is pending is added or removed, added if both, and
      what was neither added nor asked to be ignored stays pending. */
  lemma SelectedNames(row: Row, add: seq<string>, ignore: seq<string>, remove: seq<string>, n: string)
    ensures var o := Select(row, add, ignore, remove);
      && (n in o.added <==> IsAdded(row, add, n))
      && (n in o.removed <==> IsRemoved(row, add, remove, n))
      && (n in o.remaining <==> n in NormalizeModelNames(row.settings.detected) &&
                                n !in NormalizeModelNames(add) && n !in NormalizeModelNames(ignore))
      && (n in o.remainingRemove <==> n in NormalizeModelNames(row.settings.removed) && !IsRemoved(row, add, remove, n))
  {
    var pendingAdd, pendingRemove :=
      NormalizeModelNames(row.settings.detected), NormalizeModelNames(row.settings.removed);
    var a, r := IntersectModelNames(add, pendingAdd), IntersectModelNames(remove, pendingRemove);
    NormalizeNormal(row.settings.detected);
    NormalizeNormal(row.settings.removed);
    NormalizeNormal(pendingAdd);
    NormalizeNormal(pendingRemove);
    IntersectNames(add, pendingAdd);
    IntersectNames(remove, pendingRemove);
    NormalizeNormal(a);
    NormalizeNormal(r);
    SubtractNames(r, a);
    ApplyPartitions(row, add, ignore, remove, n);
  }

  /** The ignore rules after applying: old and newly ignored names, without the added ones. */
  lemma IgnoredAfterApply(row: Row, add: seq<string>, ignore: seq<string>, remove: seq<string>, n: string)
    ensures n in NormalizeModelNames(Apply(row, add, ignore, remove).settings.ignored) <==>
      && (n in NormalizeModelNames(row.settings.ignored) ||
          (n in NormalizeModelNames(ignore) && n in NormalizeModelNames(row.settings.detected)))
      && n !in Select(row, add, ignore, remove).added
  {
    var pendingAdd := NormalizeModelNames(row.settings.detected);
    var a, i := IntersectModelNames(add, pendingAdd), IntersectModelNames(ignore, pendingAdd);
    var ignored := Merged(row.settings.ignored, i);
    NormalizeNormal(row.settings.detected);
    NormalizeNormal(pendingAdd);
    IntersectNames(add, pendingAdd);
    IntersectNames(ignore, pendingAdd);
    NormalizeNormal(a);
    NormalizeNormal(i);
    MergedNames(row.settings.ignored, i);
    NormalizeNormal(ignored);
    SubtractNames(ignored, a);
    NormalizeNormal(SubtractModelNames(ignored, a));
  }

  predicate CommaFree(names: seq<string>) {
    forall n | n in names :: ',' !in n
  }

  lemma LocalIsCommaFree(row: Row)
    ensures CommaFree(Local(row)) && Normal(Local(row))
  {
    var models := GetModels(row.models);
    NormalizeNormal(models);
    CleanNames(models);
    forall n | n in Local(row) ensures ',' !in n {
      var m :| m in models && TrimSpace(m) == n;
      TrimSpaceOnce(m);
    }
  }

  /** A normal list survives being stored as comma-separated text exactly when no name contains a comma. */
  lemma ReadBack(row: Row, names: seq<string>)
    requires Normal(names) && row.models == Join(names, ',')
    ensures Local(row) == names <==> CommaFree(names)
  {
    LocalIsCommaFree(row);
    if CommaFree(names) && names != [] {
      JoinEnds(names, ',');
      assert names[0] in names && names[|names| - 1] in names;
      SplitOfTrimOfJoin(names, ',');
      NormalizeNormal(names);
    }
  }

  /** The stored list is the selected one exactly when no added name contains a comma. */
  lemma ModelsAfterApply(row: Row, add: seq<string>, ignore: seq<string>, remove: seq<string>)
    ensures var o := Select(row, add, ignore, remove);
      Local(Apply(row, add, ignore, remove)) == ApplySelectedModelChanges(Local(row), o.added, o.removed) <==>
        CommaFree(o.added)
  {
    var o := Select(row, add, ignore, remove);
    var row' := Apply(row, add, ignore, remove);
    var next := ApplySelectedModelChanges(Local(row), o.added, o.removed);
    LocalIsCommaFree(row);
    LocalIsCommaFree(row');
    IntersectNames(add, NormalizeModelNames(row.settings.detected));
    NextNames(Local(row), o.added, o.removed);
    if next != Local(row) {
      ReadBack(row', next);
    }
  }

  /** The text is not touched when nothing is added or removed. */
  lemma TextUntouched(row: Row, add: seq<string>, ignore: seq<string>, remove: seq<string>)
    requires forall n :: !IsAdded(row, add, n) && !IsRemoved(row, add, remove, n)
    ensures Apply(row, add, ignore, remove).models == row.models
  {
    var o, local := Select(row, add, ignore, remove), Local(row);
    forall n ensures n !in o.added && n !in o.removed { SelectedNames(row, add, ignore, remove, n); }
    HasMember(o.added);
    HasMember(o.removed);
    LocalIsCommaFree(row);
    SelectedChanges(local, [], []);
    CleanOfNames(local);
    assert Clean(local) + Clean([]) == local;
    NormalizeNormal(local);
    KeepNames(local, Elements(local) - (Elements(Clean([])) - Elements(Clean([]))));
  }

  /** Membership in the new list. */
  lemma NextNames(origin: seq<string>, add: seq<string>, remove: seq<string>)
    requires Normal(origin) && Normal(add)
    ensures Normal(ApplySelectedModelChanges(origin, add, remove))
    ensures forall n :: n in ApplySelectedModelChanges(origin, add, remove) <==>
      n in add || (n in origin && n !in NormalizeModelNames(remove))
  {
    var all := origin + add;
    var wanted := Elements(all) - (Elements(Clean(remove)) - Elements(add));
    assert Clean(origin) == origin by { CleanNames(origin); }
    assert Clean(add) == add by { CleanNames(add); }
    SelectedChanges(origin, add, remove);
    assert Elements(NormalizeModelNames(remove)) == Elements(Clean(remove)) by { NormalizeNormal(remove); }
    assert Elements(Uniq(all)) == Elements(all) by { UniqNames(all); }
    KeepNames(Uniq(all), wanted);
    forall n ensures n in Keep(Uniq(all), wanted) <==> n in add || (n in origin && n !in NormalizeModelNames(remove)) {
      assert n in NormalizeModelNames(remove) <==> n in Elements(NormalizeModelNames(remove));
      assert n in Uniq(all) <==> n in Elements(Uniq(all));
    }
  }

  /** The names a request should leave: what it adds, and of the old ones what it does not remove. */
  predicate Wanted(row: Row, add: seq<string>, remove: seq<string>, n: string) {
    IsAdded(row, add, n) || (n in Local(row) && !IsRemoved(row, add, remove, n))
  }

  /** These are the names stored after it if and only if none it adds has a comma. */
  lemma ModelsAreWantedIff(row: Row, add: seq<string>, ignore: seq<string>, remove: seq<string>)
    ensures (forall n :: n in Local(Apply(row, add, ignore, remove)) <==> Wanted(row, add, remove, n)) <==>
      forall n | IsAdded(row, add, n) :: ',' !in n
  {
    var o := Select(row, add, ignore, remove);
    forall n ensures (n in o.added <==> IsAdded(row, add, n)) && (n in o.removed <==> IsRemoved(row, add, remove, n)) {
      SelectedNames(row, add, ignore, remove, n);
    }
    LocalIsCommaFree(row);
    LocalIsCommaFree(Apply(row, add, ignore, remove));
    ModelsAfterApply(row, add, ignore, remove);
    IntersectNames(add, NormalizeModelNames(row.settings.detected));
    NextNames(Local(row), o.added, o.removed);
    SelectedIsNormal(row, add, ignore, remove);
    if n :| IsAdded(row, add, n) && ',' in n {
      assert Wanted(row, add, remove, n) && n !in Local(Apply(row, add, ignore, remove));
    }
  }

  lemma SelectedIsNormal(row: Row, add: seq<string>, ignore: seq<string>, remove: seq<string>)
    ensures var o := Select(row, add, ignore, remove);
      Normal(o.removed) && NormalizeModelNames(o.removed) == o.removed
  {
    var pendingAdd, pendingRemove :=
      NormalizeModelNames(row.settings.detected), NormalizeModelNames(row.settings.removed);
    var r := IntersectModelNames(remove, pendingRemove);
    SubtractNames(r, IntersectModelNames(add, pendingAdd));
    NormalizeNormal(SubtractModelNames(r, IntersectModelNames(add, pendingAdd)));
  }

  /** What is pending, name by name. */
  lemma PendingNames(row: Row, upstream: seq<string>, regex: Regex)
    ensures var (add, remove) := Pending(row, upstream, regex); var u := NormalizeModelNames(upstream);
      && Normal(add) && Normal(remove)
      && (forall n :: n in add <==>
        n in u && n !in Local(row) && n !in row.mapping.Values && !Ignored(n, row.settings.ignored, regex))
      && (forall n :: n in remove <==> n in Local(row) && n !in row.mapping.Keys && n !in u)
  {
    var l, u := Local(row), NormalizeModelNames(upstream);
    var wantedAdd := set n | n in u && n !in l && n !in row.mapping.Values && !Ignored(n, row.settings.ignored, regex);
    var wantedRemove := set n | n in l && n !in row.mapping.Keys && n !in u;
    NormalizeNormal(GetModels(row.models));
    NormalizeNormal(upstream);
    KeepNames(u, wantedAdd);
    KeepDistinct(u, wantedAdd);
    KeepNames(l, wantedRemove);
    KeepDistinct(l, wantedRemove);
    NormalizeNormal(Keep(u, wantedAdd));
    NormalizeNormal(Keep(l, wantedRemove));
  }

  // ----- convergence -----

  /** Every upstream name that is hidden only by an ignore rule is hidden by a rule that is not itself added. */
  ghost predicate RulesSurvive(row: Row, upstream: seq<string>, added: seq<string>, regex: Regex) {
    forall n | n in NormalizeModelNames(upstream) && n !in Local(row) && n !in row.mapping.Values &&
      Ignored(n, row.settings.ignored, regex) ::
      exists r | r in NormalizeModelNames(row.settings.ignored) && r !in added :: RuleCovers(r, n, regex)
  }

  /** Detecting and then applying everything takes over exactly what was pending. */
  lemma AppliedAll(row: Row, upstream: seq<string>, regex: Regex)
    ensures var d := Detect(row, upstream, false, regex); var (add, remove) := Pending(row, upstream, regex);
      var o := Select(d, NormalizeModelNames(d.settings.detected), [], NormalizeModelNames(d.settings.removed));
      && o.added == add && Normal(o.removed) && forall n :: n in o.removed <==> n in remove
  {
    var (add, remove) := Pending(row, upstream, regex);
    PendingNames(row, upstream, regex);
    NormalizeNormal(add);
    NormalizeNormal(remove);
    IntersectNames(add, add);
    IntersectNames(remove, remove);
    SubtractNames(remove, add);
  }

  /** How a row after applying everything relates to the row before, at one name. */
  ghost predicate TakenOver(row: Row, row': Row, add: seq<string>, remove: seq<string>, n: string) {
    && row'.mapping == row.mapping
    && (',' in n ==> n !in Local(row'))
    && (CommaFree(add) ==> (n in Local(row') <==> n in add || (n in Local(row) && n !in remove)))
    && (n in NormalizeModelNames(row'.settings.ignored) <==>
      n in NormalizeModelNames(row.settings.ignored) && n !in add)
  }

  lemma AfterApplyAll(row: Row, upstream: seq<string>, regex: Regex, n: string)
    ensures var p := Pending(row, upstream, regex);
      TakenOver(row, ApplyAll(Detect(row, upstream, false, regex)), p.0, p.1, n)
  {
    var d := Detect(row, upstream, false, regex);
    var (add, remove) := Pending(row, upstream, regex);
    var all, gone := NormalizeModelNames(d.settings.detected), NormalizeModelNames(d.settings.removed);
    var o := Select(d, all, [], gone);
    AppliedAll(row, upstream, regex);
    IgnoredAfterApply(d, all, [], gone, n);
    LocalIsCommaFree(row);
    LocalIsCommaFree(ApplyAll(d));
    ModelsAfterApply(d, all, [], gone);
    assert Normal(add) by { PendingNames(row, upstream, regex); }
    assert NormalizeModelNames(o.removed) == o.removed by { NormalizeNormal(o.removed); }
    NextNames(Local(row), add, o.removed);
  }

  lemma ConvergesIf(row: Row, row': Row, upstream: seq<string>, regex: Regex)
    requires var p := Pending(row, upstream, regex);
      CommaFree(p.0) && RulesSurvive(row, upstream, p.0, regex) && forall n :: TakenOver(row, row', p.0, p.1, n)
    ensures Pending(row', upstream, regex) == ([], [])
  {
    var (add, remove) := Pending(row, upstream, regex);
    var (add', remove') := Pending(row', upstream, regex);
    PendingNames(row, upstream, regex);
    PendingNames(row', upstream, regex);
    forall n | n in NormalizeModelNames(upstream) && n !in Local(row) && n !in row.mapping.Values &&
      Ignored(n, row.settings.ignored, regex)
      ensures Ignored(n, row'.settings.ignored, regex)
    {
      var r :| r in NormalizeModelNames(row.settings.ignored) && r !in add && RuleCovers(r, n, regex);
      assert TakenOver(row, row', add, remove, r);
    }
    forall n ensures n !in add' && n !in remove' {
      assert TakenOver(row, row', add, remove, n);
    }
    HasMember(add');
    HasMember(remove');
  }

  /** An ignore rule that survives was there before. */
  lemma NothingMoreIgnored(row: Row, row': Row, add: seq<string>, remove: seq<string>, regex: Regex, n: string)
    requires forall r :: TakenOver(row, row', add, remove, r)
    requires Ignored(n, row'.settings.ignored, regex)
    ensures exists r | r in NormalizeModelNames(row.settings.ignored) && r !in add :: RuleCovers(r, n, regex)
  {
    var r :| r in NormalizeModelNames(row'.settings.ignored) && RuleCovers(r, n, regex);
    assert TakenOver(row, row', add, remove, r);
  }

  lemma ConvergesOnlyIf(row: Row, row': Row, upstream: seq<string>, regex: Regex)
    requires var p := Pending(row, upstream, regex);
      !(CommaFree(p.0) && RulesSurvive(row, upstream, p.0, regex)) && forall n :: TakenOver(row, row', p.0, p.1, n)
    ensures Pending(row', upstream, regex).0 != []
  {
    var (add, remove) := Pending(row, upstream, regex);
    PendingNames(row, upstream, regex);
    PendingNames(row', upstream, regex);
    var n;
    if !CommaFree(add) {
      n :| n in add && ',' in n;
    } else {
      n :| n in NormalizeModelNames(upstream) && n !in Local(row) && n !in row.mapping.Values &&
        Ignored(n, row.settings.ignored, regex) &&
        !exists r | r in NormalizeModelNames(row.settings.ignored) && r !in add :: RuleCovers(r, n, regex);
    }
    assert TakenOver(row, row', add, remove, n);
    if Ignored(n, row'.settings.ignored, regex) {
      NothingMoreIgnored(row, row', add, remove, regex, n);
    }
    assert n in Pending(row', upstream, regex).0;
  }

  /** One detection followed by applying everything pending leaves nothing pending if and only if no pending
      addition contains a comma and the surviving ignore rules still hide what they hid. */
  lemma ConvergesIff(row: Row, upstream: seq<string>, regex: Regex)
    ensures var add := Pending(row, upstream, regex).0;
      Pending(ApplyAll(Detect(row, upstream, false, regex)), upstream, regex) == ([], []) <==>
      CommaFree(add) && RulesSurvive(row, upstream, add, regex)
  {
    var row' := ApplyAll(Detect(row, upstream, false, regex));
    var (add, remove) := Pending(row, upstream, regex);
    forall n ensures TakenOver(row, row', add, remove, n) {
      AfterApplyAll(row, upstream, regex, n);
    }
    if CommaFree(add) && RulesSurvive(row, upstream, add, regex) {
      ConvergesIf(row, row', upstream, regex);
    } else {
      ConvergesOnlyIf(row, row', upstream, regex);
    }
  }

  /** In particular it converges for upstream names without commas that do not look like `regex:` rules. */
  lemma ConvergesForPlainNames(row: Row, upstream: seq<string>, regex: Regex)
    requires forall n | n in NormalizeModelNames(upstream) :: ',' !in n && !(REGEX <= n)
    ensures Pending(ApplyAll(Detect(row, upstream, false, regex)), upstream, regex) == ([], [])
  {
    var add := Pending(row, upstream, regex).0;
    PendingNames(row, upstream, regex);
    forall n | n in NormalizeModelNames(upstream) && n !in Local(row) && n !in row.mapping.Values &&
      Ignored(n, row.settings.ignored, regex)
      ensures exists r | r in NormalizeModelNames(row.settings.ignored) && r !in add :: RuleCovers(r, n, regex)
    {
      var r :| r in NormalizeModelNames(row.settings.ignored) && RuleCovers(r, n, regex);
      assert r !in add;
    }
    ConvergesIff(row, upstream, regex);
  }

  lemma PlainName(n: string)
    requires n != "" && !IsSpace(n[0]) && !IsSpace(n[|n| - 1])
    ensures IsName(n)
  {
    TrimClips(n, IsSpace);
  }

  lemma OneName(a: string)
    requires IsName(a)
    ensures NormalizeModelNames([a]) == [a]
  {
    NormalizeNormal([a]);
  }

  /** A name with a comma is never settled: it is stored as two other names and stays pending. */
  lemma CommaNameStaysPending(regex: Regex)
    ensures var row := Row("", map[], Settings([], [], []));
      Pending(ApplyAll(Detect(row, ["a,b"], false, regex)), ["a,b"], regex) != ([], [])
  {
    PlainName("a,b");
    OneName("a,b");
    assert "a,b"[1] == ',';
    CommaStaysPending("a,b", regex);
  }

  lemma CommaStaysPending(n: string, regex: Regex)
    requires NormalizeModelNames([n]) == [n] && ',' in n
    ensures Pending(ApplyAll(Detect(Row("", map[], Settings([], [], [])), [n], false, regex)), [n], regex) != ([], [])
  {
    var row := Row("", map[], Settings([], [], []));
    PendingNames(row, [n], regex);
    assert Local(row) == [] && NormalizeModelNames([]) == [];
    assert n in Pending(row, [n], regex).0;
    ConvergesIff(row, [n], regex);
  }

  lemma TwoNames(a: string, b: string)
    requires IsName(a) && IsName(b) && a != b
    ensures NormalizeModelNames([a, b]) == [a, b]
  {
    NormalizeNormal([a, b]);
  }

  lemma RuleExample(regex: Regex)
    ensures RuleCovers("regex:^b$", "b", regex) <==> regex("^b$", "b")
    ensures RuleCovers("regex:^b$", "regex:^b$", regex) <==> regex("^b$", "regex:^b$")
  {
    TrimClips("^b$", IsSpace);
    assert "regex:^b$"[|REGEX|..] == "^b$" && REGEX <= "regex:^b$";
  }

  /** What is pending for a channel that ignores by a rule of which upstream has a name. */
  lemma RulePending(row: Row, upstream: seq<string>, rule: string, regex: Regex)
    requires row == Row("", map[], Settings([rule], [], [])) && upstream == [rule, "b"] && "b" != rule
    requires NormalizeModelNames(upstream) == upstream && NormalizeModelNames([rule]) == [rule]
    requires RuleCovers(rule, "b", regex) && !RuleCovers(rule, rule, regex)
    ensures var add := Pending(row, upstream, regex).0;
      rule in add && (forall n | n in add :: n == rule) && !RulesSurvive(row, upstream, add, regex)
  {
    PendingNames(row, upstream, regex);
    assert Ignored("b", row.settings.ignored, regex) && !Ignored(rule, row.settings.ignored, regex);
    assert Local(row) == [];
  }

  /** An upstream name that is itself an ignore rule is taken over and stops being one, so what it hid becomes
      pending. */
  lemma RuleNameUncovers(regex: Regex)
    requires regex("^b$", "b") && !regex("^b$", "regex:^b$")
    ensures var row, upstream := Row("", map[], Settings(["regex:^b$"], [], [])), ["regex:^b$", "b"];
      Pending(ApplyAll(Detect(row, upstream, false, regex)), upstream, regex) != ([], [])
  {
    var row, upstream := Row("", map[], Settings(["regex:^b$"], [], [])), ["regex:^b$", "b"];
    PlainName("regex:^b$");
    PlainName("b");
    TwoNames("regex:^b$", "b");
    OneName("regex:^b$");
    RuleExample(regex);
    RulePending(row, upstream, "regex:^b$", regex);
    ConvergesIff(row, upstream, regex);
  }

  // ----- batch detection -----

  /** Batch and scheduled detection load the row without its model mapping. */
  function Unmapped(row: Row): Row {
    row.(mapping := map[])
  }

  /** Redirects make no difference: no new upstream name that is not ignored is a redirect target, and no local name
      that is missing upstream is a redirect source. */
  ghost predicate RedirectsIdle(row: Row, upstream: seq<string>, regex: Regex) {
    var u := NormalizeModelNames(upstream);
    && (forall n | n in u && n !in Local(row) && !Ignored(n, row.settings.ignored, regex) :: n !in row.mapping.Values)
    && (forall n | n in Local(row) && n !in u :: n !in row.mapping.Keys)
  }

  /** Both detections find the same exactly when redirects make no difference. */
  lemma BatchAgreesIff(row: Row, upstream: seq<string>, regex: Regex)
    ensures Pending(Unmapped(row), upstream, regex) == Pending(row, upstream, regex) <==>
      RedirectsIdle(row, upstream, regex)
  {
    var u := NormalizeModelNames(upstream);
    var (add, remove) := Pending(row, upstream, regex);
    var (add', remove') := Pending(Unmapped(row), upstream, regex);
    PendingNames(row, upstream, regex);
    PendingNames(Unmapped(row), upstream, regex);
    assert Local(Unmapped(row)) == Local(row);
    if RedirectsIdle(row, upstream, regex) {
      SamePending(row, upstream, regex);
    } else if n :| n in u && n !in Local(row) && !Ignored(n, row.settings.ignored, regex) && n in row.mapping.Values {
      assert n in add' && n !in add;
    } else {
      var n :| n in Local(row) && n !in u && n in row.mapping.Keys;
      assert n in remove' && n !in remove;
    }
  }

  lemma SamePending(row: Row, upstream: seq<string>, regex: Regex)
    requires RedirectsIdle(row, upstream, regex)
    ensures Pending(Unmapped(row), upstream, regex) == Pending(row, upstream, regex)
  {
    var l, u, rules := NormalizeModelNames(GetModels(row.models)), NormalizeModelNames(upstream), row.settings.ignored;
    var a := set n | n in u && n !in l && n !in row.mapping.Values && !Ignored(n, rules, regex);
    var none: map<string, string> := map[];
    var b := set n | n in u && n !in l && n !in none.Values && !Ignored(n, rules, regex);
    var c := set n | n in l && n !in row.mapping.Keys && n !in u;
    var d := set n | n in l && n !in none.Keys && n !in u;
    assert a == b && c == d;
  }

  lemma NothingIgnored(n: string, regex: Regex)
    ensures !Ignored(n, [], regex)
  {
    assert NormalizeModelNames([]) == [];
  }

  /** A channel with one local name and another upstream: what is pending depends on the mapping alone. */
  lemma OneForOther(row: Row, s: string, t: string, upstream: seq<string>, regex: Regex)
    requires Local(row) == [s] && NormalizeModelNames(upstream) == [t] && s != t && row.settings.ignored == []
    ensures var (add, remove) := Pending(row, upstream, regex);
      && (t in add <==> t !in row.mapping.Values) && (forall n | n in add :: n == t)
      && (s in remove <==> s !in row.mapping.Keys) && (forall n | n in remove :: n == s)
  {
    PendingNames(row, upstream, regex);
    NothingIgnored(t, regex);
  }

  /** A channel whose one model is redirected to the one upstream has: its own detection has nothing pending, the batch
      one wants to replace the source by the target. */
  lemma RedirectUndone(row: Row, s: string, t: string, upstream: seq<string>, regex: Regex)
    requires Local(row) == [s] && NormalizeModelNames(upstream) == [t] && s != t
    requires row.settings.ignored == [] && row.mapping == map[s := t]
    ensures Pending(row, upstream, regex) == ([], [])
    ensures t in Pending(Unmapped(row), upstream, regex).0 && s in Pending(Unmapped(row), upstream, regex).1
  {
    assert row.mapping.Keys == {s} && row.mapping.Values == {t};
    OneForOther(row, s, t, upstream, regex);
    OneForOther(Unmapped(row), s, t, upstream, regex);
    HasMember(Pending(row, upstream, regex).0);
    HasMember(Pending(row, upstream, regex).1);
  }

  lemma MergedDisjoint(base: seq<string>, appended: seq<string>)
    requires Normal(base) && Normal(appended) && forall n | n in appended :: n !in base
    ensures Merged(base, appended) == base + appended && Normal(base + appended)
  {
    assert Clean(base) == base by { CleanNames(base); }
    assert Clean(appended) == appended by { CleanNames(appended); }
    var both := base + appended;
    forall i, j | 0 <= i < j < |both| ensures both[i] != both[j] {
      if i < |base| <= j {
        assert base[i] in base && appended[j - |base|] in appended;
      }
    }
    UniqNames(both);
  }

  /** Pending additions are appended as they are. */
  lemma PendingIsNew(row: Row, upstream: seq<string>, regex: Regex)
    ensures var add := Pending(row, upstream, regex).0;
      Merged(Local(row), add) == Local(row) + add && Normal(Local(row) + add)
  {
    PendingNames(row, upstream, regex);
    LocalIsCommaFree(row);
    MergedDisjoint(Local(row), Pending(row, upstream, regex).0);
  }

  /** With automatic takeover no addition is left pending and the pending removals are those of the first detection, if
      and only if no added name contains a comma. */
  lemma AutoSyncLeavesRemovals(row: Row, upstream: seq<string>, regex: Regex)
    ensures var p := Pending(Detect(row, upstream, true, regex), upstream, regex);
      (p.0 == [] && forall n :: n in p.1 <==> n in Pending(row, upstream, regex).1) <==>
        CommaFree(Pending(row, upstream, regex).0)
  {
    var (add, remove) := Pending(row, upstream, regex);
    var row' := Detect(row, upstream, true, regex);
    PendingNames(row, upstream, regex);
    PendingNames(row', upstream, regex);
    LocalIsCommaFree(row);
    if !CommaFree(add) {
      var n :| n in add && ',' in n;
      LocalIsCommaFree(row');
      assert n in Pending(row', upstream, regex).0;
    } else if add != [] {
      PendingIsNew(row, upstream, regex);
      ReadBack(row', Local(row) + add);
    }
    HasMember(Pending(row', upstream, regex).0);
  }

  /** The stored channel row. */
  class ChannelRow {
    var models: string
    var settings: Settings
    const mapping: map<string, string>

    constructor (models: string, mapping: map<string, string>, settings: Settings)
      ensures Value() == Row(models, mapping, settings)
    {
      this.models, this.mapping, this.settings := models, mapping, settings;
    }

    function Value(): Row
      reads this
    {
      Row(models, mapping, settings)
    }

    /** Stores what one check against a fetched upstream list finds; `saved` is whether the database accepts the row.
        The number of added models is reported either way. */
    method CheckAndPersist(upstream: seq<string>, autoApply: bool, regex: Regex, saved: bool)
        returns (modelsChanged: bool, autoAdded: nat)
      modifies this
      ensures Value() == if saved then Detect(old(Value()), upstream, autoApply, regex) else old(Value())
      ensures autoAdded == if autoApply then |Pending(old(Value()), upstream, regex).0| else 0
      ensures modelsChanged <==> saved && autoAdded > 0
    {
      PendingIsNew(Value(), upstream, regex);
      var (pendingAdd, pendingRemove) := CollectPending(GetModels(models), upstream, settings.ignored, mapping, regex);
      var text, next := models, settings;
      modelsChanged, autoAdded := false, 0;
      if autoApply && |pendingAdd| > 0 {
        var origin := NormalizeModelNames(GetModels(models));
        var merged := MergeModelNames(origin, pendingAdd);
        if |merged| > |origin| {
          text := Join(merged, ',');
          modelsChanged, autoAdded := true, |merged| - |origin|;
        }
        next := next.(detected := []);
      } else {
        next := next.(detected := pendingAdd);
      }
      next := next.(removed := pendingRemove);
      if !saved {
        return false, autoAdded;
      }
      models, settings := text, next;
    }

    /** Applies a selection of the pending changes; `saved` is whether the database accepts the row. */
    method ApplyUpdates(addInput: seq<string>, ignoreInput: seq<string>, removeInput: seq<string>, saved: bool)
      returns (o: Outcome, modelsChanged: bool)
      modifies this
      ensures saved ==> Value() == Apply(old(Value()), addInput, ignoreInput, removeInput)
      ensures saved ==> o == Select(old(Value()), addInput, ignoreInput, removeInput)
      ensures !saved ==> Value() == old(Value()) && o == Outcome([], [], [], []) && !modelsChanged
      ensures saved ==>
        (modelsChanged <==> old(Local(Value())) != ApplySelectedModelChanges(old(Local(Value())), o.added, o.removed))
    {
      var pendingAdd := NormalizeModelNames(settings.detected);
      var pendingRemove := NormalizeModelNames(settings.removed);
      var add := IntersectModelNames(addInput, pendingAdd);
      var ignore := IntersectModelNames(ignoreInput, pendingAdd);
      var remove := SubtractModelNames(IntersectModelNames(removeInput, pendingRemove), add);
      var origin := NormalizeModelNames(GetModels(models));
      var next := ApplySelectedModelChanges(origin, add, remove);
      modelsChanged := origin != next;
      var ignored := MergeModelNames(settings.ignored, ignore);
      if |add| > 0 {
        ignored := SubtractModelNames(ignored, add);
      }
      o := Outcome(add, remove, SubtractModelNames(pendingAdd, add + ignore),
        SubtractModelNames(pendingRemove, remove));
      if !saved {
        return Outcome([], [], [], []), false;
      }
      if modelsChanged {
        models := Join(next, ',');
      }
      settings := Settings(ignored, o.remaining, o.remainingRemove);
    }
  }
}

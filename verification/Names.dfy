/** Lists of trimmed names kept as ordered sets: cleaning, removing duplicates, filtering by membership. */
module Names {
  import opened Text

  /** `lo.FilterMap` with trimming: the trimmed names that are not blank. */
  function Clean(models: seq<string>): seq<string> {
    if models == [] then []
    else Clean(models[..|models| - 1]) + var m := TrimSpace(models[|models| - 1]); if m == "" then [] else [m]
  }

  /** `lo.Uniq`: the first occurrence of each name. */
  function Uniq(names: seq<string>): seq<string> {
    if names == [] then []
    else
      var before, last := Uniq(names[..|names| - 1]), names[|names| - 1];
      if last in before then before else before + [last]
  }

  function Elements(names: seq<string>): set<string> {
    set n | n in names
  }

  /** `lo.Filter` by membership. */
  function Keep(names: seq<string>, wanted: set<string>): seq<string> {
    if names == [] then []
    else
      var before, last := Keep(names[..|names| - 1], wanted), names[|names| - 1];
      if last in wanted then before + [last] else before
  }

  predicate Distinct(names: seq<string>) {
    forall i, j | 0 <= i < j < |names| :: names[i] != names[j]
  }

  predicate IsName(s: string) {
    s != "" && TrimSpace(s) == s
  }

  lemma ElementsAppend(names: seq<string>, n: string)
    ensures Elements(names + [n]) == Elements(names) + {n}
  {
  }

  /** Cleaning one more name. */
  lemma CleanAppend(before: seq<string>, last: string)
    ensures Clean(before + [last]) == if TrimSpace(last) == "" then Clean(before) else Clean(before) + [TrimSpace(last)]
  {
    assert (before + [last])[..|before|] == before;
  }

  lemma {:induction false} CleanMembers(models: seq<string>, n: string)
    ensures n in Clean(models) <==> n != "" && exists m | m in models :: TrimSpace(m) == n
  {
    if models != [] {
      var before, last := models[..|models| - 1], models[|models| - 1];
      assert models == before + [last];
      CleanAppend(before, last);
      CleanMembers(before, n);
    }
  }

  lemma {:induction false} CleanAreNames(models: seq<string>, n: string)
    requires n in Clean(models)
    ensures IsName(n)
  {
    var before, last := models[..|models| - 1], models[|models| - 1];
    assert models == before + [last];
    CleanAppend(before, last);
    if n in Clean(before) {
      CleanAreNames(before, n);
    } else {
      TrimSpaceOnce(last);
    }
  }

  lemma {:induction false} CleanOfNames(models: seq<string>)
    requires forall m | m in models :: IsName(m)
    ensures Clean(models) == models
  {
    if models != [] {
      var before, last := models[..|models| - 1], models[|models| - 1];
      assert models == before + [last];
      assert last in models;
      CleanAppend(before, last);
      CleanOfNames(before);
    }
  }

  lemma CleanNames(models: seq<string>)
    ensures forall n :: n in Clean(models) <==> n != "" && exists m | m in models :: TrimSpace(m) == n
    ensures forall n | n in Clean(models) :: IsName(n)
    ensures (forall m | m in models :: IsName(m)) ==> Clean(models) == models
  {
    forall n ensures n in Clean(models) <==> n != "" && exists m | m in models :: TrimSpace(m) == n {
      CleanMembers(models, n);
    }
    forall n | n in Clean(models) ensures IsName(n) {
      CleanAreNames(models, n);
    }
    if forall m | m in models :: IsName(m) {
      CleanOfNames(models);
    }
  }

  lemma {:induction false} UniqNames(names: seq<string>)
    ensures forall n :: n in Uniq(names) <==> n in names
    ensures Distinct(Uniq(names))
    ensures Distinct(names) ==> Uniq(names) == names
  {
    if names != [] {
      var before, last := names[..|names| - 1], names[|names| - 1];
      assert names == before + [last];
      UniqNames(before);
    }
  }

  lemma {:induction false} KeepNames(names: seq<string>, wanted: set<string>)
    ensures forall n :: n in Keep(names, wanted) <==> n in names && n in wanted
    ensures (forall n | n in names :: n in wanted) ==> Keep(names, wanted) == names
  {
    if names != [] {
      var before, last := names[..|names| - 1], names[|names| - 1];
      assert names == before + [last];
      KeepNames(before, wanted);
    }
  }

  lemma {:induction false} KeepDistinct(names: seq<string>, wanted: set<string>)
    requires Distinct(names)
    ensures Distinct(Keep(names, wanted))
  {
    if names != [] {
      var before, last := names[..|names| - 1], names[|names| - 1];
      KeepDistinct(before, wanted);
      KeepNames(before, wanted);
      assert last !in before;
    }
  }

  function First(names: seq<string>, n: string): (i: nat)
    requires n in names
    ensures i < |names| && names[i] == n && n !in names[..i]
  {
    if names[0] == n then 0 else 1 + First(names[1..], n)
  }

  lemma {:induction false} FirstInPrefix(names: seq<string>, k: nat, n: string)
    requires k <= |names| && n in names[..k]
    ensures First(names, n) == First(names[..k], n)
  {
    if names[0] != n {
      assert names[..k][1..] == names[1..][..k - 1];
      FirstInPrefix(names[1..], k - 1, n);
    }
  }

  lemma {:induction false} UniqOrderAt(names: seq<string>, i: nat, j: nat)
    requires i < j < |Uniq(names)|
    ensures var a, b := Uniq(names)[i], Uniq(names)[j]; a in names && b in names && First(names, a) < First(names, b)
  {
    var k := |names| - 1;
    var before := names[..k];
    var a, b := Uniq(names)[i], Uniq(names)[j];
    UniqNames(before);
    assert a == Uniq(before)[i] && a in before;
    FirstInPrefix(names, k, a);
    if j < |Uniq(before)| {
      UniqOrderAt(before, i, j);
      FirstInPrefix(names, k, b);
    } else {
      assert b == names[k] && b !in before;
      assert First(names, b) == k;
    }
  }

  /** `Uniq` lists names in the order of their first occurrence. */
  lemma UniqOrder(names: seq<string>)
    ensures forall n :: n in Uniq(names) <==> n in names
    ensures forall i, j | 0 <= i < j < |Uniq(names)| :: First(names, Uniq(names)[i]) < First(names, Uniq(names)[j])
  {
    UniqNames(names);
    forall i, j | 0 <= i < j < |Uniq(names)| ensures First(names, Uniq(names)[i]) < First(names, Uniq(names)[j]) {
      UniqOrderAt(names, i, j);
    }
  }

  lemma {:induction false} UniqAbsorbs(x: seq<string>, y: seq<string>)
    ensures Uniq(x + Uniq(y)) == Uniq(x + y)
  {
    if y != [] {
      var before, last := y[..|y| - 1], y[|y| - 1];
      UniqAbsorbs(x, before);
      assert (x + y)[..|x + y| - 1] == x + before;
      if last in Uniq(before) {
        UniqNames(x + Uniq(before));
      } else {
        assert (x + Uniq(y))[..|x + Uniq(y)| - 1] == x + Uniq(before);
      }
    }
  }

  lemma UniqStep(x: seq<string>, names: seq<string>, i: nat)
    requires i < |names|
    ensures var before := Uniq(x + names[..i]);
      Uniq(x + names[..i + 1]) == if names[i] in before then before else before + [names[i]]
  {
    var all := x + names[..i + 1];
    assert all[..|all| - 1] == x + names[..i];
  }

  lemma HasMember(names: seq<string>)
    ensures names != [] ==> exists n :: n in names
  {
    if names != [] {
      assert names[0] in names;
    }
  }
}

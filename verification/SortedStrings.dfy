/** `sort.Strings`: strings in lexicographic order. */
module SortedStrings {

  predicate Less(a: string, b: string) {
    if b == "" then false
    else if a == "" then true
    else a[0] < b[0] || (a[0] == b[0] && Less(a[1..], b[1..]))
  }

  lemma {:induction false} LessTotal(a: string, b: string)
    ensures (Less(a, b) || a == b || Less(b, a)) && !(Less(a, b) && Less(b, a)) && !Less(a, a)
  {
    if a != "" && b != "" {
      LessTotal(a[1..], b[1..]);
      LessTotal(a[1..], a[1..]);
      if a[0] == b[0] && a[1..] == b[1..] {
        assert a == [a[0]] + a[1..] && b == [b[0]] + b[1..];
      }
    } else if a != "" {
      LessTotal(a[1..], a[1..]);
    }
  }

  lemma {:induction false} LessTransitive(a: string, b: string, c: string)
    requires Less(a, b) && Less(b, c)
    ensures Less(a, c)
  {
    if a != "" && a[0] == b[0] == c[0] {
      LessTransitive(a[1..], b[1..], c[1..]);
    }
  }

  ghost predicate Increasing(s: seq<string>) {
    forall i, j | 0 <= i < j < |s| :: Less(s[i], s[j])
  }

  function Insert(x: string, s: seq<string>): seq<string> {
    if s == [] then [x] else if Less(x, s[0]) then [x] + s else [s[0]] + Insert(x, s[1..])
  }

  function Sort(s: seq<string>): seq<string> {
    if s == [] then [] else Insert(s[0], Sort(s[1..]))
  }

  lemma {:induction false} InsertIncreasing(x: string, s: seq<string>)
    requires Increasing(s) && x !in s
    ensures Increasing(Insert(x, s)) && forall y :: y in Insert(x, s) <==> y == x || y in s
  {
    if s != [] {
      assert forall y :: y in s <==> y == s[0] || y in s[1..];
      if Less(x, s[0]) {
        forall j | 0 < j < |s| ensures Less(x, s[j]) {
          LessTransitive(x, s[0], s[j]);
        }
      } else {
        LessTotal(x, s[0]);
        InsertIncreasing(x, s[1..]);
        var r := Insert(x, s[1..]);
        assert forall j | 0 <= j < |r| :: r[j] in r;
      }
    }
  }

  /** Sorting a list without duplicates. */
  lemma {:induction false} SortIncreasing(s: seq<string>)
    requires forall i, j | 0 <= i < j < |s| :: s[i] != s[j]
    ensures Increasing(Sort(s)) && forall y :: y in Sort(s) <==> y in s
  {
    if s != [] {
      assert forall y :: y in s <==> y == s[0] || y in s[1..];
      SortIncreasing(s[1..]);
      InsertIncreasing(s[0], Sort(s[1..]));
    }
  }

  /** Only one increasing list has given members, so the order in which they were collected does not matter. */
  lemma {:induction false} IncreasingUnique(s: seq<string>, t: seq<string>)
    requires Increasing(s) && Increasing(t) && forall y :: y in s <==> y in t
    ensures s == t
  {
    assert t != [] ==> t[0] in t;
    if s != [] {
      assert s[0] in s && s[0] in t;
      assert t[0] in t && t[0] in s;
      LessTotal(s[0], t[0]);
      assert s[0] == t[0];
      forall y ensures y in s[1..] <==> y in t[1..] {
        LessTotal(s[0], s[0]);
        assert y in s <==> y == s[0] || y in s[1..];
        assert y in t <==> y == t[0] || y in t[1..];
        assert s[0] !in s[1..] && t[0] !in t[1..];
      }
      IncreasingUnique(s[1..], t[1..]);
    }
  }

  /** The members of a set in increasing order. */
  ghost function Ordered(keys: set<string>): (s: seq<string>)
    ensures Increasing(s) && forall y :: y in s <==> y in keys
  {
    if keys == {} then []
    else
      var x :| x in keys;
      var rest := Ordered(keys - {x});
      InsertIncreasing(x, rest);
      Insert(x, rest)
  }

  /** Collecting the keys of a map, in whatever order the map yields them, and sorting them. */
  method SortedKeys(keys: set<string>) returns (s: seq<string>)
    ensures s == Ordered(keys)
  {
    var pending := keys;
    var collected: seq<string> := [];
    while pending != {}
      invariant pending <= keys
      invariant forall y :: y in collected <==> y in keys && y !in pending
      invariant forall i, j | 0 <= i < j < |collected| :: collected[i] != collected[j]
      decreases pending
    {
      var x :| x in pending;
      assert x !in collected;
      collected := collected + [x];
      pending := pending - {x};
    }
    s := Sort(collected);
    SortIncreasing(collected);
    IncreasingUnique(s, Ordered(keys));
  }
}

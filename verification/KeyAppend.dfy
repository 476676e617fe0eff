/**
  The append branch of `UpdateChannel` (controller/channel.go) for channels whose keys are lines of text: new
  keys are trimmed, deduplicated against the stored ones and against each other, and appended.
*/
module KeyAppend {
  import opened MultiKey
  import opened Names
  import opened Text

  /** The stored keys as the append branch reads them: text that looks like an array but is none reads as empty. */
  function ExistingKeys(key: string, decode: Decoder): seq<string> {
    if LooksLikeArray(key) then
      var arr := decode(TrimSpace(key));
      if arr.Array? then arr.items else []
    else Split(Trim(key, '\n'), '\n')
  }

  /** The keys that get appended: each new trimmed key once, in order, unless it is stored already. */
  function NewKeys(existing: seq<string>, input: seq<string>): seq<string> {
    Keep(Uniq(Clean(input)), Elements(Clean(input)) - Elements(Clean(existing)))
  }

  lemma NewKeysNames(existing: seq<string>, input: seq<string>)
    ensures Distinct(NewKeys(existing, input))
    ensures forall k :: k in NewKeys(existing, input) <==> k in Clean(input) && k !in Clean(existing)
    ensures forall k | k in NewKeys(existing, input) :: IsName(k)
  {
    var wanted := Elements(Clean(input)) - Elements(Clean(existing));
    CleanNames(input);
    UniqNames(Clean(input));
    KeepNames(Uniq(Clean(input)), wanted);
    KeepDistinct(Uniq(Clean(input)), wanted);
  }

  /** One more cleaned key, seen or not. */
  lemma NewKeysStep(existing: seq<string>, input: seq<string>, i: nat)
    requires i < |input|
    ensures var before, k := NewKeys(existing, input[..i]), TrimSpace(input[i]);
      NewKeys(existing, input[..i + 1]) == if k == "" || k in before || k in Clean(existing) then before
        else before + [k]
  {
    var a, b, k := input[..i], input[..i + 1], TrimSpace(input[i]);
    assert b[..i] == a;
    UniqNames(Clean(a));
    if k == "" {
      assert Clean(b) == Clean(a);
    } else {
      assert Clean(b) == Clean(a) + [k] && Clean(b)[..|Clean(a)|] == Clean(a);
      var wa, wb := Elements(Clean(a)) - Elements(Clean(existing)), Elements(Clean(b)) - Elements(Clean(existing));
      KeepNames(Uniq(Clean(a)), wa);
      KeepSame(Uniq(Clean(a)), wa, wb);
      if k !in Uniq(Clean(a)) {
        assert Uniq(Clean(b)) == Uniq(Clean(a)) + [k];
        KeepAppend(Uniq(Clean(a)), k, wb);
        assert k in wb <==> k !in Clean(existing);
      }
    }
  }

  lemma KeepAppend(names: seq<string>, k: string, wanted: set<string>)
    ensures Keep(names + [k], wanted) == if k in wanted then Keep(names, wanted) + [k] else Keep(names, wanted)
  {
    assert (names + [k])[..|names|] == names;
  }

  /** Filtering only looks at the members of the list. */
  lemma {:induction false} KeepSame(names: seq<string>, wanted: set<string>, wanted': set<string>)
    requires forall n | n in names :: n in wanted <==> n in wanted'
    ensures Keep(names, wanted) == Keep(names, wanted')
  {
    if names != [] {
      KeepSame(names[..|names| - 1], wanted, wanted');
    }
  }

  /** The first loop: the trimmed keys that are there. */
  method TrimmedKeys(existing: seq<string>) returns (seen: set<string>)
    ensures seen == Elements(Clean(existing))
  {
    seen := {};
    assert existing[..0] == [];
    for i := 0 to |existing|
      invariant seen == Elements(Clean(existing[..i]))
    {
      assert existing[..i + 1][..i] == existing[..i];
      var normalized := TrimSpace(existing[i]);
      if normalized != "" {
        seen := seen + {normalized};
      }
    }
    assert existing[..|existing|] == existing;
  }

  /** The second loop: each new trimmed key once. */
  method Deduplicated(ghost existing: seq<string>, input: seq<string>, there: set<string>)
      returns (deduped: seq<string>)
    requires there == Elements(Clean(existing))
    ensures deduped == NewKeys(existing, input)
  {
    var seen := there;
    deduped := [];
    assert NewKeys(existing, input[..0]) == [];
    for i := 0 to |input|
      invariant deduped == NewKeys(existing, input[..i])
      invariant forall k :: k in seen <==> k in there || k in deduped
    {
      NewKeysStep(existing, input, i);
      var normalized := TrimSpace(input[i]);
      if normalized != "" && normalized !in seen {
        seen := seen + {normalized};
        deduped := deduped + [normalized];
      }
    }
    assert input[..|input|] == input;
  }

  method AppendDeduplicated(existing: seq<string>, input: seq<string>) returns (all: seq<string>)
    ensures all == existing + NewKeys(existing, input)
  {
    var seen := TrimmedKeys(existing);
    var deduped := Deduplicated(existing, input, seen);
    all := existing + deduped;
  }

  /** The row after an append request for the lines of `text`; an empty stored key is simply replaced. */
  function Appended(stored: Row, text: string, decode: Decoder): Row {
    if stored.key == "" then Updated(stored, text, stored.info, decode)
    else
      var existing := ExistingKeys(stored.key, decode);
      Updated(stored, Join(existing + NewKeys(existing, Split(text, '\n')), '\n'), stored.info, decode)
  }

  /** A channel without a key text gets the text as it is. */
  lemma FirstText(info: Info, text: string, decode: Decoder)
    ensures Appended(Row("", info), text, decode).key == text
  {
  }

  function FreshRecords(keys: seq<string>): seq<Rec> {
    seq(|keys|, i requires 0 <= i < |keys| => Rec(keys[i], ENABLED, 0, ""))
  }

  /** Whether the append branch sees the channel's keys: text that starts like an array must be one. */
  predicate Seen(key: string, decode: Decoder) {
    !LooksLikeArray(key) || decode(TrimSpace(key)).Array?
  }

  lemma {:induction false} KeepConcat(a: seq<string>, b: seq<string>, wanted: set<string>)
    ensures Keep(a + b, wanted) == Keep(a, wanted) + Keep(b, wanted)
  {
    if b == [] {
      assert a + b == a;
    } else {
      var before, last := b[..|b| - 1], b[|b| - 1];
      var kept := if last in wanted then [last] else [];
      KeepConcat(a, before, wanted);
      assert Keep(a + b, wanted) == Keep(a + before, wanted) + kept by {
        assert a + b == (a + before) + [last];
        KeepAppend(a + before, last, wanted);
      }
      assert Keep(b, wanted) == Keep(before, wanted) + kept by {
        assert b == before + [last];
        KeepAppend(before, last, wanted);
      }
    }
  }

  lemma {:induction false} KeepNone(names: seq<string>, wanted: set<string>)
    requires forall n | n in names :: n !in wanted
    ensures Keep(names, wanted) == []
  {
    if names != [] {
      KeepNone(names[..|names| - 1], wanted);
    }
  }

  lemma NewKeysOfNone(input: seq<string>)
    ensures NewKeys([], input) == Uniq(Clean(input))
  {
    assert Elements(Clean([])) == {};
    UniqNames(Clean(input));
    KeepNames(Uniq(Clean(input)), Elements(Clean(input)) - Elements(Clean([])));
  }

  lemma KeepRest(dropped: seq<string>, rest: seq<string>, wanted: set<string>)
    requires (forall n | n in dropped :: n !in wanted) && forall n | n in rest :: n in wanted
    ensures Keep(dropped + rest, wanted) == rest
  {
    KeepConcat(dropped, rest, wanted);
    KeepNone(dropped, wanted);
    KeepNames(rest, wanted);
  }

  lemma RepeatedThenRest(existing: seq<string>, rest: seq<string>, input: seq<string>)
    requires Uniq(Clean(input)) == existing + rest
    ensures NewKeys(existing, input) == rest
  {
    var all, wanted := existing + rest, Elements(Clean(input)) - Elements(existing);
    CleanNames(input);
    UniqNames(Clean(input));
    forall n | n in existing ensures IsName(n) {
      assert n in all;
    }
    CleanNames(existing);
    assert all[..|existing|] == existing && all[|existing|..] == rest;
    forall n | n in rest ensures n in wanted {
      RestIsNew(all, |existing|, n);
    }
    KeepRest(existing, rest, wanted);
  }

  /** A request that repeats the existing keys first says what appending the others would give. */
  lemma RepeatedFirst(existing: seq<string>, input: seq<string>)
    ensures existing <= NewKeys([], input) <==> NewKeys([], input) == existing + NewKeys(existing, input)
  {
    var all := NewKeys([], input);
    if existing <= all {
      NewKeysOfNone(input);
      assert all == existing + all[|existing|..];
      RepeatedThenRest(existing, all[|existing|..], input);
    }
  }

  lemma RestIsNew(all: seq<string>, k: nat, n: string)
    requires Distinct(all) && k <= |all| && n in all[k..]
    ensures n in all && n !in all[..k]
  {
    var j :| 0 <= j < |all| - k && all[k..][j] == n;
    assert all[k + j] == n;
  }

  lemma CleanedLine(lines: seq<string>, k: string)
    requires (forall m | m in lines :: '\n' !in m) && k in Clean(lines)
    ensures k != "" && '\n' !in k
  {
    CleanNames(lines);
    var m :| m in lines && TrimSpace(m) == k;
    TrimSpaceOnce(m);
  }

  /** The new keys are lines without blanks around them, so they read back unless their text is an array. */
  lemma NewKeysReadBack(existing: seq<string>, text: string)
    requires NewKeys(existing, Split(text, '\n')) != []
    ensures var n := NewKeys(existing, Split(text, '\n')); n != [""] && ReadAsLines(n)
  {
    var lines := Split(text, '\n');
    var n := NewKeys(existing, lines);
    NewKeysNames(existing, lines);
    forall k | k in n ensures k != "" && '\n' !in k {
      CleanedLine(lines, k);
    }
    assert n[0] in n && n[|n| - 1] in n;
  }

  /** What an append request shows afterwards, for every stored row: the keys its new text gives, with whatever the maps
      say about their indices. */
  lemma AppendedView(stored: Row, text: string, decode: Decoder)
    ensures var row := Appended(stored, text, decode);
      ViewOf(row, decode) == Records(GetKeys(row.key, decode), stored.info)
  {
    var row := Appended(stored, text, decode);
    var read := GetKeys(row.key, decode);
    forall i | 0 <= i < |read| ensures RecAt(read[i], row.info, i) == RecAt(read[i], stored.info, i) {
      assert At(row.info.status, i, ENABLED) == At(stored.info.status, i, ENABLED);
    }
  }

  /** No status, time or reason is left for the indices of the new keys. */
  predicate BlankFrom(info: Info, n: nat, m: nat) {
    forall i | n <= i < n + m :: RecAt("", info, i) == Rec("", ENABLED, 0, "")
  }

  /** Keys that are not seen are lost: the channel is left with the new keys alone (or with the array their text happens
      to be), unless there are none, when nothing changes. */
  lemma UnseenKeysAreLost(stored: Row, text: string, decode: Decoder)
    requires stored.key != "" && !Seen(stored.key, decode)
    ensures var row := Appended(stored, text, decode); var n := NewKeys([], Split(text, '\n'));
      var joined := Join(n, '\n');
      GetKeys(row.key, decode) ==
      if n == [] then GetKeys(stored.key, decode)
      else if LooksLikeArray(joined) && decode(TrimSpace(joined)).Array? then decode(TrimSpace(joined)).items
      else n
  {
    var n := NewKeys([], Split(text, '\n'));
    assert [] + n == n;
    if n != [] {
      NewKeysReadBack([], text);
      JoinEnds(n, '\n');
      SplitOfTrimOfJoin(n, '\n');
    }
  }

  /** When the stored keys are seen: the whole list reads back, or is one blank key and nothing is added. */
  predicate SeenKept(existing: seq<string>, lines: seq<string>, decode: Decoder) {
    var all := existing + NewKeys(existing, lines);
    Storable(all, decode) || all == [""]
  }

  /** When they are not: nothing is added, or the request repeats them first. */
  predicate UnseenKept(existing: seq<string>, lines: seq<string>, decode: Decoder) {
    var n := NewKeys([], lines);
    var joined := Join(n, '\n');
    || n == []
    || (if LooksLikeArray(joined) && decode(TrimSpace(joined)).Array?
        then decode(TrimSpace(joined)).items == existing + NewKeys(existing, lines)
        else existing <= n)
  }

  lemma KeysDecide(stored: Row, added: seq<string>, read: seq<string>, decode: Decoder)
    ensures var existing := GetKeys(stored.key, decode);
      Records(read, stored.info) == ViewOf(stored, decode) + FreshRecords(added) <==>
      read == existing + added && BlankFrom(stored.info, |existing|, |added|)
  {
    var existing, was := GetKeys(stored.key, decode), ViewOf(stored, decode);
    assert KeysOf(Records(read, stored.info)) == read;
    assert KeysOf(was + FreshRecords(added)) == existing + added;
    if read == existing + added {
      var all, wanted := Records(read, stored.info), was + FreshRecords(added);
      forall i | |existing| <= i < |read|
        ensures all[i] == wanted[i] <==> RecAt("", stored.info, i) == Rec("", ENABLED, 0, "")
      {
        assert wanted[i] == Rec(read[i], ENABLED, 0, "");
      }
      assert forall i | 0 <= i < |existing| :: all[i] == wanted[i];
      assert all == wanted <==> forall i | 0 <= i < |read| :: all[i] == wanted[i];
    }
  }

  /** Appending keeps every record as it is and adds an enabled record per new key exactly when these conditions hold
      and nothing is left over for the new indices. */
  lemma AppendedRecords(stored: Row, text: string, decode: Decoder)
    requires stored.key != ""
    ensures var existing, lines := GetKeys(stored.key, decode), Split(text, '\n');
      var added := NewKeys(existing, lines);
      ViewOf(Appended(stored, text, decode), decode) == ViewOf(stored, decode) + FreshRecords(added) <==>
      (if Seen(stored.key, decode) then SeenKept(existing, lines, decode) else UnseenKept(existing, lines, decode)) &&
      BlankFrom(stored.info, |existing|, |added|)
  {
    var existing, lines := GetKeys(stored.key, decode), Split(text, '\n');
    var row, added := Appended(stored, text, decode), NewKeys(existing, lines);
    AppendedView(stored, text, decode);
    KeysDecide(stored, added, GetKeys(row.key, decode), decode);
    if Seen(stored.key, decode) {
      NewKeysNames(existing, lines);
      SeenKeys(stored, added, decode);
    } else {
      UnseenKeysAreLost(stored, text, decode);
      UnseenKeys(existing, lines);
    }
  }

  /** Every append leaves a valid row. */
  lemma AppendedIsValid(stored: Row, text: string, decode: Decoder)
    requires ValidRow(stored, decode)
    ensures ValidRow(Appended(stored, text, decode), decode)
  {
  }

  lemma SeenKeys(stored: Row, added: seq<string>, decode: Decoder)
    requires stored.key != "" && "" !in added
    ensures var all := GetKeys(stored.key, decode) + added;
      GetKeys(Updated(stored, Join(all, '\n'), stored.info, decode).key, decode) == all <==>
        Storable(all, decode) || all == [""]
  {
    var existing := GetKeys(stored.key, decode);
    var all := existing + added;
    StorableIff(all, decode);
    if all != [] {
      JoinEnds(all, '\n');
      assert "" in all ==> "" in existing;
      if all == [""] {
        assert "" in all;
        assert existing == all;
      }
    }
  }

  lemma UnseenKeys(existing: seq<string>, lines: seq<string>)
    ensures NewKeys([], lines) == [] ==> NewKeys(existing, lines) == []
    ensures existing <= NewKeys([], lines) <==> NewKeys([], lines) == existing + NewKeys(existing, lines)
  {
    RepeatedFirst(existing, lines);
    NewKeysNames([], lines);
    NewKeysNames(existing, lines);
    if NewKeys(existing, lines) != [] {
      assert NewKeys(existing, lines)[0] in NewKeys([], lines);
    }
  }

  lemma OneNewKey(k: string)
    requires IsName(k)
    ensures NewKeys([], [k]) == [k]
  {
    CleanNames([k]);
    UniqNames([k]);
    NewKeysOfNone([k]);
  }

  lemma BracketKey(decode: Decoder)
    requires decode("[a").NotArray?
    ensures LooksLikeArray("[a") && !Seen("[a", decode) && GetKeys("[a", decode) == ["[a"]
  {
    TrimClips("[a", IsSpace);
    TrimClips("[a", (x: char) => x == '\n');
    SplitPrefix("[a", '\n', "");
  }

  /** One plain key appended to a text that is not seen is all that is left. */
  lemma UnseenLostTo(stored: Row, k: string, decode: Decoder)
    requires stored.key != "" && !Seen(stored.key, decode) && Plain(k) && IsName(k)
    ensures GetKeys(Appended(stored, k, decode).key, decode) == [k]
  {
    assert NewKeys([], Split(k, '\n')) == [k] by {
      SplitPrefix(k, '\n', "");
      OneNewKey(k);
    }
    assert Join([k], '\n') == k;
    StartsPlain(k);
    UnseenKeysAreLost(stored, k, decode);
  }

  /** A channel whose only key starts with a bracket loses it to an appended one. */
  lemma BracketKeyIsLost(decode: Decoder)
    requires decode("[a").NotArray?
    ensures var row := Row("[a", Info(1, map[], map[], map[]));
      && ValidRow(row, decode) && GetKeys(row.key, decode) == ["[a"]
      && GetKeys(Appended(row, "b", decode).key, decode) == ["b"]
  {
    BracketKey(decode);
    TrimClips("b", IsSpace);
    UnseenLostTo(Row("[a", Info(1, map[], map[], map[])), "b", decode);
  }

  lemma OneOtherKey(b: string, c: string)
    requires IsName(b) && IsName(c) && b != c
    ensures NewKeys([b], [c]) == [c]
  {
    CleanOfNames([b]);
    CleanOfNames([c]);
    var wanted := Elements([c]) - Elements([b]);
    assert c in wanted;
    assert Uniq([c]) == [c] by {
      assert [c][..0] == [];
    }
    KeepAppend([], c, wanted);
    assert [] + [c] == [c];
  }

  lemma TwoLines(b: string, c: string, decode: Decoder)
    requires Plain(b) && Plain(c)
    ensures Join([b, c], '\n') == b + "\n" + c && GetKeys(b + "\n" + c, decode) == [b, c]
  {
    assert [b, c][1..] == [c] && Join([c], '\n') == c;
    PlainStorable([b, c], decode);
    StorableIff([b, c], decode);
  }

  lemma OneKeySeen(decode: Decoder)
    ensures Seen("\nb", decode) && ExistingKeys("\nb", decode) == ["b"]
  {
    OneKeyRead(decode);
    assert "\nb"[1..] == "b" && TrimSpace("\nb") == "b";
  }

  lemma AppendedToB(decode: Decoder)
    ensures var row := Row("\nb", Info(1, map[], map[1 := 5], map[]));
      GetKeys(Appended(row, "c", decode).key, decode) == ["b", "c"]
  {
    OneKeySeen(decode);
    TrimClips("b", IsSpace);
    TrimClips("c", IsSpace);
    OneOtherKey("b", "c");
    SplitPrefix("c", '\n', "");
    TwoLines("b", "c", decode);
    assert ["b"] + ["c"] == ["b", "c"];
  }

  /** After one key was deleted and two were taken (as `MultiKey.DeletionTakesTwo` shows), an appended key takes over
      the time that was left. */
  lemma LeftoverTimeReappears(decode: Decoder)
    ensures var row := Row("\nb", Info(1, map[], map[1 := 5], map[]));
      && ValidRow(row, decode) && ViewOf(row, decode) == [Rec("b", ENABLED, 0, "")]
      && ViewOf(Appended(row, "c", decode), decode) == [Rec("b", ENABLED, 0, ""), Rec("c", ENABLED, 5, "")]
  {
    OneKeyRead(decode);
    AppendedToB(decode);
    AppendedView(Row("\nb", Info(1, map[], map[1 := 5], map[])), "c", decode);
  }
}

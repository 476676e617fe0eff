/** The functions of Go's package strings that the gateway stores lists with. */
module Text {

  /** `unicode.IsSpace`. */
  predicate IsSpace(c: char) {
    || '\t' <= c <= '\r' || c == ' ' || c == '\U{0085}' || c == '\U{00A0}' || c == '\U{1680}'
    || '\U{2000}' <= c <= '\U{200A}' || c == '\U{2028}' || c == '\U{2029}' || c == '\U{202F}'
    || c == '\U{205F}' || c == '\U{3000}'
  }

  /** These are all. */
  lemma Spaces(c: char)
    ensures IsSpace(c) <==>
      c in {'\t', '\n', '\U{000B}', '\U{000C}', '\r', ' ', '\U{0085}', '\U{00A0}', '\U{1680}', '\U{2000}', '\U{2001}',
            '\U{2002}', '\U{2003}', '\U{2004}', '\U{2005}', '\U{2006}', '\U{2007}', '\U{2008}', '\U{2009}', '\U{200A}',
            '\U{2028}', '\U{2029}', '\U{202F}', '\U{205F}', '\U{3000}'}
  {
  }

  function TrimLeft(s: string, cut: char -> bool): string {
    if s != [] && cut(s[0]) then TrimLeft(s[1..], cut) else s
  }

  function TrimRight(s: string, cut: char -> bool): string {
    if s != [] && cut(s[|s| - 1]) then TrimRight(s[..|s| - 1], cut) else s
  }

  /** `strings.TrimFunc`. */
  function TrimBoth(s: string, cut: char -> bool): string {
    TrimRight(TrimLeft(s, cut), cut)
  }

  function TrimSpace(s: string): string {
    TrimBoth(s, IsSpace)
  }

  /** `strings.Trim` with a cutset of one character. */
  function Trim(s: string, c: char): string {
    TrimBoth(s, (x: char) => x == c)
  }

  /** `strings.Split` at a separator of one character. */
  function Split(s: string, sep: char): (parts: seq<string>)
    ensures parts != []
    ensures forall p | p in parts :: sep !in p
  {
    if s == [] then [[]]
    else
      var rest := Split(s[1..], sep);
      if s[0] == sep then [[]] + rest else [[s[0]] + rest[0]] + rest[1..]
  }

  /** `strings.Join` with a separator of one character. */
  function Join(parts: seq<string>, sep: char): string {
    if parts == [] then [] else if |parts| == 1 then parts[0] else parts[0] + [sep] + Join(parts[1..], sep)
  }

  predicate Clipped(s: string, cut: char -> bool) {
    s == [] || (!cut(s[0]) && !cut(s[|s| - 1]))
  }

  lemma {:induction false} TrimLeftClips(s: string, cut: char -> bool)
    ensures var t := TrimLeft(s, cut); (t == [] || !cut(t[0])) && |t| <= |s| && t == s[|s| - |t|..]
  {
    if s != [] && cut(s[0]) {
      TrimLeftClips(s[1..], cut);
      var t := TrimLeft(s, cut);
      assert s[1..][|s| - 1 - |t|..] == s[|s| - |t|..];
    }
  }

  lemma {:induction false} TrimRightClips(s: string, cut: char -> bool)
    ensures var t := TrimRight(s, cut); (t == [] || !cut(t[|t| - 1])) && |t| <= |s| && t == s[..|t|]
  {
    if s != [] && cut(s[|s| - 1]) {
      TrimRightClips(s[..|s| - 1], cut);
    }
  }

  /** Where the trimmed text lies, and that its ends are clean. */
  lemma TrimIsSubstring(s: string, cut: char -> bool) returns (k: nat)
    ensures var t := TrimBoth(s, cut); k + |t| <= |s| && t == s[k..k + |t|] && Clipped(t, cut)
  {
    var left := TrimLeft(s, cut);
    TrimLeftClips(s, cut);
    TrimRightClips(left, cut);
    k := |s| - |left|;
  }

  /** Trimming gives a clipped substring and changes exactly the strings that are not clipped. */
  lemma TrimClips(s: string, cut: char -> bool)
    ensures Clipped(TrimBoth(s, cut), cut)
    ensures Clipped(s, cut) <==> TrimBoth(s, cut) == s
    ensures forall c | c in TrimBoth(s, cut) :: c in s
  {
    var k := TrimIsSubstring(s, cut);
    var t := TrimBoth(s, cut);
    forall c | c in t ensures c in s {
      var i :| 0 <= i < |t| && t[i] == c;
      assert s[k + i] == c;
    }
  }

  lemma TrimSpaceOnce(s: string)
    ensures TrimSpace(TrimSpace(s)) == TrimSpace(s)
    ensures forall c | c in TrimSpace(s) :: c in s
  {
    TrimClips(s, IsSpace);
    TrimClips(TrimSpace(s), IsSpace);
  }

  lemma {:induction false} SplitPrefix(p: string, sep: char, s: string)
    requires sep !in p
    ensures Split(p + [sep] + s, sep) == [p] + Split(s, sep)
    ensures Split(p, sep) == [p]
  {
    if p == [] {
      assert (p + [sep] + s)[1..] == s;
    } else {
      SplitPrefix(p[1..], sep, s);
      assert (p + [sep] + s)[1..] == p[1..] + [sep] + s;
      assert [p[0]] + p[1..] == p;
      var rest := Split(p[1..] + [sep] + s, sep);
      assert rest == [p[1..]] + Split(s, sep);
      assert rest[1..] == Split(s, sep);
    }
  }

  /** Splitting undoes joining exactly when there is a part and no part contains the separator. */
  lemma {:induction false} SplitOfJoin(parts: seq<string>, sep: char)
    ensures Split(Join(parts, sep), sep) == parts <==> parts != [] && forall p | p in parts :: sep !in p
  {
    if parts != [] && forall p | p in parts :: sep !in p {
      SplitPrefix(parts[0], sep, Join(parts[1..], sep));
      if |parts| > 1 {
        SplitOfJoin(parts[1..], sep);
        assert [parts[0]] + parts[1..] == parts;
      }
    }
  }

  lemma {:induction false} JoinEnds(parts: seq<string>, sep: char)
    requires parts != []
    ensures var j := Join(parts, sep);
      && (parts[0] == [] ==> j == [] || j[0] == sep)
      && (parts[0] != [] ==> j != [] && j[0] == parts[0][0])
      && (parts[|parts| - 1] == [] ==> j == [] || j[|j| - 1] == sep)
      && (parts[|parts| - 1] != [] ==> j != [] && j[|j| - 1] == parts[|parts| - 1][|parts[|parts| - 1]| - 1])
      && (j == [] <==> parts == [[]])
  {
    if |parts| > 1 {
      JoinEnds(parts[1..], sep);
    }
  }

  /** Reading a list back as `Split(Trim(s, sep), sep)` undoes joining separator-free parts exactly when the first
      and the last part are not empty, or the list is one empty part. */
  lemma SplitOfTrimOfJoin(parts: seq<string>, sep: char)
    requires parts != [] && forall p | p in parts :: sep !in p
    ensures Split(Trim(Join(parts, sep), sep), sep) == parts <==>
      parts == [[]] || (parts[0] != [] && parts[|parts| - 1] != [])
  {
    var j := Join(parts, sep);
    var cut := (x: char) => x == sep;
    SplitOfJoin(parts, sep);
    JoinEnds(parts, sep);
    TrimClips(j, cut);
    assert Trim(j, sep) == TrimBoth(j, cut);
    assert parts[0] in parts && parts[|parts| - 1] in parts;
    if parts != [[]] && (parts[0] == [] || parts[|parts| - 1] == []) {
      assert Trim(j, sep) != j;
      JoinOfSplit(Trim(j, sep), sep);
    }
  }

  lemma {:induction false} JoinOfSplit(s: string, sep: char)
    ensures Join(Split(s, sep), sep) == s
  {
    if s != [] {
      JoinOfSplit(s[1..], sep);
      var rest := Split(s[1..], sep);
      if s[0] == sep {
        assert ([[]] + rest)[1..] == rest;
      } else {
        var parts := [[s[0]] + rest[0]] + rest[1..];
        assert parts[1..] == rest[1..];
        if |rest| > 1 {
          assert Join(rest, sep) == rest[0] + [sep] + Join(rest[1..], sep);
        }
      }
    }
  }
}

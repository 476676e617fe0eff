/**
  `getOpusDuration` of common/audio.go: a walk over the pages of an Ogg stream that keeps the largest granule
  position and searches byte by byte for the next page when it is lost. The page layout is that of section 6 of
  RFC 3533; granule positions count samples at 48 kHz as in section 4 of RFC 7845.
*/
module OggWalk {
  import opened Common

  const HEADER := 27
  const TWO63 := 0x8000_0000_0000_0000
  const TWO64 := 0x1_0000_0000_0000_0000

  /** The capture pattern "OggS". */
  const CAPTURE: seq<Byte> := [0x4F, 0x67, 0x67, 0x53]

  function FromLittleEndian(b: seq<Byte>): nat {
    if b == [] then 0 else b[0] + 256 * FromLittleEndian(b[1..])
  }

  /** The conversion of a uint64 to an int64. */
  function Signed(u: int): int {
    if u >= TWO63 then u - TWO64 else u
  }

  function Sum(b: seq<Byte>): nat {
    if b == [] then 0 else Sum(b[..|b| - 1]) + b[|b| - 1]
  }

  /** Nothing sums to nothing, one byte to itself, and parts to the sum of their sums. */
  lemma {:induction false} SumLaw(a: seq<Byte>, b: seq<Byte>)
    ensures Sum([]) == 0 && Sum(a + b) == Sum(a) + Sum(b) && (|a| == 1 ==> Sum(a) == a[0])
  {
    if b == [] {
      assert a + b == a;
    } else {
      SumLaw(a, b[..|b| - 1]);
      assert (a + b)[..|a + b| - 1] == a + b[..|b| - 1];
    }
  }

  function Max(a: int, b: int): int {
    if b > a then b else a
  }

  function GranuleAt(s: seq<Byte>): int
    requires |s| >= HEADER
  {
    Signed(FromLittleEndian(s[6..14]))
  }

  function Drop(s: seq<Byte>, n: nat): (r: seq<Byte>)
    ensures n > 0 && s != [] ==> |r| < |s|
  {
    if n <= |s| then s[n..] else []
  }

  /** What the walk does at the start of `s`: it stops, or goes on with a shorter rest. */
  datatype Step = Stop(best: int) | Go(rest: seq<Byte>, best: int)

  function Next(s: seq<Byte>, best: int): (step: Step)
    ensures step.Go? ==> |step.rest| < |s|
  {
    if |s| < HEADER then Stop(best)
    else if s[..4] != CAPTURE then Go(s[1..], best)
    else
      var best' := Max(best, GranuleAt(s));
      var n := s[26];
      if |s| < HEADER + n then Stop(best') else Go(Drop(s, HEADER + n + Sum(s[HEADER..HEADER + n])), best')
  }

  /** The walk over the rest `s` of the stream, with the largest granule position so far. */
  function Walk(s: seq<Byte>, best: int): int
    decreases |s|
  {
    match Next(s, best)
    case Stop(b) => b
    case Go(rest, b) => Walk(rest, b)
  }

  lemma DropDrop(s: seq<Byte>, i: nat, n: nat)
    requires i <= |s|
    ensures Drop(s[i..], n) == Drop(s, i + n)
  {
  }

  method SumTable(table: seq<Byte>) returns (pageSize: nat)
    ensures pageSize == Sum(table)
  {
    pageSize := 0;
    for i := 0 to |table|
      invariant pageSize == Sum(table[..i])
    {
      assert table[..i + 1][..i] == table[..i];
      pageSize := pageSize + table[i];
    }
    assert table[..|table|] == table;
  }

  lemma SliceOfSlice(s: seq<Byte>, a: nat, b: nat, c: nat, d: nat)
    requires a <= b <= |s| && c <= d <= b - a
    ensures s[a..b][c..d] == s[a + c..a + d]
  {
    forall i | 0 <= i < d - c ensures s[a..b][c..d][i] == s[a + c..a + d][i] {
      assert s[a..b][c..d][i] == s[a..b][c + i];
    }
  }

  /** The same step by offset: whether to go on, the next offset, and the largest granule position. */
  function StepAt(data: seq<Byte>, pos: nat, best: int): (bool, nat, int) {
    if |data| < pos + HEADER then (false, pos, best)
    else
      var buf := data[pos..pos + HEADER];
      if buf[..4] != CAPTURE then (true, pos + 1, best)
      else
        var best' := Max(best, Signed(FromLittleEndian(buf[6..14])));
        var table := pos + HEADER;
        if |data| < table + buf[26] then (false, table, best')
        else (true, table + buf[26] + Sum(data[table..table + buf[26]]), best')
  }

  lemma HeaderAt(data: seq<Byte>, pos: nat)
    requires pos + HEADER <= |data|
    ensures var rest, buf := Drop(data, pos), data[pos..pos + HEADER];
      rest[..4] == buf[..4] && rest[6..14] == buf[6..14] && rest[26] == buf[26]
  {
    assert Drop(data, pos) == data[pos..|data|];
    SliceOfSlice(data, pos, |data|, 6, 14);
    SliceOfSlice(data, pos, pos + HEADER, 6, 14);
    SliceOfSlice(data, pos, |data|, 0, 4);
    SliceOfSlice(data, pos, pos + HEADER, 0, 4);
  }

  lemma TableAt(data: seq<Byte>, pos: nat, n: nat)
    requires pos + HEADER + n <= |data|
    ensures Drop(data, pos)[HEADER..HEADER + n] == data[pos + HEADER..pos + HEADER + n]
  {
    assert Drop(data, pos) == data[pos..|data|];
    SliceOfSlice(data, pos, |data|, HEADER, HEADER + n);
  }

  lemma PageStep(data: seq<Byte>, pos: nat, best: int)
    requires pos + HEADER <= |data| && data[pos..pos + HEADER][..4] == CAPTURE
    ensures var (more, pos', best') := StepAt(data, pos, best);
      Next(Drop(data, pos), best) == if more then Go(Drop(data, pos'), best') else Stop(best')
  {
    var rest, n := Drop(data, pos), data[pos..pos + HEADER][26];
    HeaderAt(data, pos);
    if pos + HEADER + n <= |data| {
      TableAt(data, pos, n);
      DropDrop(data, pos, HEADER + n + Sum(rest[HEADER..HEADER + n]));
    }
  }

  lemma StepIsNext(data: seq<Byte>, pos: nat, best: int)
    ensures var (more, pos', best') := StepAt(data, pos, best);
      Next(Drop(data, pos), best) == if more then Go(Drop(data, pos'), best') else Stop(best')
  {
    if pos + HEADER <= |data| {
      if data[pos..pos + HEADER][..4] == CAPTURE {
        PageStep(data, pos, best);
      } else {
        HeaderAt(data, pos);
        DropDrop(data, pos, 1);
      }
    }
  }

  /** One round of the loop at offset `pos`. */
  method Advance(data: seq<Byte>, pos: nat, total: int) returns (more: bool, pos': nat, total': int)
    ensures (more, pos', total') == StepAt(data, pos, total)
  {
    more, pos', total' := true, pos, total;
    if |data| - pos < HEADER {
      // end of file, or a read shorter than a header
      more := false;
      return;
    }
    var buf := data[pos..pos + HEADER];
    pos' := pos + HEADER;
    if buf[..4] != CAPTURE {
      pos' := pos' - 26;
      return;
    }
    var granule := Signed(FromLittleEndian(buf[6..14]));
    if granule > total {
      total' := granule;
    }
    var segments := buf[26];
    if |data| - pos' < segments {
      more := false;
      return;
    }
    var pageSize := SumTable(data[pos'..pos' + segments]);
    pos' := pos' + segments + pageSize;
  }

  method GetOpusDuration(data: seq<Byte>) returns (duration: real)
    ensures duration == Walk(data, 0) as real / 48000.0
  {
    var total := 0;
    var pos := 0;
    var reading := true;
    while reading
      invariant pos >= 0
      invariant if reading then Walk(Drop(data, pos), total) == Walk(data, 0) else total == Walk(data, 0)
      decreases reading, |data| - pos
    {
      StepIsNext(data, pos, total);
      reading, pos, total := Advance(data, pos, total);
    }
    duration := total as real / 48000.0;
  }

  // ----- well-formed pages -----

  function ToLittleEndian(u: nat, n: nat): (b: seq<Byte>)
    ensures |b| == n
  {
    if n == 0 then [] else [u % 256] + ToLittleEndian(u / 256, n - 1)
  }

  function Pow256(n: nat): nat {
    if n == 0 then 1 else 256 * Pow256(n - 1)
  }

  lemma {:induction false} LittleEndianRoundTrip(u: nat, n: nat)
    requires u < Pow256(n)
    ensures FromLittleEndian(ToLittleEndian(u, n)) == u
  {
    if n > 0 {
      LittleEndianRoundTrip(u / 256, n - 1);
      assert ToLittleEndian(u, n)[1..] == ToLittleEndian(u / 256, n - 1);
    }
  }

  /** A page: version and flags, granule position, serial, sequence and checksum fields, lacing values, body. */
  datatype Page = Page(flags: seq<Byte>, granule: int, ids: seq<Byte>, lacing: seq<Byte>, body: seq<Byte>)

  predicate WellFormed(p: Page) {
    |p.flags| == 2 && -TWO63 <= p.granule < TWO63 && |p.ids| == 12 && |p.lacing| <= 255 && |p.body| == Sum(p.lacing)
  }

  function Unsigned(g: int): nat
    requires -TWO63 <= g < TWO63
  {
    if g < 0 then g + TWO64 else g
  }

  function Encode(p: Page): seq<Byte>
    requires WellFormed(p)
  {
    CAPTURE + p.flags + ToLittleEndian(Unsigned(p.granule), 8) + p.ids + [|p.lacing|] + p.lacing + p.body
  }

  /** Where the fields of a page are: "OggS" first, the granule position at 6, the number of segments at 26, their table
      at 27, and then the body. */
  lemma PageLayout(p: Page)
    requires WellFormed(p)
    ensures var s := Encode(p); var n := |p.lacing|;
      && |s| == 27 + n + Sum(p.lacing) && s[..4] == ['O' as int, 'g' as int, 'g' as int, 'S' as int]
      && s[6..14] == ToLittleEndian(Unsigned(p.granule), 8) && s[26] == n && s[27..27 + n] == p.lacing
      && s[27 + n..] == p.body
  {
    var s := Encode(p);
    assert s[6..14] == ToLittleEndian(Unsigned(p.granule), 8);
  }

  lemma GranuleRoundTrip(g: int)
    requires -TWO63 <= g < TWO63
    ensures Signed(FromLittleEndian(ToLittleEndian(Unsigned(g), 8))) == g
  {
    assert Pow256(8) == TWO64 by {
      assert Pow256(2) == 65536;
      assert Pow256(4) == 256 * 256 * Pow256(2);
      assert Pow256(6) == 256 * 256 * Pow256(4);
      assert Pow256(8) == 256 * 256 * Pow256(6);
    }
    LittleEndianRoundTrip(Unsigned(g), 8);
  }

  /** Where the fields of a page lie. */
  lemma PageFields(p: Page, rest: seq<Byte>)
    requires WellFormed(p)
    ensures var s := Encode(p) + rest; var n := |p.lacing|;
      && |Encode(p)| == HEADER + n + |p.body| && s[..4] == CAPTURE && s[6..14] == ToLittleEndian(Unsigned(p.granule), 8)
      && s[26] == n && s[HEADER..HEADER + n] == p.lacing && s[|Encode(p)|..] == rest
  {
    var s, le := Encode(p) + rest, ToLittleEndian(Unsigned(p.granule), 8);
    var head := CAPTURE + p.flags;
    assert s == head + (le + (p.ids + [|p.lacing|] + p.lacing + p.body + rest));
    assert s == (head + le + p.ids + [|p.lacing|]) + (p.lacing + (p.body + rest));
  }

  /** The walk takes a well-formed page in one step. */
  lemma WalkPage(p: Page, rest: seq<Byte>, best: int)
    requires WellFormed(p)
    ensures Walk(Encode(p) + rest, best) == Walk(rest, Max(best, p.granule))
  {
    PageFields(p, rest);
    GranuleRoundTrip(p.granule);
    assert Next(Encode(p) + rest, best) == Go(rest, Max(best, p.granule));
  }

  predicate CaptureAt(s: seq<Byte>, i: nat) {
    i + 4 <= |s| && s[i..i + 4] == CAPTURE
  }

  /** No page seems to start among the bytes of `junk`. */
  predicate NoCapture(junk: seq<Byte>, rest: seq<Byte>) {
    forall i | 0 <= i < |junk| :: !CaptureAt(junk + rest, i)
  }

  lemma CaptureShifts(s: seq<Byte>, k: nat, i: nat)
    requires k <= |s|
    ensures CaptureAt(s[k..], i) <==> CaptureAt(s, k + i)
  {
    if i + 4 <= |s| - k {
      assert s[k..] == s[k..|s|];
      SliceOfSlice(s, k, |s|, i, i + 4);
    }
  }

  /** The walk finds its way through bytes that are no page. */
  lemma {:induction false} WalkJunk(junk: seq<Byte>, rest: seq<Byte>, best: int)
    requires NoCapture(junk, rest)
    ensures Walk(junk + rest, best) == Walk(rest, best)
  {
    var s := junk + rest;
    if junk == [] {
      assert s == rest;
    } else if |s| >= HEADER {
      assert !CaptureAt(s, 0) && s[..4] == s[0..4];
      assert s[1..] == junk[1..] + rest;
      forall i | 0 <= i < |junk| - 1 ensures !CaptureAt(junk[1..] + rest, i) {
        CaptureShifts(s, 1, i);
      }
      WalkJunk(junk[1..], rest, best);
    }
  }

  /** A page, after some bytes that are no page. */
  datatype Part = Part(junk: seq<Byte>, page: Page)

  function Stream(parts: seq<Part>, tail: seq<Byte>): seq<Byte>
    requires forall part | part in parts :: WellFormed(part.page)
  {
    if parts == [] then tail else parts[0].junk + (Encode(parts[0].page) + Stream(parts[1..], tail))
  }

  predicate Synchronised(parts: seq<Part>, tail: seq<Byte>)
    requires forall part | part in parts :: WellFormed(part.page)
  {
    if parts == [] then NoCapture(tail, [])
    else NoCapture(parts[0].junk, Encode(parts[0].page) + Stream(parts[1..], tail)) && Synchronised(parts[1..], tail)
  }

  function Largest(parts: seq<Part>, best: int): int {
    if parts == [] then best else Largest(parts[1..], Max(best, parts[0].page.granule))
  }

  /** `Largest` is the maximum of `best` and all granule positions. */
  lemma {:induction false} LargestIsMaximum(parts: seq<Part>, best: int)
    ensures Largest(parts, best) >= best && forall part | part in parts :: Largest(parts, best) >= part.page.granule
    ensures Largest(parts, best) == best || exists part | part in parts :: Largest(parts, best) == part.page.granule
  {
    if parts != [] {
      LargestIsMaximum(parts[1..], Max(best, parts[0].page.granule));
      assert parts[0] in parts;
    }
  }

  lemma {:induction false} WalkStream(parts: seq<Part>, tail: seq<Byte>, best: int)
    requires (forall part | part in parts :: WellFormed(part.page)) && Synchronised(parts, tail)
    ensures Walk(Stream(parts, tail), best) == Largest(parts, best)
  {
    if parts == [] {
      assert tail + [] == tail;
      WalkJunk(tail, [], best);
    } else {
      var rest := Stream(parts[1..], tail);
      WalkJunk(parts[0].junk, Encode(parts[0].page) + rest, best);
      WalkPage(parts[0].page, rest, best);
      WalkStream(parts[1..], tail, Max(best, parts[0].page.granule));
    }
  }

  /** Pages one after the other, with nothing between or after them, need no search. */
  lemma {:induction false} PlainPagesAreSynchronised(parts: seq<Part>)
    requires forall part | part in parts :: WellFormed(part.page) && part.junk == []
    ensures Synchronised(parts, [])
  {
    if parts != [] {
      PlainPagesAreSynchronised(parts[1..]);
    }
  }

  /** On any bytes at all, the result is 0 or a granule position that follows a capture pattern. */
  lemma {:induction false} WalkIsSomeGranule(s: seq<Byte>, best: int)
    ensures Walk(s, best) >= best
    ensures Walk(s, best) == best || exists i | 0 <= i <= |s| - HEADER ::
      CaptureAt(s, i) && GranuleAt(s[i..]) == Walk(s, best)
    decreases |s|
  {
    var step := Next(s, best);
    if |s| >= HEADER && Walk(s, best) != best {
      if step.Go? {
        WalkIsSomeGranule(step.rest, step.best);
      }
      if step.Go? && Walk(s, best) != step.best {
        var k := |s| - |step.rest|;
        assert step.rest == s[k..];
        var i :| 0 <= i <= |step.rest| - HEADER && CaptureAt(step.rest, i) &&
          GranuleAt(step.rest[i..]) == Walk(s, best);
        CaptureShifts(s, k, i);
        assert s[k + i..] == step.rest[i..];
      } else {
        assert s[0..4] == s[..4] && s[0..] == s;
        assert CaptureAt(s, 0);
      }
    } else if step.Go? {
      WalkIsSomeGranule(step.rest, step.best);
    }
  }
}

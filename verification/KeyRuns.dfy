/**
  Whole runs of the requests that change the keys of a channel: the six actions of `ManageMultiKeys` and the append
  branch of `UpdateChannel` (controller/channel.go), in any order and with any of them failing to be saved.
*/
module KeyRuns {
  import opened KeyAppend
  import opened MultiKey
  import opened Names
  import opened Text

  /** The append branch, on a channel whose stored text may be empty. */
  method Append(c: Channel, text: string, saving: Saving) returns (reply: Reply)
    requires c.Valid()
    modifies c
    ensures c.Valid() && reply == if saving.Saved? then Done(0) else Failed
    ensures c.Value() == if saving.Rejected? then old(c.Value()) else Appended(old(c.Value()), text, c.decode)
  {
    AppendedIsValid(c.Value(), text, c.decode);
    var keys := text;
    if c.key != "" {
      var all := AppendDeduplicated(ExistingKeys(c.key, c.decode), Split(text, '\n'));
      keys := Join(all, '\n');
    }
    reply := c.Update(keys, c.info, saving);
  }

  datatype Job = Act(request: Request) | Add(text: string, saving: Saving)

  /** What a job makes of a row. For an action that is what it shows; where dates may be left is part of it, because a
      key appended later takes them over. */
  ghost predicate Follows(row: Row, job: Job, row': Row, decode: Decoder) {
    ValidRow(row', decode) &&
    match job
    case Act(r) =>
      && ViewOf(row', decode) == After(ViewOf(row, decode), r, decode)
      && DatesAfter(ViewOf(row, decode), row.info, r, row'.info)
    case Add(text, saving) => row' == if saving.Rejected? then row else Appended(row, text, decode)
  }

  method ServeOne(c: Channel, job: Job) returns (reply: Reply)
    requires c.Valid()
    modifies c
    ensures c.Valid() && Follows(old(c.Value()), job, c.Value(), c.decode)
  {
    match job
    case Act(r) => reply := Perform(c, r);
    case Add(text, saving) => reply := Append(c, text, saving);
  }

  // ----- tidy channels -----

  /** No line of the text, once trimmed, starts with a bracket. */
  predicate PlainText(text: string) {
    forall line | line in Split(text, '\n') :: !("[" <= TrimSpace(line))
  }

  predicate PlainJob(job: Job) {
    job.Add? ==> PlainText(job.text)
  }

  predicate PlainJobs(jobs: seq<Job>) {
    forall i | 0 <= i < |jobs| :: PlainJob(jobs[i])
  }

  lemma {:induction false} TrimLeftTwice(s: string, c: char, cut: char -> bool)
    requires cut(c)
    ensures TrimLeft(TrimLeft(s, (x: char) => x == c), cut) == TrimLeft(s, cut)
  {
    if s != [] && s[0] == c {
      TrimLeftTwice(s[1..], c, cut);
    }
  }

  /** Text that is read as lines, the first of them plain, does not look like an array. */
  lemma PlainLineSeen(key: string)
    requires Plain(Split(Trim(key, '\n'), '\n')[0])
    ensures !LooksLikeArray(key)
  {
    var newline := (x: char) => x == '\n';
    var lines, left := Split(Trim(key, '\n'), '\n'), TrimLeft(key, newline);
    JoinOfSplit(Trim(key, '\n'), '\n');
    JoinEnds(lines, '\n');
    TrimRightClips(left, newline);
    assert left[0] == lines[0][0];
    StartsPlain(left);
    TrimLeftTwice(key, '\n', IsSpace);
    assert TrimSpace(key) == TrimSpace(left);
  }

  lemma PlainSeen(row: Row, decode: Decoder)
    requires ViewOf(row, decode) != [] && PlainView(ViewOf(row, decode))
    ensures row.key != "" && Seen(row.key, decode)
  {
    if !Seen(row.key, decode) {
      assert ViewOf(row, decode)[0].key == Split(Trim(row.key, '\n'), '\n')[0];
      PlainLineSeen(row.key);
    }
  }

  lemma NewKeysPlain(existing: seq<string>, text: string, k: string)
    requires PlainText(text) && k in NewKeys(existing, Split(text, '\n'))
    ensures Plain(k)
  {
    var lines := Split(text, '\n');
    NewKeysNames(existing, lines);
    CleanedLine(lines, k);
    CleanNames(lines);
    var line :| line in lines && TrimSpace(line) == k;
    TrimClips(line, IsSpace);
  }

  /** The list with the new keys of a text, enabled, at its end. */
  function Extended(view: seq<Rec>, text: string): seq<Rec> {
    view + FreshRecords(NewKeys(KeysOf(view), Split(text, '\n')))
  }

  lemma ExtendedIsPlain(view: seq<Rec>, text: string)
    requires PlainView(view) && PlainText(text)
    ensures PlainView(Extended(view, text))
  {
    var added := NewKeys(KeysOf(view), Split(text, '\n'));
    forall i | 0 <= i < |added| ensures Plain(FreshRecords(added)[i].key) {
      NewKeysPlain(KeysOf(view), text, added[i]);
    }
  }

  lemma TidyIsBlank(row: Row, m: nat, decode: Decoder)
    requires Tidy(row, decode)
    ensures BlankFrom(row.info, |ViewOf(row, decode)|, m)
  {
    var n := |ViewOf(row, decode)|;
    ViewSize(row, decode);
    forall i | n <= i < n + m ensures RecAt("", row.info, i) == Rec("", ENABLED, 0, "") {
      assert !Dated(row.info, i);
    }
  }

  /** The extended list can be stored. */
  lemma ExtendedIsKept(existing: seq<string>, view: seq<Rec>, text: string, decode: Decoder)
    requires existing == KeysOf(view) && PlainView(view) && PlainText(text)
    ensures SeenKept(existing, Split(text, '\n'), decode)
  {
    ExtendedIsPlain(view, text);
    var all := KeysOf(Extended(view, text));
    assert all == existing + NewKeys(existing, Split(text, '\n'));
    PlainStorable(all, decode);
  }

  lemma TidyExtends(row: Row, text: string, decode: Decoder)
    requires Tidy(row, decode) && PlainText(text)
    ensures ViewOf(Appended(row, text, decode), decode) == Extended(ViewOf(row, decode), text)
  {
    var view, existing := ViewOf(row, decode), GetKeys(row.key, decode);
    assert KeysOf(view) == existing;
    PlainSeen(row, decode);
    ExtendedIsKept(existing, view, text, decode);
    TidyIsBlank(row, |NewKeys(existing, Split(text, '\n'))|, decode);
    AppendedRecords(row, text, decode);
  }

  /** Appending to a tidy row extends its list. */
  lemma TidyAppend(row: Row, text: string, decode: Decoder)
    requires Tidy(row, decode) && PlainText(text)
    ensures var row' := Appended(row, text, decode);
      Tidy(row', decode) && ViewOf(row', decode) == Extended(ViewOf(row, decode), text)
  {
    TidyExtends(row, text, decode);
    ExtendedIsPlain(ViewOf(row, decode), text);
    AppendedIsValid(row, text, decode);
    assert forall j :: Dated(Appended(row, text, decode).info, j) <==> Dated(row.info, j);
  }

  /** What a job makes of a list of records. */
  function ListServe(view: seq<Rec>, job: Job): seq<Rec> {
    match job
    case Act(r) => ListAfter(view, r)
    case Add(text, saving) => if saving.Rejected? then view else Extended(view, text)
  }

  function ListServeAll(view: seq<Rec>, jobs: seq<Job>): seq<Rec> {
    if jobs == [] then view else ListServe(ListServeAll(view, jobs[..|jobs| - 1]), jobs[|jobs| - 1])
  }

  lemma TidyStep(row: Row, job: Job, row': Row, decode: Decoder)
    requires Tidy(row, decode) && PlainJob(job) && Follows(row, job, row', decode)
    ensures Tidy(row', decode) && ViewOf(row', decode) == ListServe(ViewOf(row, decode), job)
  {
    match job
    case Act(r) => TidyAfter(ViewOf(row, decode), row.info, r, row'.info, decode);
    case Add(text, saving) => if !saving.Rejected? { TidyAppend(row, text, decode); }
  }

  /** `rows` are the rows of a run of `jobs`. */
  ghost predicate Trace(rows: seq<Row>, jobs: seq<Job>, decode: Decoder) {
    && |rows| == |jobs| + 1
    && (jobs != [] ==>
          var n := |jobs| - 1;
          Trace(rows[..n + 1], jobs[..n], decode) && Follows(rows[n], jobs[n], rows[n + 1], decode))
  }

  lemma {:induction false} TidyTrace(rows: seq<Row>, jobs: seq<Job>, decode: Decoder)
    requires Trace(rows, jobs, decode) && Tidy(rows[0], decode) && PlainJobs(jobs)
    ensures var last := rows[|jobs|];
      Tidy(last, decode) && ViewOf(last, decode) == ListServeAll(ViewOf(rows[0], decode), jobs)
  {
    if jobs != [] {
      var n := |jobs| - 1;
      TidyTrace(rows[..n + 1], jobs[..n], decode);
      TidyStep(rows[n], jobs[n], rows[n + 1], decode);
    }
  }

  lemma TraceGrows(rows: seq<Row>, jobs: seq<Job>, i: nat, row: Row, decode: Decoder)
    requires i < |jobs| && Trace(rows, jobs[..i], decode) && Follows(rows[i], jobs[i], row, decode)
    ensures Trace(rows + [row], jobs[..i + 1], decode)
  {
    assert (rows + [row])[..i + 1] == rows && jobs[..i + 1][..i] == jobs[..i];
  }

  method ServeEach(c: Channel, jobs: seq<Job>) returns (replies: seq<Reply>, ghost rows: seq<Row>)
    requires c.Valid()
    modifies c
    ensures c.Valid() && |replies| == |jobs|
    ensures Trace(rows, jobs, c.decode) && rows[0] == old(c.Value()) && rows[|jobs|] == c.Value()
  {
    replies, rows := [], [c.Value()];
    for i := 0 to |jobs|
      invariant c.Valid() && |replies| == i
      invariant Trace(rows, jobs[..i], c.decode) && rows[0] == old(c.Value()) && rows[i] == c.Value()
    {
      var reply := ServeOne(c, jobs[i]);
      TraceGrows(rows, jobs, i, c.Value(), c.decode);
      replies, rows := replies + [reply], rows + [c.Value()];
    }
    assert jobs[..|jobs|] == jobs;
  }

  /** Every sequence of the seven requests keeps count and statuses right and goes step by step as specified. On a tidy
      channel, with no new key that starts with a bracket, text and maps show exactly what the same operations make of
      the plain list of records. */
  method Serve(c: Channel, jobs: seq<Job>) returns (replies: seq<Reply>, ghost rows: seq<Row>)
    requires c.Valid()
    modifies c
    ensures c.Valid() && |replies| == |jobs|
    ensures Trace(rows, jobs, c.decode) && rows[0] == old(c.Value()) && rows[|jobs|] == c.Value()
    ensures Tidy(old(c.Value()), c.decode) && PlainJobs(jobs) ==>
      Tidy(c.Value(), c.decode) && c.View() == ListServeAll(old(c.View()), jobs)
  {
    replies, rows := ServeEach(c, jobs);
    if Tidy(old(c.Value()), c.decode) && PlainJobs(jobs) {
      TidyTrace(rows, jobs, c.decode);
    }
  }
}

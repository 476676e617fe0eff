/**
  The `get_key_status` action of `ManageMultiKeys` (controller/channel.go): one status line per key, an
  optional status filter, and pages of the filtered list.
*/
module KeyStatusPages {
  import opened MultiKey

  datatype Filter = Every | Only(status: int)

  datatype KeyStatus = KeyStatus(index: nat, status: int, disabledTime: int, reason: string, preview: string)

  function Preview(key: string): string {
    if |key| > 10 then key[..10] + "..." else key
  }

  /** Time and reason are shown for keys that are not enabled. */
  function StatusLine(index: nat, rec: Rec): KeyStatus {
    if rec.status == ENABLED then KeyStatus(index, rec.status, 0, "", Preview(rec.key))
    else KeyStatus(index, rec.status, rec.time, rec.reason, Preview(rec.key))
  }

  /** What a line says: index and status, the first ten characters of the key, and time and reason unless the status is
      1. */
  lemma LineSays(index: nat, rec: Rec)
    ensures var line := StatusLine(index, rec);
      && line.index == index && line.status == rec.status
      && line.disabledTime == (if rec.status != 1 then rec.time else 0)
      && line.reason == (if rec.status != 1 then rec.reason else "")
      && (|rec.key| <= 10 ==> line.preview == rec.key)
      && (|rec.key| > 10 ==> |line.preview| == 13 && line.preview[..10] == rec.key[..10] && line.preview[10..] == "...")
  {
  }

  /** The lines of the records that pass the filter, in order. */
  function Lines(recs: seq<Rec>, filter: Filter): seq<KeyStatus> {
    if recs == [] then []
    else
      var n := |recs| - 1;
      Lines(recs[..n], filter) + if filter.Every? || recs[n].status == filter.status then [StatusLine(n, recs[n])]
        else []
  }

  /** A filtered list is as long as its status is frequent. */
  lemma {:induction false} FilteredTotal(recs: seq<Rec>, status: int)
    ensures |Lines(recs, Only(status))| == CountStatus(recs, status)
    ensures |Lines(recs, Every)| == |recs|
  {
    if recs != [] {
      FilteredTotal(recs[..|recs| - 1], status);
    }
  }

  function TotalPages(total: nat, pageSize: int): (n: nat)
    requires pageSize > 0
    ensures n >= 1
  {
    var pages := (total + pageSize - 1) / pageSize;
    if pages == 0 then 1 else pages
  }

  function PageSize(requested: int): int {
    if requested <= 0 then 50 else requested
  }

  /** The page shown for a request: below the first is the first, beyond the last is the last. */
  function PageShown(requested: int, totalPages: nat): int {
    var page := if requested <= 0 then 1 else requested;
    if page > totalPages then totalPages else page
  }

  /** A page that exists is shown itself, below the first the first and beyond the last the last, and the size is 50
      unless a positive one is asked for. */
  lemma RequestedPage(requested: int, size: int, totalPages: nat)
    requires totalPages >= 1
    ensures var page := PageShown(requested, totalPages);
      && 1 <= page <= totalPages && (1 <= requested <= totalPages ==> page == requested)
      && (requested < 1 ==> page == 1) && (requested > totalPages ==> page == totalPages)
    ensures PageSize(size) == if size >= 1 then size else 50
  {
  }

  function PageOf<T>(list: seq<T>, requested: int, pageSize: int): seq<T>
    requires pageSize > 0
  {
    var page := PageShown(requested, TotalPages(|list|, pageSize));
    var start := (page - 1) * pageSize;
    var end := if start + pageSize > |list| then |list| else start + pageSize;
    if 0 <= start < |list| then list[start..end] else []
  }

  /** `page(1)` to `page(n)`, one after the other. */
  function Concat<T>(page: nat -> seq<T>, n: nat): seq<T> {
    if n == 0 then [] else Concat(page, n - 1) + page(n)
  }

  /** The last page is the first that reaches the end. */
  lemma TotalPagesBounds(total: nat, pageSize: int)
    requires pageSize > 0
    ensures var n := TotalPages(total, pageSize);
      (n - 1) * pageSize <= total <= n * pageSize && (n > 1 ==> (n - 1) * pageSize < total)
  {
    var q := (total + pageSize - 1) / pageSize;
    assert q * pageSize <= total + pageSize - 1 < q * pageSize + pageSize;
  }

  /** Adjacent slices put together are a prefix. */
  lemma {:induction false} ConcatOfSlices<T>(list: seq<T>, cut: nat -> nat, page: nat -> seq<T>, n: nat)
    requires cut(0) == 0
    requires forall k: nat | 1 <= k <= n :: cut(k - 1) <= cut(k) <= |list| && page(k) == list[cut(k - 1)..cut(k)]
    ensures cut(n) <= |list| && Concat(page, n) == list[..cut(n)]
  {
    if n > 0 {
      ConcatOfSlices(list, cut, page, n - 1);
    }
  }

  function Cut(k: nat, pageSize: nat, total: nat): nat {
    if k * pageSize > total then total else k * pageSize
  }

  lemma PageIsSlice<T>(list: seq<T>, k: nat, pageSize: int)
    requires pageSize > 0 && 1 <= k <= TotalPages(|list|, pageSize)
    ensures Cut(k - 1, pageSize, |list|) <= Cut(k, pageSize, |list|)
    ensures PageOf(list, k, pageSize) == list[Cut(k - 1, pageSize, |list|)..Cut(k, pageSize, |list|)]
  {
    assert k * pageSize == (k - 1) * pageSize + pageSize;
    assert (k - 1) * pageSize >= 0;
  }

  /** All pages together are the list: nothing is lost, repeated or reordered. */
  lemma PagesAreTheList<T>(list: seq<T>, pageSize: int)
    requires pageSize > 0
    ensures Concat((k: nat) => PageOf(list, k, pageSize), TotalPages(|list|, pageSize)) == list
  {
    var total := TotalPages(|list|, pageSize);
    var cut := (k: nat) => Cut(k, pageSize, |list|);
    var page := (k: nat) => PageOf(list, k, pageSize);
    forall k: nat | 1 <= k <= total ensures cut(k - 1) <= cut(k) <= |list| && page(k) == list[cut(k - 1)..cut(k)] {
      PageIsSlice(list, k, pageSize);
    }
    ConcatOfSlices(list, cut, page, total);
    TotalPagesBounds(|list|, pageSize);
  }

  datatype Response = Response(keys: seq<KeyStatus>, total: nat, page: int, pageSize: int, totalPages: nat,
                               enabled: nat, manuallyDisabled: nat, autoDisabled: nat)

  method GetKeyStatus(recs: seq<Rec>, filter: Filter, requestedPage: int, requestedSize: int) returns (r: Response)
    ensures r.pageSize == PageSize(requestedSize) && r.total == |Lines(recs, filter)|
    ensures r.totalPages == TotalPages(r.total, r.pageSize) && r.page == PageShown(requestedPage, r.totalPages)
    ensures r.keys == PageOf(Lines(recs, filter), requestedPage, r.pageSize)
    ensures r.enabled == CountStatus(recs, ENABLED) && r.manuallyDisabled == CountStatus(recs, MANUALLY_DISABLED)
    ensures r.autoDisabled == CountStatus(recs, AUTO_DISABLED)
  {
    var pageSize := PageSize(requestedSize);
    var filtered: seq<KeyStatus> := [];
    var enabled, manual, auto := 0, 0, 0;
    for i := 0 to |recs|
      invariant filtered == Lines(recs[..i], filter)
      invariant enabled == CountStatus(recs[..i], ENABLED) && manual == CountStatus(recs[..i], MANUALLY_DISABLED)
      invariant auto == CountStatus(recs[..i], AUTO_DISABLED)
    {
      assert recs[..i + 1][..i] == recs[..i];
      var status := recs[i].status;
      if status == ENABLED {
        enabled := enabled + 1;
      } else if status == MANUALLY_DISABLED {
        manual := manual + 1;
      } else if status == AUTO_DISABLED {
        auto := auto + 1;
      }
      if filter.Every? || status == filter.status {
        filtered := filtered + [StatusLine(i, recs[i])];
      }
    }
    assert recs[..|recs|] == recs;
    var totalPages := TotalPages(|filtered|, pageSize);
    r := Response(PageOf(filtered, requestedPage, pageSize), |filtered|, PageShown(requestedPage, totalPages), pageSize,
      totalPages, enabled, manual, auto);
  }
}

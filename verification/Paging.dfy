/** The list view: rows newest first, cut into pages (List and Count in
    internal/store/store.go, the arithmetic of listTasks in internal/server/server.go). */
module Paging {
  import opened Tasks
  import opened Lifecycle
  import opened Filters

  /** The rows with ids below n that the filter describes, newest first. */
  ghost function MatchingDesc(rows: Rows, n: nat, f: ListFilter, like: Like): seq<Task> {
    if n == 0 then []
    else (if n - 1 in rows && Matches(f, rows[n - 1], like) then [rows[n - 1]] else []) + MatchingDesc(rows, n - 1, f, like)
  }

  lemma MatchingDescHead(rows: Rows, id: nat, f: ListFilter, like: Like, before: seq<Task>)
    ensures
      before + MatchingDesc(rows, id + 1, f, like)
      == (if id in rows && Matches(f, rows[id], like) then before + [rows[id]] else before) + MatchingDesc(rows, id, f, like)
  {
  }

  function Window<T>(all: seq<T>, offset: nat, limit: nat): seq<T> {
    if offset >= |all| then [] else all[offset..Min(offset + limit, |all|)]
  }

  /** Up to `most` elements of the list, from an offset on. */
  predicate IsStretch<T(==)>(all: seq<T>, from: nat, most: nat, out: seq<T>) {
    out == if from >= |all| then [] else if from + most >= |all| then all[from..] else all[from..from + most]
  }

  lemma WindowIsStretch<T>(all: seq<T>, from: nat, most: nat)
    ensures IsStretch(all, from, most, Window(all, from, most))
  {
    if from < |all| {
      assert all[from..|all|] == all[from..];
    }
  }

  /** A window over a list that grows by one. */
  lemma WindowGrows<T>(all: seq<T>, t: T, offset: nat, limit: nat)
    ensures
      Window(all + [t], offset, limit)
      == if |all| >= offset && |Window(all, offset, limit)| < limit then Window(all, offset, limit) + [t]
         else Window(all, offset, limit)
  {
  }

  function EffectiveLimit(limit: int): nat {
    if limit <= 0 || limit > 500 then 100 else limit
  }

  function EffectivePage(page: int): nat {
    Max(1, page)
  }

  function EffectivePageSize(size: int): nat {
    if size <= 0 || size > 500 then 20 else size
  }

  function PageCount(total: nat, size: nat): nat
    requires size >= 1
  {
    Max(1, if total % size != 0 then total / size + 1 else total / size)
  }

  function PageStart(page: nat, size: nat): nat
    requires page >= 1
  {
    (page - 1) * size
  }

  function PageOf<T>(all: seq<T>, page: nat, size: nat): seq<T>
    requires page >= 1
  {
    Window(all, PageStart(page, size), size)
  }

  /** The least number of pages, never below one, that holds the total. */
  method TotalPages(total: nat, size: nat) returns (pages: nat)
    requires size >= 1
    ensures pages >= 1 && pages * size >= total
    ensures pages > 1 ==> (pages - 1) * size < total
    ensures pages == PageCount(total, size)
  {
    pages := total / size;
    if total % size != 0 {
      pages := pages + 1;
    }
    if pages < 1 {
      pages := 1;
    }
    PageCountIsLeast(total, size);
  }

  /** Pages 1..k one after the other. */
  function FirstPages<T>(all: seq<T>, k: nat, size: nat): seq<T> {
    if k == 0 then [] else FirstPages(all, k - 1, size) + PageOf(all, k, size)
  }

  lemma {:induction false} FirstPagesArePrefix<T>(all: seq<T>, k: nat, size: nat)
    requires size >= 1
    ensures FirstPages(all, k, size) == all[..Min(k * size, |all|)]
  {
    if k > 0 {
      FirstPagesArePrefix(all, k - 1, size);
      var lo := (k - 1) * size;
      assert k * size == lo + size && 0 <= lo;
      if lo < |all| {
        assert all[..lo] + all[lo..Min(lo + size, |all|)] == all[..Min(lo + size, |all|)];
      }
    }
  }

  lemma TimesIsMonotone(a: int, b: int, c: nat)
    requires a <= b
    ensures a * c <= b * c
  {
  }

  lemma PageCountIsLeast(total: nat, size: nat)
    requires size >= 1
    ensures PageCount(total, size) * size >= total
    ensures PageCount(total, size) > 1 ==> (PageCount(total, size) - 1) * size < total
  {
    var q, n := total / size, PageCount(total, size);
    assert total == q * size + total % size;
    if total % size == 0 {
      TimesIsMonotone(q, n, size);
      if n > 1 {
        assert (n - 1) * size == q * size - size;
      }
    } else {
      TimesIsMonotone(q + 1, n, size);
      assert (q + 1) * size == q * size + size;
    }
  }

  lemma LaterPagesAreEmpty<T>(all: seq<T>, size: nat, page: nat)
    requires size >= 1 && page > PageCount(|all|, size)
    ensures PageOf(all, page, size) == []
  {
    PageCountIsLeast(|all|, size);
    TimesIsMonotone(PageCount(|all|, size), page - 1, size);
  }

  lemma PagesMakeUpTheList<T>(all: seq<T>, size: nat)
    requires size >= 1
    ensures FirstPages(all, PageCount(|all|, size), size) == all
  {
    var n := PageCount(|all|, size);
    PageCountIsLeast(|all|, size);
    FirstPagesArePrefix(all, n, size);
    assert Min(n * size, |all|) == |all| && all[..|all|] == all;
  }

  lemma WindowFits<T>(all: seq<T>, offset: nat, limit: nat)
    ensures |Window(all, offset, limit)| <= limit
  {
  }

  /** Pages before the last are full, and the last holds something unless the list is
      empty. */
  lemma PagesAreFilled<T>(all: seq<T>, size: nat, page: nat)
    requires size >= 1 && 1 <= page <= PageCount(|all|, size)
    ensures page < PageCount(|all|, size) ==> |PageOf(all, page, size)| == size
    ensures all != [] ==> PageOf(all, page, size) != []
  {
    var n := PageCount(|all|, size);
    PageCountIsLeast(|all|, size);
    TimesIsMonotone(page - 1, n - 1, size);
    if page < n {
      TimesIsMonotone(page, n - 1, size);
      assert page * size == PageStart(page, size) + size;
    }
  }

  /** The pages partition the list: in order they make it up, all but the last are full,
      the last holds something unless the list is empty, and later pages are empty. */
  lemma PagesPartitionTheList<T>(all: seq<T>, size: nat, page: nat)
    requires size >= 1 && page >= 1
    ensures FirstPages(all, PageCount(|all|, size), size) == all
    ensures |PageOf(all, page, size)| <= size
    ensures page < PageCount(|all|, size) ==> |PageOf(all, page, size)| == size
    ensures page == PageCount(|all|, size) && all != [] ==> PageOf(all, page, size) != []
    ensures page > PageCount(|all|, size) ==> PageOf(all, page, size) == []
  {
    PagesMakeUpTheList(all, size);
    WindowFits(all, PageStart(page, size), size);
    if page > PageCount(|all|, size) {
      LaterPagesAreEmpty(all, size, page);
    } else {
      PagesAreFilled(all, size, page);
    }
  }

  /** The list holds exactly the filtered rows, each once, in descending id order. */
  lemma {:induction false} ListIsTheFilteredTable(rows: Rows, n: nat, f: ListFilter, like: Like)
    requires forall id :: id in rows ==> rows[id].id == id
    ensures
      var all := MatchingDesc(rows, n, f, like);
      && (forall i, j :: 0 <= i < j < |all| ==> all[i].id > all[j].id)
      && (forall t :: t in all <==> 0 <= t.id < n && t.id in rows && rows[t.id] == t && Matches(f, t, like))
  {
    if n > 0 {
      ListIsTheFilteredTable(rows, n - 1, f, like);
      var rest := MatchingDesc(rows, n - 1, f, like);
      forall i | 0 <= i < |rest| ensures rest[i].id < n - 1 {
        assert rest[i] in rest;
      }
    }
  }
}

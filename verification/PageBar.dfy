/** The pagination bar and the id formatter of internal/server/ui.go. */
module PageBar {
  import opened Tasks

  datatype PageItem = PageItem(page: int, current: bool, ellipsis: bool)

  function Gap(): PageItem {
    PageItem(0, false, true)
  }

  function Button(p: int, current: int): PageItem {
    PageItem(p, p == current, false)
  }

  /** The whole numbers from lo to hi. */
  function Range(lo: int, hi: int): seq<int>
    decreases hi - lo
  {
    if lo > hi then [] else [lo] + Range(lo + 1, hi)
  }

  /** The pages a bar stands for, reading left to right after page `last`: a button is
      its page, an ellipsis the pages skipped before the next button. */
  function Expand(items: seq<PageItem>, last: int): seq<int> {
    if items == [] then []
    else if !items[0].ellipsis then [items[0].page] + Expand(items[1..], items[0].page)
    else if |items| > 1 then Range(last + 1, items[1].page - 1) + Expand(items[1..], items[1].page - 1)
    else []
  }

  /** Buttons for the pages lo..hi. */
  function Buttons(lo: int, hi: int, current: int): seq<PageItem>
    decreases hi - lo
  {
    if lo > hi then [] else Buttons(lo, hi - 1, current) + [Button(hi, current)]
  }

  function Head(lo: int, current: int): seq<PageItem> {
    if lo > 2 then [Button(1, current), Gap()] else if lo > 1 then [Button(1, current)] else []
  }

  function Tail(hi: int, total: int, current: int): seq<PageItem> {
    if hi < total - 1 then [Gap(), Button(total, current)] else if hi < total then [Button(total, current)] else []
  }

  /** The window of two pages either side of the current one, the first and last page,
      and an ellipsis for each hole. */
  function Bar(current: int, total: int): seq<PageItem> {
    if total <= 1 then [] else
    var lo, hi := Max(1, current - 2), Min(total, current + 2);
    Head(lo, current) + Buttons(lo, hi, current) + Tail(hi, total, current)
  }

  method AddWindow(items: seq<PageItem>, lo: int, hi: int, current: int) returns (out: seq<PageItem>)
    ensures out == items + Buttons(lo, hi, current)
  {
    out := items;
    var p := lo;
    while p <= hi
      invariant lo <= p && (p <= hi + 1 || p == lo)
      invariant out == items + Buttons(lo, p - 1, current)
    {
      out := out + [PageItem(p, p == current, false)];
      p := p + 1;
    }
    assert lo > hi ==> Buttons(lo, hi, current) == [];
  }

  method AddTail(items: seq<PageItem>, hi: int, total: int, current: int) returns (out: seq<PageItem>)
    ensures out == items + Tail(hi, total, current)
  {
    out := items;
    if hi < total {
      if hi < total - 1 {
        out := out + [PageItem(0, false, true)];
      }
      out := out + [PageItem(total, total == current, false)];
    }
  }

  method BuildPageItems(current: int, total: int) returns (items: seq<PageItem>)
    ensures items == Bar(current, total)
  {
    if total <= 1 {
      return [];
    }
    items := [];
    var lo, hi := current - 2, current + 2;
    if lo < 1 {
      lo := 1;
    }
    if hi > total {
      hi := total;
    }
    assert lo == Max(1, current - 2) && hi == Min(total, current + 2);
    if lo > 1 {
      items := items + [PageItem(1, 1 == current, false)];
      if lo > 2 {
        items := items + [PageItem(0, false, true)];
      }
    }
    assert items == Head(lo, current);
    items := AddWindow(items, lo, hi, current);
    items := AddTail(items, hi, total, current);
  }

  // ---- what the bar shows -----------------------------------------------------------

  lemma {:induction false} ButtonsAt(lo: int, hi: int, current: int)
    requires lo <= hi + 1
    ensures |Buttons(lo, hi, current)| == hi - lo + 1
    ensures forall i :: 0 <= i <= hi - lo ==> Buttons(lo, hi, current)[i] == Button(lo + i, current)
    decreases hi - lo
  {
    if lo <= hi {
      ButtonsAt(lo, hi - 1, current);
    }
  }

  lemma {:induction false} RangeAt(lo: int, hi: int)
    requires lo <= hi + 1
    ensures |Range(lo, hi)| == hi - lo + 1
    ensures forall i :: 0 <= i <= hi - lo ==> Range(lo, hi)[i] == lo + i
    decreases hi - lo
  {
    if lo <= hi {
      RangeAt(lo + 1, hi);
    }
  }

  lemma RangesJoin(lo: int, mid: int, hi: int)
    requires lo <= mid + 1 && mid <= hi
    ensures Range(lo, mid) + Range(mid + 1, hi) == Range(lo, hi)
  {
    RangeAt(lo, mid);
    RangeAt(mid + 1, hi);
    RangeAt(lo, hi);
  }

  /** A stretch of buttons expands to its pages. */
  lemma {:induction false} ButtonsExpand(lo: int, hi: int, current: int, rest: seq<PageItem>, last: int)
    requires lo <= hi
    ensures Expand(Buttons(lo, hi, current) + rest, last) == Range(lo, hi) + Expand(rest, hi)
    decreases hi - lo
  {
    var button := Button(hi, current);
    var more := [button] + rest;
    assert more[0] == button && more[1..] == rest;
    assert Expand(more, hi - 1) == [hi] + Expand(rest, hi) == Expand(more, last);
    if lo < hi {
      assert Buttons(lo, hi, current) + rest == Buttons(lo, hi - 1, current) + more by {
        assert Buttons(lo, hi, current) == Buttons(lo, hi - 1, current) + [button];
      }
      ButtonsExpand(lo, hi - 1, current, more, last);
      assert Range(lo, hi) == Range(lo, hi - 1) + [hi] by {
        RangesJoin(lo, hi - 1, hi);
        assert Range(hi, hi) == [hi];
      }
    } else {
      assert Buttons(lo, hi, current) == [button] by {
        assert Buttons(lo, hi - 1, current) == [];
      }
      assert Range(lo, hi) == [hi];
    }
  }

  /** What follows the window expands to the remaining pages. */
  lemma TailExpands(hi: int, total: int, current: int)
    requires 1 <= hi <= total
    ensures Expand(Tail(hi, total, current), hi) == Range(hi + 1, total)
  {
    var tail := Tail(hi, total, current);
    if hi < total - 1 {
      assert tail[1..] == [Button(total, current)] && tail[1..][1..] == [];
      RangesJoin(hi + 1, total - 1, total);
      assert Range(total, total) == [total];
      assert Expand(tail[1..], total - 1) == [total];
    } else if hi < total {
      assert tail[1..] == [];
    }
  }

  lemma AfterButton(p: int, current: int, rest: seq<PageItem>, last: int)
    ensures Expand([Button(p, current)] + rest, last) == [p] + Expand(rest, p)
  {
    assert ([Button(p, current)] + rest)[1..] == rest;
  }

  lemma AfterGap(rest: seq<PageItem>, last: int)
    requires rest != []
    ensures Expand([Gap()] + rest, last) == Range(last + 1, rest[0].page - 1) + Expand(rest, rest[0].page - 1)
  {
    assert ([Gap()] + rest)[1..] == rest && ([Gap()] + rest)[1] == rest[0];
  }

  lemma HeadWithGap(lo: int, current: int, rest: seq<PageItem>, skipped: seq<int>, shown: seq<int>)
    requires lo > 2 && rest != [] && rest[0].page == lo && skipped == Range(2, lo - 1) && shown == Expand(rest, lo - 1)
    ensures Expand(Head(lo, current) + rest, 0) == Range(1, lo - 1) + shown
  {
    AfterGap(rest, 1);
    AfterButton(1, current, [Gap()] + rest, 0);
    assert Head(lo, current) + rest == [Button(1, current)] + ([Gap()] + rest);
    assert Range(1, lo - 1) == [1] + skipped;
    assert [1] + (skipped + shown) == ([1] + skipped) + shown;
  }

  lemma HeadExpands(lo: int, current: int, rest: seq<PageItem>)
    requires lo >= 1 && rest != [] && rest[0] == Button(lo, current)
    ensures Expand(Head(lo, current) + rest, 0) == Range(1, lo - 1) + Expand(rest, lo - 1)
  {
    if lo > 2 {
      HeadWithGap(lo, current, rest, Range(2, lo - 1), Expand(rest, lo - 1));
    } else if lo > 1 {
      AfterButton(1, current, rest, 0);
      assert Range(1, 1) == [1];
    } else {
      assert [] + rest == rest;
    }
  }

  /** With the window inside the list, expanding the ellipses yields every page. */
  lemma BarExpandsToAllPages(current: int, total: int)
    requires total >= 2 && 1 <= current <= total + 2
    ensures Expand(Bar(current, total), 0) == Range(1, total)
  {
    var lo, hi := Max(1, current - 2), Min(total, current + 2);
    var tail := Tail(hi, total, current);
    var rest := Buttons(lo, hi, current) + tail;
    assert rest != [] && rest[0] == Button(lo, current) by {
      ButtonsAt(lo, hi, current);
    }
    assert Bar(current, total) == Head(lo, current) + rest;
    var before, window, after := Range(1, lo - 1), Range(lo, hi), Range(hi + 1, total);
    HeadExpands(lo, current, rest);
    ButtonsExpand(lo, hi, current, tail, lo - 1);
    TailExpands(hi, total, current);
    assert Expand(Bar(current, total), 0) == before + (window + after);
    ThreeRangesJoin(lo, hi, total);
  }

  lemma ThreeRangesJoin(lo: int, hi: int, total: int)
    requires 1 <= lo <= hi + 1 && hi <= total
    ensures Range(1, lo - 1) + (Range(lo, hi) + Range(hi + 1, total)) == Range(1, total)
  {
    if lo <= hi {
      RangesJoin(lo, hi, total);
      RangesJoin(1, lo - 1, total);
    } else {
      assert [] + Range(hi + 1, total) == Range(hi + 1, total);
      RangesJoin(1, hi, total);
    }
  }

  /** Beyond that the window is empty and the bar stops at page 1 and an ellipsis. */
  lemma BarBeyondTheEnd(current: int, total: int)
    requires total >= 2 && current > total + 2
    ensures Bar(current, total) == [Button(1, current), Gap()]
    ensures Expand(Bar(current, total), 0) == [1]
  {
    var bar := Bar(current, total);
    assert bar == [Button(1, current), Gap()];
    assert bar[1..] == [Gap()];
  }

  /** The bar stands for all the pages exactly when the current page is at most two
      past the last one; renderUI passes the requested page unclamped. */
  lemma BarIsCompleteIff(current: int, total: int)
    requires total >= 2 && current >= 1
    ensures Expand(Bar(current, total), 0) == Range(1, total) <==> current <= total + 2
  {
    if current <= total + 2 {
      BarExpandsToAllPages(current, total);
    } else {
      BarBeyondTheEnd(current, total);
      RangeAt(1, total);
    }
  }

  /** The bar, position by position. */
  lemma BarLayout(current: int, total: int)
    requires total >= 2 && 1 <= current <= total
    ensures
      var lo, hi, bar := Max(1, current - 2), Min(total, current + 2), Bar(current, total);
      var n := |Head(lo, current)|;
      && |bar| == n + (hi - lo + 1) + |Tail(hi, total, current)|
      && (forall i :: 0 <= i < n ==> bar[i] == Head(lo, current)[i])
      && (forall i :: n <= i <= n + hi - lo ==> bar[i] == Button(lo + i - n, current))
      && (forall i :: n + hi - lo < i < |bar| ==> bar[i] == Tail(hi, total, current)[i - (n + hi - lo + 1)])
  {
    ButtonsAt(Max(1, current - 2), Min(total, current + 2), current);
  }

  /** For a page that exists the bar has at most nine items and runs from page 1 to
      the last page; the current page, and nothing else, is marked. */
  lemma BarMarksTheCurrentPage(current: int, total: int)
    requires total >= 2 && 1 <= current <= total
    ensures
      var bar := Bar(current, total);
      && 2 <= |bar| <= 9
      && bar[0] == Button(1, current) && bar[|bar| - 1] == Button(total, current)
      && (forall i :: 0 <= i < |bar| && !bar[i].ellipsis ==> bar[i] == Button(bar[i].page, current))
      && (forall i :: 0 <= i < |bar| && bar[i].ellipsis ==> !bar[i].current)
      && Button(current, current) in bar
  {
    BarLayout(current, total);
    var lo, bar := Max(1, current - 2), Bar(current, total);
    assert bar[|Head(lo, current)| + current - lo] == Button(current, current);
  }

  /** Neighbouring buttons are consecutive pages, and an ellipsis stands between two
      buttons exactly where at least one page is skipped. */
  lemma EllipsesStandForGaps(current: int, total: int, i: nat)
    requires total >= 2 && 1 <= current <= total && i < |Bar(current, total)|
    ensures
      var bar := Bar(current, total);
      && (bar[i].ellipsis ==>
            && 0 < i < |bar| - 1 && !bar[i - 1].ellipsis && !bar[i + 1].ellipsis
            && bar[i + 1].page - bar[i - 1].page >= 2)
      && (i + 1 < |bar| && !bar[i].ellipsis && !bar[i + 1].ellipsis ==> bar[i + 1].page == bar[i].page + 1)
  {
    BarLayout(current, total);
  }

  /** Page numbers rise from left to right. */
  lemma PagesRise(current: int, total: int, i: nat, j: nat)
    requires total >= 2 && 1 <= current <= total && i < j < |Bar(current, total)|
    requires !Bar(current, total)[i].ellipsis && !Bar(current, total)[j].ellipsis
    ensures Bar(current, total)[i].page < Bar(current, total)[j].page
  {
    BarLayout(current, total);
  }

  // ---- ids as text --------------------------------------------------------------------

  const MIN_INT64: int := -0x8000_0000_0000_0000
  const MAX_INT64: int := 0x7fff_ffff_ffff_ffff

  /** Two's-complement negation on 64 bits: the least value is its own negative. */
  function Negate64(i: int): int {
    if i == MIN_INT64 then i else -i
  }

  function DigitChar(d: int): char
    requires 0 <= d <= 9
  {
    ('0' as int + d) as char
  }

  /** The decimal digits of a positive number; nothing for zero. */
  function Digits(i: int): string {
    if i <= 0 then "" else Digits(i / 10) + [DigitChar(i % 10)]
  }

  function ValueOf(text: string): int {
    if text == "" then 0
    else if text[0] == '-' then -ValueOf(text[1..])
    else ValueOf(text[..|text| - 1]) * 10 + (text[|text| - 1] as int - '0' as int)
  }

  function PowerOfTen(n: nat): int {
    if n == 0 then 1 else 10 * PowerOfTen(n - 1)
  }

  lemma TenToTheNineteenth()
    ensures PowerOfTen(19) == 10_000_000_000_000_000_000
  {
    assert PowerOfTen(5) == 100_000;
    assert PowerOfTen(10) == 100_000 * PowerOfTen(5);
    assert PowerOfTen(15) == 100_000 * PowerOfTen(10);
    assert PowerOfTen(19) == 10_000 * PowerOfTen(15);
  }

  lemma {:induction false} DigitsReadBack(i: int)
    requires i >= 0
    ensures ValueOf(Digits(i)) == i && '-' !in Digits(i)
    ensures i > 0 ==> Digits(i) != ""
  {
    if i > 0 {
      DigitsReadBack(i / 10);
      var front, all := Digits(i / 10), Digits(i);
      assert all[..|all| - 1] == front;
      assert all[0] != '-';
    }
  }

  lemma DigitStep(i: int, room: nat)
    requires 0 < i < PowerOfTen(room)
    ensures room >= 1 && i / 10 < PowerOfTen(room - 1) && 0 <= i / 10 < i && 0 <= i % 10 <= 9
    ensures Digits(i) == Digits(i / 10) + [DigitChar(i % 10)]
  {
  }

  lemma Regroup(a: string, c: char, b: string)
    ensures a + ([c] + b) == (a + [c]) + b
  {
  }

  /** The digits of a number at the end of the buffer, written backwards; none unless it
      is positive. */
  method WriteDigits(b: array<char>, start: int) returns (pos: nat)
    requires b.Length == 20 && start < PowerOfTen(19)
    modifies b
    ensures 1 <= pos <= 20 && b[pos..] == Digits(start)
  {
    pos := 20;
    var i := start;
    ghost var all := Digits(start);
    while i > 0
      invariant 1 <= pos <= 20
      invariant 0 < i ==> i < PowerOfTen(pos - 1)
      invariant Digits(i) + b[pos..] == all
      decreases i
    {
      DigitStep(i, pos - 1);
      var c, left := DigitChar(i % 10), i / 10;
      ghost var written := b[pos..];
      pos := pos - 1;
      b[pos] := c;
      assert b[pos..] == [c] + written;
      Regroup(Digits(left), c, written);
      i := left;
    }
  }

  /** Format an id in a 20-byte buffer, filled from the end. */
  method Itoa(id: int) returns (text: string)
    requires MIN_INT64 <= id <= MAX_INT64
    ensures ValueOf(text) == id <==> id != MIN_INT64
    ensures id == MIN_INT64 ==> text == "-"
    ensures 1 <= |text| <= 20
  {
    if id == 0 {
      assert ValueOf("0") == ValueOf("") * 10;
      return "0";
    }
    var b := new char[20](_ => ' ');
    var neg := id < 0;
    var i := if neg then Negate64(id) else id;
    TenToTheNineteenth();
    ghost var digits := Digits(i);
    var pos := WriteDigits(b, i);
    if neg {
      pos := pos - 1;
      b[pos] := '-';
      assert b[pos..] == "-" + digits;
    }
    text := b[pos..];
    assert text == (if neg then "-" else "") + digits;
    TextReadsBack(id, digits);
  }

  lemma TextReadsBack(id: int, digits: string)
    requires id != 0 && digits == Digits(if id < 0 then Negate64(id) else id)
    requires id >= MIN_INT64
    ensures
      var text := (if id < 0 then "-" else "") + digits;
      && |text| >= 1 && (id == MIN_INT64 ==> text == "-")
      && (ValueOf(text) == id <==> id != MIN_INT64)
  {
    var start := if id < 0 then Negate64(id) else id;
    if id == MIN_INT64 {
      assert digits == "";
      assert ("-" + digits)[1..] == "";
    } else {
      DigitsReadBack(start);
      assert ("-" + digits)[1..] == digits;
      assert "" + digits == digits;
    }
  }
}

/** Page arithmetic shared by the project archive and the project detail
    page: the number of pages, the items of one page, and the wrap-around
    step `(prev + direction + totalPages) % totalPages`. */
module Paging {
  import opened Common
  import opened Seqs

  datatype Direction = Previous | Next

  function Delta(d: Direction): int {
    match d
    case Previous => -1
    case Next => 1
  }

  /** `Math.ceil(count / size)`. */
  function TotalPages(count: nat, size: nat): (r: nat)
    requires size > 0
    ensures r * size >= count
    ensures r == 0 || (r - 1) * size < count
    ensures r == 0 <==> count == 0
  {
    (count + size - 1) / size
  }

  /** The page reached from `prev` in direction `dir`. With no pages the
      JavaScript expression is `NaN`, here `None`. The numerator is never
      negative, so JavaScript's `%` and Dafny's agree. */
  function Navigate(prev: nat, dir: Direction, total: nat): (r: Option<nat>)
    ensures r.None? <==> total == 0
    ensures r.Some? ==> r.value < total
    ensures total > 0 && prev < total ==>
      r.value == match dir
        case Next => if prev == total - 1 then 0 else prev + 1
        case Previous => if prev == 0 then total - 1 else prev - 1
  {
    if total == 0 then None else Some((prev + Delta(dir) + total) % total)
  }

  /** Going forward and then back returns to the same page. */
  lemma NavigateUndo(prev: nat, total: nat)
    requires prev < total
    ensures Navigate(Navigate(prev, Next, total).value, Previous, total) == Some(prev)
    ensures Navigate(Navigate(prev, Previous, total).value, Next, total) == Some(prev)
  {
  }

  /** Page `page` of `items`: `items.slice(page * size, (page + 1) * size)`. */
  function PageItems<T>(items: seq<T>, page: nat, size: nat): (r: seq<T>)
    ensures |r| <= size
    ensures (page + 1) * size <= |items| ==> r == items[page * size..(page + 1) * size]
    ensures page * size >= |items| ==> r == []
    ensures page * size < |items| < (page + 1) * size ==> r == items[page * size..]
  {
    Slice(items, page * size, (page + 1) * size)
  }

  /** Pages `0 .. n - 1` laid end to end. */
  function PagesUpTo<T>(items: seq<T>, size: nat, n: nat): seq<T> {
    if n == 0 then [] else PagesUpTo(items, size, n - 1) + PageItems(items, n - 1, size)
  }

  lemma {:induction false} PagesUpToPrefix<T>(items: seq<T>, size: nat, n: nat)
    ensures PagesUpTo(items, size, n) == items[..Min(n * size, |items|)]
  {
    if n > 0 {
      PagesUpToPrefix(items, size, n - 1);
      var lo := Min((n - 1) * size, |items|);
      assert (n - 1) * size + size == n * size;
      assert PageItems(items, n - 1, size) == items[lo..Min(n * size, |items|)];
      assert items[..lo] + items[lo..Min(n * size, |items|)] == items[..Min(n * size, |items|)];
    }
  }

  /** The pages `0 .. TotalPages - 1` together are exactly the list, in order:
      no item is lost, repeated or moved. */
  lemma PagesCoverList<T>(items: seq<T>, size: nat)
    requires size > 0
    ensures PagesUpTo(items, size, TotalPages(|items|, size)) == items
  {
    PagesUpToPrefix(items, size, TotalPages(|items|, size));
  }

  /** The pager buttons are enabled only when there is more than one page. */
  predicate NavigationEnabled(total: nat)
    ensures NavigationEnabled(total) <==> Navigate(0, Next, total).Some? && Navigate(0, Next, total).value != 0
  {
    total > 1
  }
}

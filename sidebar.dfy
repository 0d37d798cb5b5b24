/**
 * The sidebar's list of pages: reordering by drag and drop, and adding a
 * page. Page ids are the decimal strings "1" to "n".
 *
 * `Array.prototype.findIndex` and `Array.prototype.splice` are written out
 * with JavaScript's conventions: a missing id is found at -1, and a negative
 * splice start counts back from the end of the array.
 */
module Sidebar {

  datatype Page = Page(id: string, title: string)

  /** The pages a new sidebar shows. */
  const InitialPages: seq<Page> :=
    [Page("1", "Getting Started"), Page("2", "Project Ideas"), Page("3", "Tasks")]

  // ----- page ids -----

  function Digit(d: nat): char
    requires d < 10
  {
    (48 + d) as char
  }

  /** `String(n)` for a natural number: its decimal digits, most significant first. */
  function NatToString(n: nat): (r: string)
    ensures |r| > 0
    ensures n < 10 <==> |r| == 1
    ensures forall k :: 0 <= k < |r| ==> '0' <= r[k] <= '9'
  {
    if n < 10 then [Digit(n)] else NatToString(n / 10) + [Digit(n % 10)]
  }

  /** Different numbers have different decimal strings. */
  lemma {:induction false} NatToStringInjective(a: nat, b: nat)
    ensures NatToString(a) == NatToString(b) ==> a == b
  {
    if NatToString(a) == NatToString(b) && a >= 10 && b >= 10 {
      var sa, sb := NatToString(a), NatToString(b);
      assert sa[|sa| - 1] == Digit(a % 10) && sb[|sb| - 1] == Digit(b % 10);
      assert sa[..|sa| - 1] == NatToString(a / 10);
      assert sb[..|sb| - 1] == NatToString(b / 10);
      NatToStringInjective(a / 10, b / 10);
    }
  }

  /** The ids "1", ..., "n", in order. */
  function IdRange(n: nat): seq<string>
  {
    if n == 0 then [] else IdRange(n - 1) + [NatToString(n)]
  }

  lemma {:induction false} IdRangeAt(n: nat)
    ensures |IdRange(n)| == n
    ensures forall k :: 0 <= k < n ==> IdRange(n)[k] == NatToString(k + 1)
  {
    if n > 0 { IdRangeAt(n - 1); }
  }

  predicate Distinct<T(==)>(s: seq<T>)
  {
    forall i, j :: 0 <= i < j < |s| ==> s[i] != s[j]
  }

  lemma IdRangeDistinct(n: nat)
    ensures Distinct(IdRange(n))
  {
    IdRangeAt(n);
    forall i, j | 0 <= i < j < n ensures IdRange(n)[i] != IdRange(n)[j] {
      NatToStringInjective(i + 1, j + 1);
    }
  }

  function Ids(pages: seq<Page>): (r: seq<string>)
    ensures |r| == |pages|
  {
    seq(|pages|, i requires 0 <= i < |pages| => pages[i].id)
  }

  /** The ids of the pages are exactly "1", ..., "n", each once, in some order. */
  predicate IdsInvariant(pages: seq<Page>)
  {
    multiset(Ids(pages)) == multiset(IdRange(|pages|))
  }

  lemma {:induction false} DistinctCount<T>(s: seq<T>)
    requires Distinct(s)
    ensures forall x :: multiset(s)[x] <= 1
  {
    if |s| > 0 {
      assert s == [s[0]] + s[1..];
      assert s[0] !in s[1..];
      DistinctCount(s[1..]);
    }
  }

  lemma RepeatCount<T>(s: seq<T>, i: nat, j: nat)
    requires i < j < |s|
    ensures s[i] == s[j] ==> multiset(s)[s[i]] >= 2
  {
    assert s == s[..j] + s[j..];
    assert s[i] in s[..j];
    assert s[j] in s[j..];
  }

  /** Under the invariant, no two pages share an id. */
  lemma {:induction false} IdsUnique(pages: seq<Page>)
    requires IdsInvariant(pages)
    ensures forall i, j :: 0 <= i < j < |pages| ==> pages[i].id != pages[j].id
  {
    var n := |pages|;
    IdRangeDistinct(n);
    DistinctCount(IdRange(n));
    forall i, j | 0 <= i < j < n ensures pages[i].id != pages[j].id {
      RepeatCount(Ids(pages), i, j);
    }
  }

  /** Under the invariant, the ids in use are exactly those of `IdRange`, that is "1", ..., "n". */
  lemma {:induction false} IdSet(pages: seq<Page>)
    requires IdsInvariant(pages)
    ensures forall p :: p in pages ==> p.id in IdRange(|pages|)
    ensures forall x :: x in IdRange(|pages|) ==> x in Ids(pages)
  {
    forall p | p in pages ensures p.id in IdRange(|pages|) {
      var i :| 0 <= i < |pages| && pages[i] == p;
      assert Ids(pages)[i] == p.id;
      assert p.id in multiset(Ids(pages));
    }
    forall x | x in IdRange(|pages|) ensures x in Ids(pages) {
      assert x in multiset(IdRange(|pages|));
    }
  }

  // ----- findIndex and splice -----

  /** `items.findIndex(item => item.id === id)`: the first index holding `id`, or -1. */
  function IndexOf(items: seq<Page>, id: string): (k: int)
    ensures -1 <= k < |items|
    ensures k >= 0 ==> items[k].id == id
    ensures forall j :: 0 <= j < |items| && (k < 0 || j < k) ==> items[j].id != id
  {
    if |items| == 0 then -1
    else if items[0].id == id then 0
    else
      var k := IndexOf(items[1..], id);
      if k < 0 then -1 else k + 1
  }

  /** The start `splice` uses: a negative start counts back from the end; both are clamped to the array. */
  function SpliceStart(start: int, len: nat): (r: nat)
    ensures r <= len
    ensures 0 <= start <= len ==> r == start
  {
    if start < 0 then (if len + start < 0 then 0 else len + start)
    else if start > len then len
    else start
  }

  /** `s` without its element at index `k`. */
  function Without<T>(s: seq<T>, k: nat): seq<T>
    requires k < |s|
  {
    s[..k] + s[k + 1..]
  }

  /** `a.splice(start, 1)` where it removes an element: the rest of `a`, and the element removed. */
  function SpliceOut<T>(a: seq<T>, start: int): (r: (seq<T>, T))
    requires 0 < |a| && start < |a|
    ensures var k := SpliceStart(start, |a|); k < |a| && r.0 == Without(a, k) && r.1 == a[k]
  {
    var k := SpliceStart(start, |a|);
    (Without(a, k), a[k])
  }

  /** `a.splice(start, 0, x)`: `a` with `x` inserted at the normalised start. */
  function SpliceIn<T>(a: seq<T>, start: int, x: T): (r: seq<T>)
    ensures var k := SpliceStart(start, |a|); |r| == |a| + 1 && r[k] == x && Without(r, k) == a
  {
    var k := SpliceStart(start, |a|);
    var r := a[..k] + [x] + a[k..];
    assert Without(r, k) == a;
    r
  }

  lemma WithoutMultiset<T>(s: seq<T>, k: nat)
    requires k < |s|
    ensures multiset(s) == multiset(Without(s, k)) + multiset{s[k]}
  {
    assert s == s[..k] + [s[k]] + s[k + 1..];
  }

  /** Cutting the element at `o` and inserting it at `n` keeps the length and the multiset. */
  lemma MovePermutes<T>(items: seq<T>, o: nat, r: seq<T>, n: nat)
    requires o < |items| && n < |r| && |r| == |items|
    requires r[n] == items[o] && Without(r, n) == Without(items, o)
    ensures multiset(r) == multiset(items)
  {
    WithoutMultiset(items, o);
    WithoutMultiset(r, n);
  }

  /** Cutting and inserting at the same index gives the sequence back. */
  lemma MoveSame<T>(items: seq<T>, r: seq<T>, k: nat)
    requires k < |items| && |r| == |items|
    requires r[k] == items[k] && Without(r, k) == Without(items, k)
    ensures r == items
  {
    assert r[..k] == Without(r, k)[..k];
    assert items[..k] == Without(items, k)[..k];
    assert r[k + 1..] == Without(r, k)[k..];
    assert items[k + 1..] == Without(items, k)[k..];
    assert r == r[..k] + [r[k]] + r[k + 1..];
    assert items == items[..k] + [items[k]] + items[k + 1..];
  }

  // ----- handleDragEnd -----

  /**
   * The state updater of `handleDragEnd`: copy the list, cut the dragged
   * page out at its index, and splice it back in at the drop target's
   * index (both found before the cut).
   */
  method Reordered(items: seq<Page>, activeId: string, overId: string) returns (newItems: seq<Page>)
    requires |items| > 0
    ensures |newItems| == |items| && multiset(newItems) == multiset(items)
    ensures var o := SpliceStart(IndexOf(items, activeId), |items|);
            var n := SpliceStart(IndexOf(items, overId), |items| - 1);
            o < |items| && n < |items| && newItems[n] == items[o] && Without(newItems, n) == Without(items, o)
    ensures var o := IndexOf(items, activeId);
            var n := IndexOf(items, overId);
            o >= 0 && n >= 0 ==> newItems[n] == items[o] && Without(newItems, n) == Without(items, o)
    ensures IndexOf(items, activeId) >= 0 && activeId == overId ==> newItems == items
  {
    var oldIndex := IndexOf(items, activeId);
    var newIndex := IndexOf(items, overId);

    newItems := items;
    var cut := SpliceOut(newItems, oldIndex);
    var removed := cut.1;
    newItems := cut.0;
    newItems := SpliceIn(newItems, newIndex, removed);

    var o := SpliceStart(oldIndex, |items|);
    var n := SpliceStart(newIndex, |items| - 1);
    MovePermutes(items, o, newItems, n);
    if oldIndex >= 0 && activeId == overId {
      MoveSame(items, newItems, o);
    }
  }

  /** Moving one page keeps the multiset of ids. */
  lemma {:induction false} MoveKeepsIds(items: seq<Page>, newItems: seq<Page>, o: nat, n: nat)
    requires o < |items| && n < |newItems| && |newItems| == |items|
    requires newItems[n] == items[o] && Without(newItems, n) == Without(items, o)
    ensures multiset(Ids(newItems)) == multiset(Ids(items))
  {
    assert Ids(Without(items, o)) == Without(Ids(items), o);
    assert Ids(Without(newItems, n)) == Without(Ids(newItems), n);
    WithoutMultiset(Ids(items), o);
    WithoutMultiset(Ids(newItems), n);
  }

  /** Appending a page whose id is the new length keeps the ids "1", ..., "n". */
  lemma {:induction false} AppendKeepsIds(pages: seq<Page>, title: string)
    requires IdsInvariant(pages)
    ensures IdsInvariant(pages + [Page(NatToString(|pages| + 1), title)])
  {
    var added := pages + [Page(NatToString(|pages| + 1), title)];
    assert Ids(added) == Ids(pages) + [NatToString(|pages| + 1)];
  }

  /** `findIndex` returns the first index holding the id. */
  lemma IndexOfAt(items: seq<Page>, id: string, k: nat)
    requires k < |items| && items[k].id == id
    requires forall j :: 0 <= j < k ==> items[j].id != id
    ensures IndexOf(items, id) == k
  {
  }

  /** The first and last of three elements swapped round by a move to the front. */
  lemma MovedToFront<T>(items: seq<T>, r: seq<T>)
    requires |items| == 3 && |r| == 3 && r[0] == items[2] && Without(r, 0) == Without(items, 2)
    ensures r == [items[2], items[0], items[1]]
  {
    assert Without(items, 2) == [items[0], items[1]];
    assert r == [r[0]] + Without(r, 0);
  }

  /** The `[A, B, C]` example: dropping C onto A gives `[C, A, B]`. */
  method ReorderExample(items: seq<Page>) returns (r: seq<Page>)
    requires |items| == 3 && items[0].id != items[2].id && items[1].id != items[2].id
    ensures r == [items[2], items[0], items[1]]
  {
    IndexOfAt(items, items[2].id, 2);
    IndexOfAt(items, items[0].id, 0);
    r := Reordered(items, items[2].id, items[0].id);
    MovedToFront(items, r);
  }

  // ----- the page list -----

  /** The initial pages have the ids "1", "2", "3", so they meet the id invariant. */
  lemma InitialPagesValid()
    ensures Ids(InitialPages) == ["1", "2", "3"] && IdsInvariant(InitialPages)
  {
    assert Ids(InitialPages) == ["1", "2", "3"];
    assert IdRange(3) == ["1", "2", "3"];
  }

  /** The `pages` state of the sidebar, replaced by each handler. */
  class PageList {
    var pages: seq<Page>

    predicate Valid()
      reads this
    {
      |pages| > 0 && IdsInvariant(pages)
    }

    constructor ()
      ensures Valid() && pages == InitialPages
    {
      pages := InitialPages;
      InitialPagesValid();
    }

    /** `handleDragEnd`: nothing when a page is dropped onto itself; otherwise the pages reordered. */
    method HandleDragEnd(activeId: string, overId: string)
      requires Valid()
      modifies this
      ensures Valid()
      ensures activeId == overId ==> pages == old(pages)
      ensures |pages| == |old(pages)| && multiset(pages) == multiset(old(pages))
      ensures var o := IndexOf(old(pages), activeId);
              var n := IndexOf(old(pages), overId);
              activeId != overId && o >= 0 && n >= 0 ==>
                pages[n] == old(pages)[o] && Without(pages, n) == Without(old(pages), o)
    {
      if activeId != overId {
        var items := pages;
        pages := Reordered(items, activeId, overId);
        MoveKeepsIds(items, pages, SpliceStart(IndexOf(items, activeId), |items|),
                     SpliceStart(IndexOf(items, overId), |items| - 1));
      }
    }

    /** `addNewPage`: append an untitled page whose id is the new length. */
    method AddNewPage()
      requires Valid()
      modifies this
      ensures Valid()
      ensures pages == old(pages) + [Page(NatToString(|old(pages)| + 1), "Untitled")]
    {
      var newId := NatToString(|pages| + 1);
      AppendKeepsIds(pages, "Untitled");
      pages := pages + [Page(newId, "Untitled")];
    }
  }
}

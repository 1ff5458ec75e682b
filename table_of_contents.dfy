/** The table of contents' choice of the active heading. Layout is fixed:
    each resolved heading has an absolute, integer top; its viewport rect
    at scroll position `scrollTop` is that top minus `scrollTop`. The page
    (`document.getElementById`) is a map from element id to absolute top. */
module TableOfContents {
  import opened Common

  datatype TocItem = TocItem(id: string, text: string, level: int)

  /** A heading element found in the page. */
  datatype Heading = Heading(id: string, top: int)

  /** Height of the sticky header. */
  const HeaderOffset := 100

  /** `getBoundingClientRect().top` of a heading at a scroll position. */
  function RectTop(h: Heading, scrollTop: int): int
  {
    h.top - scrollTop
  }

  /** Length of the longest prefix of headings whose tops are all at or
      above `line`. */
  function QualifyingPrefix(hs: seq<Heading>, line: int): (k: nat)
    ensures k <= |hs|
    ensures forall i :: 0 <= i < k ==> hs[i].top <= line
    ensures k < |hs| ==> hs[k].top > line
    decreases |hs|
  {
    if hs == [] || hs[0].top > line then 0 else 1 + QualifyingPrefix(hs[1..], line)
  }

  /** The active heading: the last of that prefix, or the first heading
      when none qualifies. */
  function ActiveIndex(hs: seq<Heading>, line: int): (k: nat)
    requires hs != []
    ensures k < |hs|
  {
    var q := QualifyingPrefix(hs, line);
    if q == 0 then 0 else q - 1
  }

  /** Scrolling further down never moves the active heading up. */
  lemma {:induction false} QualifyingPrefixMonotone(hs: seq<Heading>, line1: int, line2: int)
    requires line1 <= line2
    ensures QualifyingPrefix(hs, line1) <= QualifyingPrefix(hs, line2)
    decreases |hs|
  {
    if hs != [] && hs[0].top <= line1 {
      QualifyingPrefixMonotone(hs[1..], line1, line2);
    }
  }

  lemma {:induction false} ActiveIndexMonotone(hs: seq<Heading>, scrollTop1: int, scrollTop2: int)
    requires hs != [] && scrollTop1 <= scrollTop2
    ensures ActiveIndex(hs, scrollTop1 + HeaderOffset) <= ActiveIndex(hs, scrollTop2 + HeaderOffset)
  {
    QualifyingPrefixMonotone(hs, scrollTop1 + HeaderOffset, scrollTop2 + HeaderOffset);
  }

  /** The scan of `handleScroll`: walk the headings from the first, keep
      the last one at or above the line, stop at the first one below it. */
  method CurrentHeading(hs: seq<Heading>, scrollTop: int) returns (current: Option<Heading>)
    ensures hs == [] ==> current == None
    ensures hs != [] ==> current == Some(hs[ActiveIndex(hs, scrollTop + HeaderOffset)])
  {
    current := if hs == [] then None else Some(hs[0]);
    var i := 0;
    while i < |hs|
      invariant 0 <= i <= |hs|
      invariant forall j :: 0 <= j < i ==> hs[j].top <= scrollTop + HeaderOffset
      invariant hs == [] ==> current == None
      invariant hs != [] ==> current == Some(hs[if i == 0 then 0 else i - 1])
    {
      var headingTop := RectTop(hs[i], scrollTop) + scrollTop;
      if headingTop <= scrollTop + HeaderOffset {
        current := Some(hs[i]);
      } else {
        break;
      }
      i := i + 1;
    }
    if hs != [] {
      PrefixIsExact(hs, scrollTop + HeaderOffset, i);
    }
  }

  /** A prefix that qualifies and is followed by the end or by a heading
      below the line is the qualifying prefix. */
  lemma {:induction false} PrefixIsExact(hs: seq<Heading>, line: int, k: nat)
    requires k <= |hs|
    requires forall j :: 0 <= j < k ==> hs[j].top <= line
    requires k < |hs| ==> hs[k].top > line
    ensures QualifyingPrefix(hs, line) == k
    decreases k
  {
    if k > 0 {
      PrefixIsExact(hs[1..], line, k - 1);
    }
  }

  /** `items.map(getElementById).filter(el => el !== null)`. */
  function Resolve(items: seq<TocItem>, page: map<string, int>): (hs: seq<Heading>)
    ensures |hs| <= |items|
    ensures forall h :: h in hs ==> h.id in page && h.top == page[h.id]
    ensures forall it :: it in items && it.id in page ==> Heading(it.id, page[it.id]) in hs
    ensures hs == [] <==> forall it :: it in items ==> it.id !in page
    decreases |items|
  {
    if items == [] then []
    else
      var rest := Resolve(items[1..], page);
      assert forall it :: it in items[1..] ==> it in items;
      if items[0].id in page then [Heading(items[0].id, page[items[0].id])] + rest else rest
  }

  /** Resolving keeps document order: the headings of a list of items are
      those of its first part followed by those of the rest. */
  lemma {:induction false} ResolveKeepsOrder(a: seq<TocItem>, b: seq<TocItem>, page: map<string, int>)
    ensures Resolve(a + b, page) == Resolve(a, page) + Resolve(b, page)
    decreases |a|
  {
    if a == [] {
      assert a + b == b;
    } else {
      var ab := a + b;
      assert ab[0] == a[0] && ab[1..] == a[1..] + b;
      ResolveKeepsOrder(a[1..], b, page);
    }
  }

  /** One item gives one heading when its element exists, and none
      otherwise. */
  lemma {:induction false} ResolveOne(it: TocItem, page: map<string, int>)
    ensures Resolve([it], page) == if it.id in page then [Heading(it.id, page[it.id])] else []
  {
    assert [it][1..] == [];
  }

  /** The component's `activeId` state. */
  class TableOfContentsView {
    var activeId: string

    constructor ()
      ensures activeId == ""
    {
      activeId := "";
    }

    /** `handleScroll`: set the active id to the chosen heading, if any. */
    method HandleScroll(hs: seq<Heading>, scrollTop: int)
      modifies this
      ensures hs == [] ==> activeId == old(activeId)
      ensures hs != [] ==> activeId == hs[ActiveIndex(hs, scrollTop + HeaderOffset)].id
    {
      var currentHeading := CurrentHeading(hs, scrollTop);
      if currentHeading.Some? {
        activeId := currentHeading.value.id;
      }
    }

    /** The effect: resolve the headings; with none, do nothing; otherwise
        select the first item and run the scan once. The active id is then
        always one of the resolved headings. */
    method Setup(items: seq<TocItem>, page: map<string, int>, scrollTop: int)
      modifies this
      ensures Resolve(items, page) == [] ==> activeId == old(activeId)
      ensures var hs := Resolve(items, page);
        hs != [] ==> activeId == hs[ActiveIndex(hs, scrollTop + HeaderOffset)].id && activeId in page
    {
      var headingElements := Resolve(items, page);
      if |headingElements| == 0 {
        return;
      }
      activeId := if |items| > 0 then items[0].id else "";
      HandleScroll(headingElements, scrollTop);
      assert headingElements[ActiveIndex(headingElements, scrollTop + HeaderOffset)] in headingElements;
    }

    /** `handleClick`: only an id that names an element becomes active. */
    method HandleClick(id: string, page: map<string, int>)
      modifies this
      ensures id in page ==> activeId == id
      ensures id !in page ==> activeId == old(activeId)
    {
      if id in page {
        activeId := id;
      }
    }
  }
}

// The window of pages a table offers.

module Pagination {
  datatype Slot = Page(index: int) | Ellipsis

  // The first, the last and the current page, and the current page's neighbours in range.
  predicate Anchored(p: int, pageIndex: int, last: int, neighbours: int) {
    || p == 0 || p == last || p == pageIndex
    || (0 <= p && pageIndex - neighbours <= p < pageIndex)
    || (p <= last && pageIndex < p <= pageIndex + neighbours)
  }

  // The one page missing between two anchors.
  predicate Lone(p: int, pageIndex: int, last: int, neighbours: int) {
    && !Anchored(p, pageIndex, last, neighbours)
    && Anchored(p - 1, pageIndex, last, neighbours) && Anchored(p + 1, pageIndex, last, neighbours)
  }

  function Between(low: int, high: int): (pages: seq<int>)
    ensures |pages| == (if low <= high then high - low else 0) && forall k :: 0 <= k < |pages| ==> pages[k] == low + k
  {
    seq(if low <= high then high - low else 0, k => low + k)
  }

  // The pages the slots stand for, each ellipsis for those between its neighbours.
  function Expanded(slots: seq<Slot>): seq<int> {
    if slots == [] then []
    else
      var before := Expanded(slots[..|slots| - 1]);
      match slots[|slots| - 1]
      case Ellipsis => before
      case Page(p) =>
        if |slots| >= 2 && slots[|slots| - 2].Ellipsis? && before != []
        then before + Between(before[|before| - 1] + 1, p) + [p]
        else before + [p]
  }

  ghost predicate Increasing(slots: seq<Slot>) {
    forall i, j :: 0 <= i < j < |slots| && slots[i].Page? && slots[j].Page? ==> slots[i].index < slots[j].index
  }

  // Every ellipsis stands between two pages at least two apart from meeting.
  ghost predicate WorthItsRoom(slots: seq<Slot>) {
    forall k :: 0 <= k < |slots| && slots[k].Ellipsis? ==>
      0 < k < |slots| - 1 && slots[k - 1].Page? && slots[k + 1].Page? && slots[k + 1].index - slots[k - 1].index >= 3
  }

  ghost predicate Window(slots: seq<Slot>, low: int, high: int) {
    && low <= high && slots != [] && slots[|slots| - 1] == Page(high)
    && Increasing(slots) && WorthItsRoom(slots) && Expanded(slots) == Between(low, high + 1)
  }

  ghost predicate Sorted(pages: seq<int>) { forall i, j :: 0 <= i < j < |pages| ==> pages[i] < pages[j] }

  method SortPages(shown: seq<int>) returns (order: seq<int>)
    requires forall i, j :: 0 <= i < j < |shown| ==> shown[i] != shown[j]
    ensures Sorted(order) && forall p :: p in order <==> p in shown
  {
    order := [];
    for i := 0 to |shown|
      invariant Sorted(order) && forall p :: p in order <==> p in shown[..i]
    {
      assert shown[i] !in shown[..i];
      var k := 0;
      while k < |order| && order[k] < shown[i]
        invariant 0 <= k <= |order| && forall j :: 0 <= j < k ==> order[j] < shown[i]
      {
        k := k + 1;
      }
      Inserted(order, k, shown[i]);
      assert shown[..i + 1] == shown[..i] + [shown[i]];
      order := order[..k] + [shown[i]] + order[k..];
    }
    assert shown[..|shown|] == shown;
  }

  lemma Inserted(order: seq<int>, k: nat, page: int)
    requires Sorted(order) && page !in order && k <= |order|
    requires (forall j :: 0 <= j < k ==> order[j] < page) && (k < |order| ==> page <= order[k])
    ensures Sorted(order[..k] + [page] + order[k..])
    ensures forall p :: p in order[..k] + [page] + order[k..] <==> p in order || p == page
  {
    assert order == order[..k] + order[k..];
    assert k < |order| ==> order[k] != page;
  }

  function Gap(previous: int, page: int): seq<Slot> {
    if page - previous - 1 == 1 then [Page(page - 1)] else if page - previous - 1 > 1 then [Ellipsis] else []
  }

  lemma WindowGrows(slots: seq<Slot>, low: int, previous: int, page: int)
    requires Window(slots, low, previous) && previous < page
    ensures Window(slots + Gap(previous, page) + [Page(page)], low, page)
  {
    hide Expanded;
    var marked := slots + Gap(previous, page);
    var grown := marked + [Page(page)];
    assert grown[..|grown| - 1] == marked;
    ExpandedGrows(slots, low, previous, page);
    forall i, j | 0 <= i < j < |grown| && grown[i].Page? && grown[j].Page?
      ensures grown[i].index < grown[j].index
    {
      assert forall k :: 0 <= k < |slots| ==> grown[k] == slots[k];
      assert slots[|slots| - 1].index == previous;
    }
    forall k | 0 <= k < |grown| && grown[k].Ellipsis?
      ensures 0 < k < |grown| - 1 && grown[k - 1].Page? && grown[k + 1].Page? && grown[k + 1].index - grown[k - 1].index >= 3
    {
      if k < |slots| {
        assert grown[k] == slots[k] && k < |slots| - 1 && grown[k - 1] == slots[k - 1] && grown[k + 1] == slots[k + 1];
      } else {
        assert k == |slots| && grown[k - 1] == slots[|slots| - 1] && grown[k + 1] == Page(page);
      }
    }
  }

  lemma ExpandedGrows(slots: seq<Slot>, low: int, previous: int, page: int)
    requires slots != [] && slots[|slots| - 1] == Page(previous) && low <= previous < page
    requires Expanded(slots) == Between(low, previous + 1)
    ensures Expanded(slots + Gap(previous, page) + [Page(page)]) == Between(low, page + 1)
  {
    hide Expanded;
    var gap := Gap(previous, page);
    var marked := slots + gap;
    ExpandedStep(marked, Page(page));
    if gap != [] {
      ExpandedStep(slots, gap[0]);
      assert marked == slots + [gap[0]];
    } else {
      assert marked == slots;
    }
  }

  lemma ExpandedStep(slots: seq<Slot>, slot: Slot)
    ensures Expanded(slots + [slot])
            == match slot
               case Ellipsis => Expanded(slots)
               case Page(p) =>
                 if slots != [] && slots[|slots| - 1].Ellipsis? && Expanded(slots) != []
                 then Expanded(slots) + Between(Expanded(slots)[|Expanded(slots)| - 1] + 1, p) + [p]
                 else Expanded(slots) + [p]
  {
    assert (slots + [slot])[..|slots|] == slots;
  }

  // The anchors, each once, in the order they are thought of.
  method ShownPages(pageIndex: int, last: int, neighbours: int) returns (shown: seq<int>)
    requires last > 0
    ensures forall i, j :: 0 <= i < j < |shown| ==> shown[i] != shown[j]
    ensures forall p :: p in shown <==> Anchored(p, pageIndex, last, neighbours)
  {
    shown := if pageIndex == 0 || pageIndex == last then [0, last] else [0, last, pageIndex];
    var step := 1;
    while step <= neighbours
      invariant step >= 1 && (step <= neighbours + 1 || step == 1)
      invariant forall i, j :: 0 <= i < j < |shown| ==> shown[i] != shown[j]
      invariant forall p :: p in shown <==> Anchored(p, pageIndex, last, step - 1)
    {
      if pageIndex - step >= 0 && pageIndex - step !in shown { shown := shown + [pageIndex - step]; }
      if pageIndex + step <= last && pageIndex + step !in shown { shown := shown + [pageIndex + step]; }
      step := step + 1;
    }
  }

  // The page is one of these, or the only one missing between two of them.
  predicate Marked(pages: seq<int>, p: int) { p in pages || (p - 1 in pages && p + 1 in pages) }

  method MarkGaps(order: seq<int>) returns (slots: seq<Slot>)
    requires order != [] && Sorted(order)
    ensures Window(slots, order[0], order[|order| - 1])
    ensures forall p :: Page(p) in slots <==> Marked(order, p)
  {
    hide Window, Marked, Gap;
    slots := [Page(order[0])];
    FewSlots(slots);
    FirstIsMarked(order);
    var previous := order[0];
    for i := 1 to |order|
      invariant previous == order[i - 1]
      invariant Window(slots, order[0], previous)
      invariant forall p :: Page(p) in slots <==> Marked(order[..i], p)
    {
      var page := order[i];
      WindowGrows(slots, order[0], previous, page);
      ShownGrows(order, i);
      PagesGrow(slots, previous, page);
      slots := slots + Gap(previous, page) + [Page(page)];
      previous := page;
    }
    assert order[..|order|] == order;
  }

  lemma PagesGrow(slots: seq<Slot>, previous: int, page: int)
    ensures forall p :: Page(p) in slots + Gap(previous, page) + [Page(page)]
                        <==> Page(p) in slots || p == page || (p == page - 1 && page - previous == 2)
  {
  }

  // What another page adds to the pages shown: itself, and the one before it when that stood alone.
  lemma ShownGrows(order: seq<int>, i: nat)
    requires 0 < i < |order| && Sorted(order)
    ensures forall p :: Marked(order[..i + 1], p)
                        <==> Marked(order[..i], p) || p == order[i] || (p == order[i] - 1 && order[i] - order[i - 1] == 2)
  {
    var before := order[..i];
    var after := order[..i + 1];
    assert after == before + [order[i]];
    assert before[i - 1] in before;
    assert forall q :: q in after <==> q in before || q == order[i];
    forall p
      ensures Marked(after, p)
              <==> Marked(before, p) || p == order[i] || (p == order[i] - 1 && order[i] - order[i - 1] == 2)
    {
      assert p - 1 in after <==> p - 1 in before || p - 1 == order[i];
      assert p + 1 in after <==> p + 1 in before || p + 1 == order[i];
    }
  }

  lemma FirstIsMarked(order: seq<int>)
    requires order != []
    ensures forall p :: Marked(order[..1], p) <==> p == order[0]
  {
    assert order[..1] == [order[0]];
  }

  method PaginationWindow(pageIndex: int, pageCount: int, neighbours: int) returns (slots: seq<Slot>)
    ensures pageCount <= 1 ==> slots == if pageCount == 1 then [Page(0)] else []
    ensures Increasing(slots) && WorthItsRoom(slots)
    // An index out of range only widens the window to it.
    ensures pageCount > 1 ==>
              Expanded(slots) == Between(if pageIndex < 0 then pageIndex else 0,
                                         if pageIndex < pageCount then pageCount else pageIndex + 1)
    ensures pageCount > 1 ==>
              forall p :: Page(p) in slots
                          <==> Anchored(p, pageIndex, pageCount - 1, neighbours)
                               || Lone(p, pageIndex, pageCount - 1, neighbours)
  {
    hide Expanded, Increasing, WorthItsRoom;
    if pageCount <= 1 {
      slots := if pageCount == 1 then [Page(0)] else [];
      FewSlots(slots);
      return;
    }
    var last := pageCount - 1;
    var shown := ShownPages(pageIndex, last, neighbours);
    var order := SortPages(shown);
    Ends(order, shown, pageIndex, last, neighbours);
    slots := MarkGaps(order);
  }

  lemma FewSlots(slots: seq<Slot>)
    requires slots == [] || (|slots| == 1 && slots[0].Page?)
    ensures Increasing(slots) && WorthItsRoom(slots)
    ensures slots != [] ==> Window(slots, slots[0].index, slots[0].index)
  {
  }

  lemma Ends(order: seq<int>, shown: seq<int>, pageIndex: int, last: int, neighbours: int)
    requires last >= 1 && forall p :: p in shown <==> Anchored(p, pageIndex, last, neighbours)
    requires Sorted(order) && forall p :: p in order <==> p in shown
    ensures order != []
    ensures order[0] == if pageIndex < 0 then pageIndex else 0
    ensures order[|order| - 1] == if pageIndex <= last then last else pageIndex
  {
    assert 0 in order && last in order && pageIndex in order;
    assert order[0] in order && order[|order| - 1] in order;
  }
}

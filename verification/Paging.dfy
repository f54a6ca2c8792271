/**
 Pages of a menu: which items a page shows, what its keys do, and where Next and Back lead.

 All items are drawable and no handler changes how they are drawn. Of a page, the program keeps
 where to search from for the next and the previous one; the page number is nowhere stored.
 */
module Paging {

  datatype ItemOrder = Ascending | Descending

  datatype ItemSelection = SelNone | SelBack | SelNext | SelExit | SelItem | SelExitBack

  datatype Slot = Slot(kind: ItemSelection, item: nat)

  /** The draw flags of an item. */
  datatype Draw = Draw(disabled: bool, rawLine: bool, noText: bool, spacer: bool, control: bool)

  const PLAIN := Draw(false, false, false, false, false)
  const SPACER := Draw(false, false, false, true, false)
  const NO_TEXT := Draw(false, false, true, false, false)
  const RAW_SPACER := Draw(false, true, false, true, false)
  const CONTROL := Draw(false, false, false, false, true)
  const DISABLED_CONTROL := Draw(true, false, false, false, true)
  const SPACER_CONTROL := Draw(false, false, false, true, true)

  datatype Style = Radio | Valve {
    function MaxPageItems(): nat { if Radio? then 10 else 8 }

    function LastKey(): nat { if Radio? then 10 else 9 }

    predicate CanDraw(d: Draw) {
      if Radio? then !(d.rawLine && d.noText) && !(d.disabled && d.control)
      else !d.rawLine && (d.noText || d.spacer || !d.disabled)
    }

    predicate IsSlotItem(d: Draw) { CanDraw(d) && !d.rawLine }
  }

  /** What is drawn of a panel that matters here: the next free key. */
  class Panel {
    const style: Style
    var nextPos: nat

    constructor (style: Style)
      ensures this.style == style && nextPos == 1
    {
      this.style := style;
      nextPos := 1;
    }

    /** The key the item gets, or 0. */
    method DrawItem(d: Draw) returns (position: nat)
      modifies this
      ensures if old(nextPos) <= style.LastKey() && style.CanDraw(d) && !d.rawLine
              then position == old(nextPos) && nextPos == old(nextPos) + 1
              else position == 0 && nextPos == old(nextPos)
    {
      if nextPos > style.LastKey() || !style.CanDraw(d) { return 0; }
      if d.rawLine { return 0; }
      position := nextPos;
      nextPos := nextPos + 1;
    }
  }

  /** What is kept of a client's menu. */
  class MenuStates {
    var firstItem: nat
    var lastItem: nat
    var itemOnPage: nat
    const slots: array<Slot>

    constructor ()
      ensures fresh(slots) && slots.Length == 11
    {
      slots := new Slot[11](_ => Slot(SelNone, 0));
    }
  }

  // ----- what a page shows

  /** A page: its items, whether there are others before and behind it, and where those begin. */
  datatype View = View(first: nat, count: nat, prev: bool, next: bool, firstItem: nat, lastItem: nat)

  /** The page drawn from the `firstItem` and `lastItem` of the last one. */
  function Rendered(firstItem: nat, lastItem: nat, total: nat, pgn: nat, order: ItemOrder): (v: View)
    requires total > 0 && pgn >= 2
  {
    if order == Ascending then
      if lastItem < total then Upwards(lastItem, firstItem, lastItem, total, pgn)
      else Downwards(total - 1, firstItem, lastItem, total, pgn)
    else if firstItem <= pgn then Upwards(0, firstItem, lastItem, total, pgn)
    else Downwards(if firstItem < total then firstItem else total - 1, firstItem, lastItem, total, pgn)
  }

  function Min(a: int, b: int): int { if a < b then a else b }

  /** The page that begins at `start`. An item 0 alone in front of it is not found. */
  function Upwards(start: nat, firstItem: nat, lastItem: nat, total: nat, pgn: nat): View
    requires start < total
  {
    View(start, Min(pgn, total - start), start >= 2, start + pgn < total,
         if start >= 2 then start - 1 else firstItem,
         if start + pgn < total then start + pgn else lastItem)
  }

  /** The page that ends at `start`. */
  function Downwards(start: nat, firstItem: nat, lastItem: nat, total: nat, pgn: nat): View
    requires start < total && pgn > 0
  {
    View(if start + 1 >= pgn then start + 1 - pgn else 0, Min(pgn, start + 1), start >= pgn, start + 1 < total,
         if start >= pgn then start - pgn else firstItem,
         if start + 1 < total then start + 1 else lastItem)
  }

  // ----- runs of Next and Back

  /** The page numbered `k`, with all that is kept of it. */
  ghost predicate OnPage(v: View, k: nat, total: nat, pgn: nat) {
    && k * pgn < total
    && v.first == k * pgn && v.count == Min(pgn, total - k * pgn)
    && v.prev == (k > 0) && v.next == (k * pgn + pgn < total)
    && (v.prev ==> v.firstItem == k * pgn - 1)
    && (v.next ==> v.lastItem == k * pgn + pgn)
  }

  lemma FirstDisplay(total: nat, pgn: nat)
    requires total > 0 && pgn >= 2
    ensures OnPage(Rendered(0, 0, total, pgn, Ascending), 0, total, pgn)
  {
    assert 0 * pgn == 0;
  }

  lemma NextPage(v: View, k: nat, total: nat, pgn: nat)
    requires pgn >= 2 && OnPage(v, k, total, pgn) && v.next
    ensures OnPage(Rendered(v.firstItem, v.lastItem, total, pgn, Ascending), k + 1, total, pgn)
  {
    assert (k + 1) * pgn == k * pgn + pgn;
    assert k * pgn >= 0;
  }

  lemma PreviousPage(v: View, k: nat, total: nat, pgn: nat)
    requires pgn >= 2 && OnPage(v, k, total, pgn) && v.prev
    ensures OnPage(Rendered(v.firstItem, v.lastItem, total, pgn, Descending), k - 1, total, pgn)
  {
    assert (k - 1) * pgn == k * pgn - pgn;
    if k == 1 {
      assert k * pgn == pgn && (k - 1) * pgn == 0;
    } else {
      assert k * pgn == 2 * pgn + (k - 2) * pgn;
      assert (k - 2) * pgn >= 0;
    }
  }

  /** The pages seen on the way: each move is made only where it is offered. */
  function Moved(v: View, moves: seq<ItemOrder>, total: nat, pgn: nat): View
    requires total > 0 && pgn >= 2
  {
    if moves == [] then v
    else
      var u := Moved(v, moves[..|moves| - 1], total, pgn);
      var m := moves[|moves| - 1];
      if (if m == Ascending then u.next else u.prev) then Rendered(u.firstItem, u.lastItem, total, pgn, m) else u
  }

  /** The page number after the same moves, counted. */
  function Counted(moves: seq<ItemOrder>, total: nat, pgn: nat): nat
    requires total > 0 && pgn >= 2
  {
    if moves == [] then 0
    else
      var k := Counted(moves[..|moves| - 1], total, pgn);
      if moves[|moves| - 1] == Ascending then (if k * pgn + pgn < total then k + 1 else k)
      else if k > 0 then k - 1 else 0
  }

  /** After any run of Next and Back from the first display, the page shown is the one counted. */
  lemma {:induction false} AnyRunShowsPages(moves: seq<ItemOrder>, total: nat, pgn: nat)
    requires total > 0 && pgn >= 2
    ensures OnPage(Moved(Rendered(0, 0, total, pgn, Ascending), moves, total, pgn), Counted(moves, total, pgn), total,
                   pgn)
  {
    var v := Rendered(0, 0, total, pgn, Ascending);
    if moves == [] {
      FirstDisplay(total, pgn);
    } else {
      var before := moves[..|moves| - 1];
      AnyRunShowsPages(before, total, pgn);
      var u, k := Moved(v, before, total, pgn), Counted(before, total, pgn);
      if moves[|moves| - 1] == Ascending {
        if u.next { NextPage(u, k, total, pgn); }
      } else if u.prev {
        PreviousPage(u, k, total, pgn);
      }
    }
  }

  /** Where Next is offered, Back then leads to the same items; and the other way round. */
  lemma NextAndBackAreInverse(v: View, k: nat, total: nat, pgn: nat)
    requires pgn >= 2 && OnPage(v, k, total, pgn)
    ensures v.next ==>
              var u := Rendered(v.firstItem, v.lastItem, total, pgn, Ascending);
              u.prev && OnPage(Rendered(u.firstItem, u.lastItem, total, pgn, Descending), k, total, pgn)
    ensures v.prev ==>
              var u := Rendered(v.firstItem, v.lastItem, total, pgn, Descending);
              u.next && OnPage(Rendered(u.firstItem, u.lastItem, total, pgn, Ascending), k, total, pgn)
  {
    if v.next {
      NextPage(v, k, total, pgn);
      PreviousPage(Rendered(v.firstItem, v.lastItem, total, pgn, Ascending), k + 1, total, pgn);
    }
    if v.prev {
      PreviousPage(v, k, total, pgn);
      var u := Rendered(v.firstItem, v.lastItem, total, pgn, Descending);
      assert (k - 1) * pgn + pgn == k * pgn;
      NextPage(u, k - 1, total, pgn);
    }
  }

  function Nexts(n: nat): seq<ItemOrder> {
    if n == 0 then [] else Nexts(n - 1) + [Ascending]
  }

  /** Every item is reached, by as many Nexts as its page number, and is on no other page. */
  lemma {:induction false} NextsReach(n: nat, total: nat, pgn: nat)
    requires pgn >= 2 && n * pgn < total
    ensures Counted(Nexts(n), total, pgn) == n
  {
    if n > 0 {
      assert (n - 1) * pgn == n * pgn - pgn;
      NextsReach(n - 1, total, pgn);
      assert Nexts(n)[..|Nexts(n)| - 1] == Nexts(n - 1);
    }
  }

  lemma ItemHasOnePage(i: nat, k: nat, v: View, total: nat, pgn: nat)
    requires pgn >= 2 && i < total && OnPage(v, k, total, pgn)
    ensures v.first <= i < v.first + v.count <==> k == i / pgn
    ensures (i / pgn) * pgn < total
  {
    Quotient(i, pgn);
    PageOfItem(i, k, i / pgn, pgn);
  }

  lemma PageOfItem(i: nat, k: nat, q: nat, pgn: nat)
    requires q * pgn <= i < q * pgn + pgn
    ensures k * pgn <= i < k * pgn + pgn <==> k == q
  {
    if k < q { PagesApart(k, q, pgn); }
    if k > q { PagesApart(q, k, pgn); }
  }

  lemma Quotient(i: nat, pgn: nat)
    requires pgn > 0
    ensures (i / pgn) * pgn <= i < (i / pgn) * pgn + pgn
  {}

  lemma PagesApart(j: nat, k: nat, pgn: nat)
    requires j < k
    ensures j * pgn + pgn <= k * pgn
  {
    assert k * pgn == j * pgn + pgn + (k - j - 1) * pgn;
    Product(k - j - 1, pgn);
  }

  lemma Product(a: nat, b: nat)
    ensures a * b >= 0
  {}

  // ----- drawing a page

  /** Every item of the menu is drawn as usual. */
  ghost predicate AllPlain(draws: seq<Draw>) {
    forall i :: 0 <= i < |draws| ==> draws[i] == PLAIN
  }

  /** The positions found by a search from `start`, and the next one, if there is one. */
  method CollectItems(style: Style, draws: seq<Draw>, start: nat, order: ItemOrder, maxItems: nat)
    returns (items: seq<nat>, foundExtra: bool, extra: nat)
    requires |draws| > 0 && maxItems > 0 && (order == Ascending ==> start < |draws|)
    ensures AllPlain(draws) && order == Ascending ==>
              && |items| == Min(maxItems, |draws| - start) && (forall j :: 0 <= j < |items| ==> items[j] == start + j)
              && foundExtra == (start + maxItems < |draws|) && (foundExtra ==> extra == start + maxItems)
    ensures AllPlain(draws) && order == Descending ==>
              var s := Min(start, |draws| - 1);
              && |items| == Min(maxItems, s + 1) && (forall j :: 0 <= j < |items| ==> items[j] == s - j)
              && foundExtra == (s >= maxItems) && (foundExtra ==> extra == s - maxItems)
  {
    items, foundExtra, extra := [], false, 0;
    var total := |draws|;
    var i: nat := start;
    ghost var s := Min(start, total - 1);
    while true
      invariant |items| <= maxItems && (order == Ascending ==> i < total)
      invariant AllPlain(draws) && order == Ascending ==>
                  i == start + |items| && forall j :: 0 <= j < |items| ==> items[j] == start + j
      invariant AllPlain(draws) && order == Descending ==>
                  && (i < total ==> |items| == s - i) && (i >= total ==> items == [] && i <= start)
                  && forall j :: 0 <= j < |items| ==> items[j] == s - j
      decreases if order == Ascending then total - i else i
    {
      if i < total && style.IsSlotItem(draws[i]) {
        if |items| >= maxItems {
          foundExtra, extra := true, i;
          break;
        }
        items := items + [i];
      }
      if order == Descending {
        if i == 0 { break; }
        i := i - 1;
      } else {
        if i >= total - 1 { break; }
        i := i + 1;
      }
    }
  }

  /** The search for a page on the other side of the one found, from its first position. */
  method SearchOther(style: Style, draws: seq<Draw>, position: nat, order: ItemOrder) returns (found: bool, other: nat)
    requires position < |draws|
    ensures AllPlain(draws) && order == Descending ==>
              found == (position + 1 < |draws|) && (found ==> other == position + 1)
    ensures AllPlain(draws) && order == Ascending ==> found == (position >= 2) && (found ==> other == position - 1)
  {
    found, other := false, position;
    if order == Descending {
      if position >= |draws| - 1 { return; }
      other := other + 1;
      while other < |draws|
        invariant AllPlain(draws) ==> other == position + 1
      {
        if style.IsSlotItem(draws[other]) { return true, other; }
        other := other + 1;
      }
    } else {
      if position == 0 { return; }
      other := other - 1;
      while other != 0
        invariant other < position && (AllPlain(draws) ==> other == position - 1)
      {
        if style.IsSlotItem(draws[other]) { return true, other; }
        other := other - 1;
      }
    }
  }

  /** Where a search starts, and in which direction. */
  method FindStart(md: MenuStates, order: ItemOrder, total: nat, maxItems: nat) returns (start: nat, way: ItemOrder)
    requires total > 0
    ensures way == Ascending ==> start < total
    ensures maxItems >= 2 ==>
              Rendered(md.firstItem, md.lastItem, total, maxItems, order) ==
              if way == Ascending then Upwards(start, md.firstItem, md.lastItem, total, maxItems)
              else Downwards(Min(start, total - 1), md.firstItem, md.lastItem, total, maxItems)
  {
    way := order;
    if order == Ascending {
      start := md.lastItem;
      if start >= total {
        start := total - 1;
        way := Descending;
      }
    } else {
      start := md.firstItem;
      if start <= maxItems {
        start := 0;
        way := Ascending;
      }
    }
  }

  // ----- slots

  /** What the keys of a page do. With ten keys and no exit button the last one is left as it was. */
  ghost predicate SlotsShow(was: seq<Slot>, slots: seq<Slot>, v: View, style: Style, exitButton: bool, exitBack: bool) {
    var max := style.MaxPageItems();
    && |slots| == |was| == 11 && v.count + 3 <= max
    && (forall j :: 1 <= j <= v.count ==> slots[j] == Slot(SelItem, v.first + j - 1))
    && (forall j :: v.count < j <= max - 3 ==> slots[j].kind == SelNone)
    && slots[max - 2].kind == (if v.prev then SelBack else if exitBack then SelExitBack else SelNone)
    && slots[max - 1].kind == (if v.next then SelNext else SelNone)
    && slots[max].kind == (if exitButton then SelExit else if max == 10 then was[max].kind else SelNone)
    && (max == 8 ==> slots[9].kind == SelNone)
  }

  /** The table of a page without an exit button, drawn over another: with ten keys the last is not written. */
  function Overdrawn(was: seq<Slot>, v: View, style: Style, exitBack: bool): seq<Slot>
    requires |was| == 11 && v.count + 3 <= style.MaxPageItems()
  {
    var max := style.MaxPageItems();
    seq(11, j =>
      if 1 <= j <= v.count then Slot(SelItem, v.first + j - 1)
      else if j == max - 2 && (v.prev || exitBack) then Slot(if v.prev then SelBack else SelExitBack, 0)
      else if j == max - 1 && v.next then Slot(SelNext, 0)
      else if j == max == 10 then was[10]
      else Slot(SelNone, 0))
  }

  /** Without an exit button the last key does nothing, whatever was drawn before, exactly if the style
      has fewer than ten keys. With ten, the key of a menu that had the button still leaves this one. */
  lemma LastKeyExactly(v: View, style: Style, exitBack: bool)
    requires v.count + 3 <= style.MaxPageItems()
    ensures (forall was: seq<Slot>, slots: seq<Slot> ::
               SlotsShow(was, slots, v, style, false, exitBack) ==> slots[style.MaxPageItems()].kind == SelNone)
            <==> style.MaxPageItems() < 10
    ensures forall was: seq<Slot>, first: seq<Slot>, second: seq<Slot>, u: View ::
              && style.MaxPageItems() == 10 && SlotsShow(was, first, u, style, true, exitBack)
              && SlotsShow(first, second, v, style, false, exitBack)
              ==> second[10].kind == SelExit
  {
    var was := seq(11, _ => Slot(SelExit, 0));
    assert SlotsShow(was, Overdrawn(was, v, style, exitBack), v, style, false, exitBack);
    if style.MaxPageItems() == 10 {
      assert Overdrawn(was, v, style, exitBack)[10].kind == SelExit;
    }
  }

  method DrawItems(md: MenuStates, panel: Panel, draws: seq<Draw>, items: seq<nat>, order: ItemOrder, ghost first: nat)
    requires panel.nextPos == 1 && 0 < |items| <= 7 && (forall j :: 0 <= j < |items| ==> items[j] < |draws|)
             && AllPlain(draws)
    requires forall j :: 0 <= j < |items| ==>
               items[j] == if order == Ascending then first + j else first + |items| - 1 - j
    requires md.slots.Length == 11
    modifies md`itemOnPage, md.slots, panel
    ensures panel.nextPos == |items| + 1 && md.itemOnPage == first
    ensures forall j :: 1 <= j <= |items| ==> md.slots[j] == Slot(SelItem, first + j - 1)
    ensures forall j :: |items| < j < 11 ==> md.slots[j] == old(md.slots[j])
  {
    md.itemOnPage := if order == Ascending then items[0] else items[|items| - 1];
    assert md.itemOnPage == first;
    var n := 0;
    while n < |items|
      invariant 0 <= n <= |items| && panel.nextPos == n + 1 && md.itemOnPage == first
      invariant forall j :: 1 <= j <= n ==> md.slots[j] == Slot(SelItem, first + j - 1)
      invariant forall j :: n < j < 11 ==> md.slots[j] == old(md.slots[j])
    {
      var item := if order == Ascending then items[n] else items[|items| - 1 - n];
      var draw := draws[item];
      var position := panel.DrawItem(draw);
      if position != 0 {
        md.slots[position] := Slot(if draw.disabled then SelNone else SelItem, item);
      }
      n := n + 1;
    }
  }

  /** Draws something that selects nothing, `n` times, each time using up a key. */
  method DrawPads(md: MenuStates, panel: Panel, pad: Draw, n: nat) returns (position: nat)
    requires md.slots.Length == 11 && 1 <= panel.nextPos && panel.nextPos + n <= panel.style.LastKey() + 1
    requires pad == SPACER || pad == NO_TEXT || pad == SPACER_CONTROL
    modifies md.slots, panel
    ensures panel.nextPos == old(panel.nextPos) + n && (n > 0 ==> position == panel.nextPos - 1)
    ensures forall j :: old(panel.nextPos) <= j < panel.nextPos ==> md.slots[j].kind == SelNone
    ensures forall j :: 0 <= j < 11 && !(old(panel.nextPos) <= j < panel.nextPos) ==> md.slots[j] == old(md.slots[j])
  {
    position := 0;
    for i := 0 to n
      invariant panel.nextPos == old(panel.nextPos) + i && (i > 0 ==> position == panel.nextPos - 1)
      invariant forall j :: old(panel.nextPos) <= j < panel.nextPos ==> md.slots[j].kind == SelNone
      invariant forall j :: 0 <= j < 11 && !(old(panel.nextPos) <= j < panel.nextPos) ==>
                  md.slots[j] == old(md.slots[j])
    {
      position := panel.DrawItem(pad);
      md.slots[position] := md.slots[position].(kind := SelNone);
    }
  }

  /** Draws a control and sets what its key does. */
  method DrawControl(md: MenuStates, panel: Panel, draw: Draw, kind: ItemSelection) returns (position: nat)
    requires md.slots.Length == 11 && 1 <= panel.nextPos <= panel.style.LastKey()
    requires draw == CONTROL || draw == NO_TEXT || draw == SPACER_CONTROL
    modifies md.slots, panel
    ensures position == old(panel.nextPos) && panel.nextPos == position + 1
    ensures md.slots[position].kind == kind
    ensures forall j :: 0 <= j < 11 && j != position ==> md.slots[j] == old(md.slots[j])
  {
    position := panel.DrawItem(draw);
    md.slots[position] := md.slots[position].(kind := kind);
  }

  /** Back, Next or what stands for them. */
  method DrawMoves(md: MenuStates, panel: Panel, prev: bool, next: bool, exitButton: bool, exitBack: bool)
    returns (position: nat)
    requires md.slots.Length == 11 && panel.nextPos == panel.style.MaxPageItems() - 2
    requires prev || next
    requires exitBack ==> prev
    modifies md.slots, panel
    ensures var max := panel.style.MaxPageItems();
            && max - 2 <= position && panel.nextPos == position + 1
            && position == (if next || exitButton then max - 1 else max - 2)
            && md.slots[max - 2].kind == (if exitBack then SelExitBack else if prev then SelBack else SelNone)
            && (position == max - 1 ==> md.slots[max - 1].kind == if next then SelNext else SelNone)
            && (forall j :: 0 <= j < 11 && !(max - 2 <= j <= position) ==> md.slots[j] == old(md.slots[j]))
  {
    var canDrawDisabled := panel.style.CanDraw(DISABLED_CONTROL);
    if prev || canDrawDisabled {
      position := DrawControl(md, panel, CONTROL, if exitBack then SelExitBack else SelBack);
    } else {
      position := DrawControl(md, panel, SPACER_CONTROL, SelNone);
    }
    if next || canDrawDisabled {
      position := DrawControl(md, panel, CONTROL, SelNext);
    } else if exitButton {
      position := DrawControl(md, panel, SPACER_CONTROL, SelNone);
    }
  }

  /** Everything behind the items. */
  method DrawControls(md: MenuStates, panel: Panel, found: nat, maxItems: nat, displayPrev: bool, displayNext: bool,
                      exitButton: bool, exitBackButton: bool)
    requires md.slots.Length == 11 && panel.nextPos == found + 1 && found <= maxItems
             && maxItems + 3 <= panel.style.MaxPageItems()
    modifies md.slots, panel
    ensures var max := panel.style.MaxPageItems();
            && (forall j :: 0 <= j <= found ==> md.slots[j] == old(md.slots[j]))
            && (forall j :: found < j <= max - 3 ==> md.slots[j].kind == SelNone)
            && md.slots[max - 2].kind == (if displayPrev then SelBack else if exitBackButton then SelExitBack
                                          else SelNone)
            && md.slots[max - 1].kind == (if displayNext then SelNext else SelNone)
            && md.slots[max].kind == (if exitButton then SelExit else if max == 10 then old(md.slots[max]).kind
                                      else SelNone)
            && (max == 8 ==> md.slots[9].kind == SelNone)
  {
    var max := panel.style.MaxPageItems();
    var padding := max - maxItems + (maxItems - found) - 1 - 2;
    var exitBack, prev := exitBackButton && !displayPrev, displayPrev || exitBackButton;
    var position := 0;
    if exitButton || displayNext || prev {
      position := DrawPads(md, panel, if prev then SPACER else NO_TEXT, padding);
    }
    if prev || displayNext || exitButton {
      var none := panel.DrawItem(RAW_SPACER);
    }
    if prev || displayNext {
      position := DrawMoves(md, panel, prev, displayNext, exitButton, exitBack);
    } else {
      position := DrawPads(md, panel, NO_TEXT, 2);
    }
    if exitButton {
      position := DrawControl(md, panel, CONTROL, SelExit);
    }
    var i := position + 1;
    label Drawn:
    while i < 10
      invariant i > position && (i <= 10 || i == position + 1)
      invariant forall j :: position < j < i ==> md.slots[j].kind == SelNone
      invariant forall j :: 0 <= j < 11 && !(position < j < i) ==> md.slots[j] == old@Drawn(md.slots[j])
    {
      md.slots[i] := md.slots[i].(kind := SelNone);
      i := i + 1;
    }
  }

  /** Finds the items of a page and where to search from for the others. None when there are no items. */
  method FindItems(md: MenuStates, style: Style, draws: seq<Draw>, maxItems: nat, order: ItemOrder)
    returns (items: seq<nat>, way: ItemOrder, displayPrev: bool, displayNext: bool)
    requires AllPlain(draws) && maxItems >= 2
    modifies md`firstItem, md`lastItem
    ensures items == [] <==> draws == []
    ensures draws == [] ==> md.firstItem == old(md.firstItem) && md.lastItem == old(md.lastItem)
    ensures draws != [] ==>
              var v := Rendered(old(md.firstItem), old(md.lastItem), |draws|, maxItems, order);
              && |items| == v.count && displayPrev == v.prev && displayNext == v.next
              && md.firstItem == v.firstItem && md.lastItem == v.lastItem
              && (forall j :: 0 <= j < |items| ==>
                    items[j] == if way == Ascending then v.first + j else v.first + |items| - 1 - j)
              && v.first + v.count <= |draws|
  {
    items, way, displayPrev, displayNext := [], order, false, false;
    if |draws| == 0 { return; }
    var start: nat, foundExtra: bool, extra: nat;
    start, way := FindStart(md, order, |draws|, maxItems);
    items, foundExtra, extra := CollectItems(style, draws, start, way, maxItems);
    if foundExtra {
      if way == Descending {
        displayPrev, md.firstItem := true, extra;
      } else {
        displayNext, md.lastItem := true, extra;
      }
    }
    var found, other := SearchOther(style, draws, items[0], way);
    if found {
      if way == Descending {
        displayNext, md.lastItem := true, other;
      } else {
        displayPrev, md.firstItem := true, other;
      }
    }
  }

  /** Draws a page of a menu. None when the menu is empty. */
  method RenderMenu(md: MenuStates, style: Style, draws: seq<Draw>, pgn: nat, exitButton: bool, exitBackButton: bool,
                    order: ItemOrder) returns (panel: Panel?)
    requires AllPlain(draws) && 2 <= pgn && pgn + 3 <= style.MaxPageItems() && md.slots.Length == 11
    modifies md, md.slots
    ensures panel == null <==> draws == []
    ensures panel == null ==>
              md.slots[..] == old(md.slots[..]) && md.firstItem == old(md.firstItem) && md.lastItem == old(md.lastItem)
    ensures panel != null ==>
              var v := Rendered(old(md.firstItem), old(md.lastItem), |draws|, pgn, order);
              && md.firstItem == v.firstItem && md.lastItem == v.lastItem && md.itemOnPage == v.first
              && SlotsShow(old(md.slots[..]), md.slots[..], v, style, exitButton, exitBackButton)
  {
    var items, way, displayPrev, displayNext := FindItems(md, style, draws, pgn, order);
    if |items| == 0 { return null; }
    ghost var v := Rendered(old(md.firstItem), old(md.lastItem), |draws|, pgn, order);
    hide Rendered;
    panel := new Panel(style);
    DrawItems(md, panel, draws, items, way, v.first);
    DrawControls(md, panel, |items|, pgn, displayPrev, displayNext, exitButton, exitBackButton);
  }

  /** A key that leads to another page, pressed on page `k`. (The last of ten keys is not
      determined by a page without an exit button, and is left out here.) */
  method PressMove(md: MenuStates, style: Style, draws: seq<Draw>, pgn: nat, exitButton: bool, exitBackButton: bool,
                   key: nat,
                   ghost was: seq<Slot>, ghost v: View, ghost k: nat)
    returns (panel: Panel?, ghost u: View, ghost to: nat)
    requires AllPlain(draws) && 2 <= pgn && pgn + 3 <= style.MaxPageItems() && md.slots.Length == 11
    requires OnPage(v, k, |draws|, pgn) && md.firstItem == v.firstItem && md.lastItem == v.lastItem
    requires SlotsShow(was, md.slots[..], v, style, exitButton, exitBackButton)
    requires 1 <= key <= style.MaxPageItems() && (key == 10 ==> exitButton)
    requires md.slots[key].kind == SelNext || md.slots[key].kind == SelBack
    modifies md, md.slots
    ensures panel != null && to == (if old(md.slots[key]).kind == SelNext then k + 1 else k - 1)
    ensures OnPage(u, to, |draws|, pgn) && md.firstItem == u.firstItem && md.lastItem == u.lastItem
    ensures SlotsShow(old(md.slots[..]), md.slots[..], u, style, exitButton, exitBackButton)
  {
    var order := if md.slots[key].kind == SelNext then Ascending else Descending;
    u := Rendered(md.firstItem, md.lastItem, |draws|, pgn, order);
    assert if order == Ascending then v.next else v.prev;
    if order == Ascending {
      NextPage(v, k, |draws|, pgn);
      to := k + 1;
    } else {
      PreviousPage(v, k, |draws|, pgn);
      to := k - 1;
    }
    hide Rendered, SlotsShow, OnPage;
    panel := RenderMenu(md, style, draws, pgn, exitButton, exitBackButton, order);
  }
}

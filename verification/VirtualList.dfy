// The virtual list: a cache of item heights, a scroll position and the window of items to draw.
module VirtualList {
  import opened Prelude

  const U16_MAX: nat := 0xffff
  const U64_MAX: nat := 0xffff_ffff_ffff_ffff

  /** How items are drawn: a revision number, and the number of rows at a width. */
  datatype Renderer<!T> = Renderer(revision: T -> nat, measure: (T, nat) -> nat)

  datatype Rect = Rect(x: nat, y: nat, width: nat, height: nat)

  datatype VisibleItem = VisibleItem(index: nat, area: Rect, skipTop: nat)

  datatype ListState = ListState(
    scrollY: nat,
    measuredWidth: nat,
    itemHeights: seq<nat>,
    stickToBottom: bool,
    itemRevisions: seq<nat>,
    viewportHeight: nat)

  const INITIAL := ListState(0, 0, [], true, [], 0)

  function SaturatingSub(a: nat, b: nat): (r: nat) {
    if a >= b then a - b else 0
  }

  /** `Vec::resize`. */
  function Resized(values: seq<nat>, length: nat, fill: nat): (resized: seq<nat>)
    ensures |resized| == length
  {
    seq(length, i requires 0 <= i => if i < |values| then values[i] else fill)
  }

  function BottomOf(s: ListState): nat {
    SaturatingSub(Sum(s.itemHeights), s.viewportHeight)
  }

  function ScrolledToBottom(s: ListState): ListState {
    s.(scrollY := BottomOf(s), stickToBottom := true)
  }

  function Clamped(s: ListState): ListState {
    if s.stickToBottom then ScrolledToBottom(s) else s.(scrollY := Min(s.scrollY, BottomOf(s)))
  }

  function ScrolledToTop(s: ListState): ListState {
    s.(scrollY := 0, stickToBottom := BottomOf(s) == 0)
  }

  function ScrolledBy(s: ListState, delta: int): ListState {
    var y := if delta < 0 then SaturatingSub(s.scrollY, -delta) else Min(s.scrollY + delta, BottomOf(s));
    s.(scrollY := y, stickToBottom := y == BottomOf(s))
  }

  // Measuring

  function FreshHeight<T>(item: T, width: nat, renderer: Renderer<T>): (height: nat)
    ensures height >= 1
  {
    Max(renderer.measure(item, width), 1)
  }

  /** Laying everything out afresh. */
  function FreshHeights<T>(items: seq<T>, width: nat, renderer: Renderer<T>): (heights: seq<nat>)
    ensures |heights| == |items|
  {
    seq(|items|, i requires 0 <= i < |items| => FreshHeight(items[i], width, renderer))
  }

  /** The cached height of item `i` is used again. */
  predicate KeepsHeight<T>(s: ListState, items: seq<T>, i: nat, width: nat, renderer: Renderer<T>)
    requires i < |items|
  {
    && s.measuredWidth == width
    && Resized(s.itemHeights, |items|, 0)[i] != 0
    && Resized(s.itemRevisions, |items|, U64_MAX)[i] == renderer.revision(items[i])
  }

  function MeasuredHeights<T>(s: ListState, items: seq<T>, width: nat, renderer: Renderer<T>): (heights: seq<nat>)
    ensures |heights| == |items|
  {
    seq(|items|, i requires 0 <= i < |items| =>
      if KeepsHeight(s, items, i, width, renderer) then Resized(s.itemHeights, |items|, 0)[i]
      else FreshHeight(items[i], width, renderer))
  }

  function Revisions<T>(items: seq<T>, renderer: Renderer<T>): (revisions: seq<nat>)
    ensures |revisions| == |items|
  {
    seq<nat>(|items|, i requires 0 <= i < |items| => renderer.revision(items[i]))
  }

  function Measured<T>(s: ListState, items: seq<T>, width: nat, viewportHeight: nat, renderer: Renderer<T>): ListState {
    Clamped(ListState(s.scrollY, width, MeasuredHeights(s, items, width, renderer), s.stickToBottom,
                      Revisions(items, renderer), viewportHeight))
  }

  function WithCachedMeasurements(width: nat, viewportHeight: nat, heights: seq<nat>, scrollY: nat, stick: bool): ListState {
    ListState(Min(scrollY, Sum(heights)), width, heights, stick, [], viewportHeight)
  }

  /** The scroll position is inside the list, and sticking to the bottom means being there. */
  predicate InsideList(s: ListState) {
    s.scrollY <= BottomOf(s) && (s.stickToBottom ==> s.scrollY == BottomOf(s))
  }

  /** A position taken over with these heights is inside the list; with nothing to scroll past, any position is cut to it. */
  predicate FitsInside(viewport: nat, heights: seq<nat>, scroll: nat, stick: bool) {
    var bottom := SaturatingSub(Sum(heights), viewport);
    if bottom == Sum(heights) then stick ==> scroll >= bottom
    else if stick then scroll == bottom
    else scroll <= bottom
  }

  // Rows

  /** Row `line` of item `index`. */
  datatype Row = Row(index: nat, line: nat)

  /** Rows `from` to `to` of an item. */
  function ItemRows(index: nat, from: nat, to: nat): (rows: seq<Row>)
    requires from <= to
    ensures |rows| == to - from
  {
    seq(to - from, k requires 0 <= k < to - from => Row(index, from + k))
  }

  /** Every row of every item, from the top. */
  function Rows(heights: seq<nat>): (rows: seq<Row>)
    ensures |rows| == Sum(heights)
  {
    if heights == [] then []
    else Rows(heights[..|heights| - 1]) + ItemRows(|heights| - 1, 0, heights[|heights| - 1])
  }

  /** A row drawn at a screen line. */
  datatype DrawnRow = DrawnRow(y: nat, row: Row)

  function At(y: nat, rows: seq<Row>): (drawn: seq<DrawnRow>)
    ensures |drawn| == |rows|
  {
    seq(|rows|, k requires 0 <= k < |rows| => DrawnRow(y + k, rows[k]))
  }

  /** What the items draw: each fills its area from its row `skipTop` on. */
  function Drawn(visible: seq<VisibleItem>): seq<DrawnRow> {
    if visible == [] then []
    else
      var last := visible[|visible| - 1];
      Drawn(visible[..|visible| - 1]) +
      At(last.area.y, ItemRows(last.index, last.skipTop, last.skipTop + last.area.height))
  }

  /** The rows of the full layout in the window, which ends at the last screen line a `u16` can name. */
  function Window(heights: seq<nat>, scrollY: nat, area: Rect, overscan: nat): seq<DrawnRow>
    requires area.y <= U16_MAX
  {
    if area.width == 0 || area.height == 0 || scrollY >= Sum(heights) then []
    else
      var end := Min(scrollY + area.height + overscan, Sum(heights));
      At(area.y, Rows(heights)[scrollY..Min(end, scrollY + U16_MAX - area.y)])
  }

  /** `Rect::new` keeps an area inside the `u16` coordinates. */
  function NewRect(x: nat, y: nat, width: nat, height: nat): Rect
    requires x <= U16_MAX && y <= U16_MAX
  {
    Rect(x, y, Min(width, U16_MAX - x), Min(height, U16_MAX - y))
  }

  // The window, item by item

  /** The number of rows above item `i`. */
  function Top(heights: seq<nat>, i: nat): nat
    requires i <= |heights|
  {
    Sum(heights[..i])
  }

  /** The height of an item is the distance from its top to its bottom, and the bottom is within the whole. */
  lemma {:induction false} SumStep(heights: seq<nat>, i: nat)
    requires i < |heights|
    ensures Top(heights, i + 1) == Top(heights, i) + heights[i]
    ensures Top(heights, i + 1) <= Sum(heights)
    decreases |heights|
  {
    var n := |heights| - 1;
    assert heights[..i + 1][..i] == heights[..i];
    if i < n {
      SumStep(heights[..n], i);
      assert heights[..n][..i + 1] == heights[..i + 1];
    } else {
      assert heights[..i + 1] == heights;
    }
  }

  /** Row `k` of item `i` comes `k` rows below the item's top. */
  lemma {:induction false} RowAt(heights: seq<nat>, i: nat, k: nat)
    requires i < |heights| && k < heights[i]
    ensures Sum(heights[..i]) + k < Sum(heights)
    ensures Rows(heights)[Sum(heights[..i]) + k] == Row(i, k)
    decreases |heights|
  {
    var n := |heights| - 1;
    if i < n {
      RowAt(heights[..n], i, k);
      assert heights[..n][..i] == heights[..i];
    }
  }

  lemma {:induction false} TopEnds(heights: seq<nat>)
    ensures Top(heights, 0) == 0 && Top(heights, |heights|) == Sum(heights)
  {
    assert heights[..|heights|] == heights;
  }

  /** The part of the window above row `to` of the list. */
  function DrawnTo(rows: seq<Row>, start: nat, y: nat, to: nat): seq<DrawnRow> {
    if start < to <= |rows| then At(y, rows[start..to]) else []
  }

  /** How far the window is drawn when every item above `top` has been drawn. */
  function Reach(start: nat, y: nat, end: nat, top: nat): (reach: nat)
    requires y <= U16_MAX
    ensures start <= reach
  {
    Min(Max(start, Min(top, end)), start + U16_MAX - y)
  }

  /** Where an item that is partly in the window starts and ends, in rows of the list and in screen lines. */
  lemma {:induction false} ItemBounds(start: nat, y: nat, end: nat, top: nat, height: nat, skipTop: nat, areaY: nat, areaHeight: nat)
    requires y <= U16_MAX && top < end && start < top + height && start < end
    requires skipTop == SaturatingSub(start, top) && areaY == Min(y + SaturatingSub(top, start), U16_MAX)
    requires areaHeight == Min(Min(SaturatingSub(height, skipTop), SaturatingSub(end, Max(top, start))), U16_MAX - areaY)
    ensures skipTop + areaHeight <= height
    ensures var a := Reach(start, y, end, top);
            && a + areaHeight == Reach(start, y, end, top + height)
            && (areaHeight > 0 ==> areaY == y + a - start && top + skipTop == a)
  {
  }

  lemma {:induction false} DrawnFurther(rows: seq<Row>, start: nat, y: nat, a: nat, b: nat)
    requires start <= a < b <= |rows|
    ensures DrawnTo(rows, start, y, b) == DrawnTo(rows, start, y, a) + At(y + (a - start), rows[a..b])
  {
  }

  lemma {:induction false} SliceOfItem(rows: seq<Row>, top: nat, i: nat, from: nat, to: nat)
    requires from <= to && top + to <= |rows|
    requires forall j :: top + from <= j < top + to ==> rows[j] == Row(i, j - top)
    ensures rows[top + from..top + to] == ItemRows(i, from, to)
  {
  }

  lemma {:induction false} RowsOfItem(heights: seq<nat>, i: nat, from: nat, to: nat)
    requires i < |heights| && from < to <= heights[i]
    ensures Sum(heights[..i]) + to <= Sum(heights)
    ensures Rows(heights)[Sum(heights[..i]) + from..Sum(heights[..i]) + to] == ItemRows(i, from, to)
  {
    hide Rows;
    hide Sum;
    hide ItemRows;
    var rows, top := Rows(heights), Sum(heights[..i]);
    RowAt(heights, i, to - 1);
    forall j | top + from <= j < top + to
      ensures rows[j] == Row(i, j - top)
    {
      RowAt(heights, i, j - top);
    }
    SliceOfItem(rows, top, i, from, to);
  }

  lemma {:induction false} DrawnSnoc(visible: seq<VisibleItem>, item: VisibleItem)
    ensures Drawn(visible + [item]) ==
            Drawn(visible) + At(item.area.y, ItemRows(item.index, item.skipTop, item.skipTop + item.area.height))
  {
    assert (visible + [item])[..|visible|] == visible;
  }

  lemma {:induction false} NoRows(y: nat, i: nat, from: nat)
    ensures At(y, ItemRows(i, from, from)) == []
  {
  }

  lemma {:induction false} DrawOne(heights: seq<nat>, start: nat, y: nat, a: nat, i: nat, visible: seq<VisibleItem>, item: VisibleItem)
    requires i < |heights| && start <= a
    requires item.index == i && item.skipTop + item.area.height <= heights[i]
    requires item.area.height > 0 ==> item.area.y == y + a - start && Sum(heights[..i]) + item.skipTop == a
    requires Drawn(visible) == DrawnTo(Rows(heights), start, y, a)
    ensures Drawn(visible + [item]) == DrawnTo(Rows(heights), start, y, a + item.area.height)
  {
    DrawnSnoc(visible, item);
    hide Drawn;
    hide DrawnTo;
    hide Sum;
    hide Rows;
    hide At;
    hide ItemRows;
    if item.area.height > 0 {
      RowsOfItem(heights, i, item.skipTop, item.skipTop + item.area.height);
      DrawnFurther(Rows(heights), start, y, a, a + item.area.height);
    } else {
      NoRows(item.area.y, i, item.skipTop);
    }
  }

  /** The part of item `index`, whose rows start at `top`, that is in the window. */
  function ItemInWindow(start: nat, end: nat, area: Rect, index: nat, top: nat, height: nat): VisibleItem
    requires area.x <= U16_MAX && area.y <= U16_MAX
  {
    var skipTop := SaturatingSub(start, top);
    var visibleHeight := Min(SaturatingSub(height, skipTop), SaturatingSub(end, Max(top, start)));
    VisibleItem(
      index,
      NewRect(area.x, Min(area.y + Min(SaturatingSub(top, start), U16_MAX), U16_MAX), area.width, Min(visibleHeight, U16_MAX)),
      skipTop)
  }

  /** The step of the loop for an item that is partly in the window. */
  lemma {:induction false} DrawNext(heights: seq<nat>, start: nat, end: nat, area: Rect, i: nat, top: nat, visible: seq<VisibleItem>)
    requires area.x <= U16_MAX && area.y <= U16_MAX && i < |heights| && top == Top(heights, i)
    requires top < end && start < top + heights[i] && start < end
    requires Drawn(visible) == DrawnTo(Rows(heights), start, area.y, Reach(start, area.y, end, top))
    ensures var item := ItemInWindow(start, end, area, i, top, heights[i]);
            && Drawn(visible + [item]) ==
               DrawnTo(Rows(heights), start, area.y, Reach(start, area.y, end, top + heights[i]))
            && item.area.x == area.x && item.area.width == Min(area.width, U16_MAX - area.x)
  {
    hide Drawn;
    hide DrawnTo;
    hide Sum;
    hide Rows;
    var item := ItemInWindow(start, end, area, i, top, heights[i]);
    ItemBounds(start, area.y, end, top, heights[i], item.skipTop, item.area.y, item.area.height);
    hide Reach;
    hide ItemInWindow;
    DrawOne(heights, start, area.y, Reach(start, area.y, end, top), i, visible, item);
  }

  lemma {:induction false} ReachAbove(start: nat, y: nat, end: nat, top: nat)
    requires y <= U16_MAX && top <= start
    ensures Reach(start, y, end, top) == start
  {
  }

  lemma {:induction false} DrawnAll(heights: seq<nat>, scrollY: nat, area: Rect, overscan: nat, top: nat)
    requires area.y <= U16_MAX && area.width > 0 && area.height > 0
    requires top >= Min(scrollY + area.height + overscan, Sum(heights))
    ensures var end := Min(scrollY + area.height + overscan, Sum(heights));
            DrawnTo(Rows(heights), scrollY, area.y, Reach(scrollY, area.y, end, top)) == Window(heights, scrollY, area, overscan)
  {
  }

  class VirtualListState {
    var scrollY: nat
    var measuredWidth: nat
    var itemHeights: seq<nat>
    var stickToBottom: bool
    var itemRevisions: seq<nat>
    var viewportHeight: nat

    function State(): ListState
      reads this
    {
      ListState(scrollY, measuredWidth, itemHeights, stickToBottom, itemRevisions, viewportHeight)
    }

    constructor ()
      ensures State() == INITIAL
    {
      scrollY, measuredWidth, itemHeights, stickToBottom, itemRevisions, viewportHeight := 0, 0, [], true, [], 0;
    }

    method UseCachedMeasurements(width: nat, viewport: nat, heights: seq<nat>, scroll: nat, stick: bool)
      modifies this
      ensures State() == WithCachedMeasurements(width, viewport, heights, scroll, stick)
      ensures InsideList(State()) <==> FitsInside(viewport, heights, scroll, stick)
    {
      measuredWidth := width;
      viewportHeight := viewport;
      itemRevisions := [];
      itemHeights := heights;
      scrollY := Min(scroll, Sum(itemHeights));
      stickToBottom := stick;
    }

    method Measure<T>(items: seq<T>, width: nat, viewport: nat, renderer: Renderer<T>)
      modifies this
      ensures State() == Measured(old(State()), items, width, viewport, renderer)
      ensures |itemHeights| == |items| && measuredWidth == width && viewportHeight == viewport
      ensures stickToBottom == old(stickToBottom)
      ensures stickToBottom || old(scrollY) > BottomOf(State()) ==> scrollY == BottomOf(State())
      ensures !stickToBottom && old(scrollY) <= BottomOf(State()) ==> scrollY == old(scrollY)
    {
      hide Sum;
      ghost var before := State();
      ghost var heights, revisions := MeasuredHeights(before, items, width, renderer), Revisions(items, renderer);
      var widthChanged := measuredWidth != width;
      measuredWidth := width;
      viewportHeight := viewport;
      itemHeights := Resized(itemHeights, |items|, 0);
      itemRevisions := Resized(itemRevisions, |items|, U64_MAX);
      ghost var oldHeights, oldRevisions := itemHeights, itemRevisions;
      for index := 0 to |items|
        invariant |itemHeights| == |itemRevisions| == |items|
        invariant forall k :: 0 <= k < index ==> itemHeights[k] == heights[k] && itemRevisions[k] == revisions[k]
        invariant forall k :: index <= k < |items| ==> itemHeights[k] == oldHeights[k] && itemRevisions[k] == oldRevisions[k]
        invariant State() == before.(measuredWidth := width, viewportHeight := viewport,
                                     itemHeights := itemHeights, itemRevisions := itemRevisions)
      {
        var revision := renderer.revision(items[index]);
        assert heights[index] == (if KeepsHeight(before, items, index, width, renderer) then oldHeights[index]
                                  else FreshHeight(items[index], width, renderer));
        if widthChanged || itemHeights[index] == 0 || itemRevisions[index] != revision {
          itemHeights := itemHeights[index := Max(renderer.measure(items[index], width), 1)];
          itemRevisions := itemRevisions[index := revision];
        }
      }
      assert itemHeights == heights && itemRevisions == revisions;
      hide MeasuredHeights;
      hide Revisions;
      if stickToBottom {
        ScrollToBottom();
      } else {
        scrollY := Min(scrollY, BottomOf(State()));
      }
    }

    method ScrollBy(delta: int)
      modifies this
      ensures State() == ScrolledBy(old(State()), delta)
      ensures 0 <= old(scrollY) + delta <= BottomOf(State()) ==> scrollY == old(scrollY) + delta
      ensures old(scrollY) + delta < 0 ==> scrollY == 0
      ensures delta >= 0 && old(scrollY) + delta > BottomOf(State()) ==> scrollY == BottomOf(State())
      ensures stickToBottom <==> scrollY == BottomOf(State())
      ensures InsideList(State()) <==> delta >= 0 || old(scrollY) + delta <= BottomOf(State())
    {
      if delta < 0 {
        scrollY := SaturatingSub(scrollY, -delta);
      } else {
        scrollY := Min(scrollY + delta, BottomOf(State()));
      }
      stickToBottom := scrollY == BottomOf(State());
    }

    method ScrollToTop()
      modifies this
      ensures State() == ScrolledToTop(old(State()))
      ensures InsideList(State())
      ensures forall delta :: delta < 0 && old(scrollY) + delta <= 0 ==> ScrolledBy(old(State()), delta) == State()
    {
      scrollY := 0;
      stickToBottom := BottomOf(State()) == 0;
    }

    method ScrollToBottom()
      modifies this
      ensures State() == ScrolledToBottom(old(State()))
      ensures InsideList(State())
      ensures forall delta :: delta >= 0 && old(scrollY) + delta >= BottomOf(State()) ==> ScrolledBy(old(State()), delta) == State()
    {
      scrollY := BottomOf(State());
      stickToBottom := true;
    }

    /** The items draw exactly the window of the full layout, each row on its own screen line. */
    method VisibleItems(area: Rect, overscan: nat) returns (visible: seq<VisibleItem>)
      requires area.x <= U16_MAX && area.y <= U16_MAX
      ensures Drawn(visible) == Window(itemHeights, scrollY, area, overscan)
      ensures forall i :: 0 <= i < |visible| ==>
                visible[i].area.x == area.x && visible[i].area.width == Min(area.width, U16_MAX - area.x)
    {
      visible := [];
      if area.width == 0 || area.height == 0 || itemHeights == [] {
        return;
      }
      var start, heights := scrollY, itemHeights;
      var end := Min(start + area.height + overscan, Sum(heights));
      var itemTop, index := 0, 0;
      ghost var rows, y := Rows(heights), area.y;
      TopEnds(heights);
      hide Rows;
      assert Drawn(visible) == DrawnTo(rows, start, y, start);
      assert end <= Sum(heights);
      ReachAbove(start, y, end, 0);
      hide Reach;
      hide ItemInWindow;
      hide Min;
      hide Top;
      hide Sum;
      hide Drawn;
      hide DrawnTo;
      hide Window;
      while index < |heights|
        invariant index <= |heights|
        invariant itemTop == Top(heights, index) <= Sum(heights)
        invariant Drawn(visible) == DrawnTo(rows, start, y, Reach(start, y, end, itemTop))
        invariant forall i :: 0 <= i < |visible| ==>
                    visible[i].area.x == area.x && visible[i].area.width == Min(area.width, U16_MAX - area.x)
      {
        var height := heights[index];
        SumStep(heights, index);
        if itemTop + height <= start {
          ReachAbove(start, y, end, itemTop);
          ReachAbove(start, y, end, itemTop + height);
        } else if itemTop >= end {
          break;
        } else {
          DrawNext(heights, start, end, area, index, itemTop, visible);
          visible := visible + [ItemInWindow(start, end, area, index, itemTop, height)];
        }
        itemTop, index := itemTop + height, index + 1;
      }
      DrawnAll(heights, start, area, overscan, itemTop);
    }
  }

  // Over any sequence of calls

  datatype Call<!T> =
    | Measure(items: seq<T>, width: nat, viewportHeight: nat)
    | UseCachedMeasurements(width: nat, viewportHeight: nat, heights: seq<nat>, scroll: nat, stick: bool)
    | ScrollBy(delta: int)
    | ScrollToTop
    | ScrollToBottom

  function Apply<T>(s: ListState, call: Call<T>, renderer: Renderer<T>): ListState {
    match call
    case Measure(items, width, viewportHeight) => Measured(s, items, width, viewportHeight, renderer)
    case UseCachedMeasurements(width, viewportHeight, heights, scroll, stick) =>
      WithCachedMeasurements(width, viewportHeight, heights, scroll, stick)
    case ScrollBy(delta) => ScrolledBy(s, delta)
    case ScrollToTop => ScrolledToTop(s)
    case ScrollToBottom => ScrolledToBottom(s)
  }

  function Run<T>(calls: seq<Call<T>>, renderer: Renderer<T>): ListState {
    if calls == [] then INITIAL else Apply(Run(calls[..|calls| - 1], renderer), calls[|calls| - 1], renderer)
  }

  /** The layout from scratch of what was measured last, or the heights taken over since. */
  function FullLayout<T>(calls: seq<Call<T>>, renderer: Renderer<T>): seq<nat> {
    if calls == [] then []
    else
      match calls[|calls| - 1]
      case Measure(items, width, _) => FreshHeights(items, width, renderer)
      case UseCachedMeasurements(_, _, heights, _, _) => heights
      case _ => FullLayout(calls[..|calls| - 1], renderer)
  }

  /** Revision and width determine the height. */
  ghost predicate RevisionDecides<T(!new)>(renderer: Renderer<T>) {
    forall a: T, b: T, width :: renderer.revision(a) == renderer.revision(b) ==>
                                  renderer.measure(a, width) == renderer.measure(b, width)
  }

  /** Every cached height is the height of every item with the cached revision; a missing revision is the largest number. */
  ghost predicate CacheOk<T(!new)>(s: ListState, renderer: Renderer<T>) {
    && |s.itemRevisions| <= |s.itemHeights|
    && forall i, item: T ::
         0 <= i < |s.itemHeights| && renderer.revision(item) == Resized(s.itemRevisions, |s.itemHeights|, U64_MAX)[i] ==>
           s.itemHeights[i] == 0 || s.itemHeights[i] == FreshHeight(item, s.measuredWidth, renderer)
  }

  /** A call puts or keeps the scroll position inside the list exactly under this condition. */
  predicate EndsInside<T>(s: ListState, call: Call<T>) {
    match call
    case UseCachedMeasurements(_, viewport, heights, scroll, stick) => FitsInside(viewport, heights, scroll, stick)
    case ScrollBy(delta) => delta >= 0 || s.scrollY + delta <= BottomOf(s)
    case _ => true
  }

  /** Measuring and jumping put any position inside the list, and scrolling never leaves it. */
  lemma {:induction false} CallsStayInside<T>(s: ListState, call: Call<T>, renderer: Renderer<T>)
    ensures InsideList(Apply(s, call, renderer)) <==> EndsInside(s, call)
    ensures InsideList(s) && !call.UseCachedMeasurements? ==> EndsInside(s, call)
  {
  }

  /** Two scrolls are one unless the first is cut short and the second goes back. */
  lemma {:induction false} ScrollsAdd(s: ListState, a: int, b: int)
    requires s.scrollY <= BottomOf(s)
    requires (a < 0 <==> b < 0) || 0 <= s.scrollY + a <= BottomOf(s)
    ensures ScrolledBy(ScrolledBy(s, a), b) == ScrolledBy(s, a + b)
  {
    assert BottomOf(ScrolledBy(s, a)) == BottomOf(s);
    hide BottomOf;
  }

  lemma {:induction false} MeasuringIsFresh<T(!new)>(s: ListState, items: seq<T>, width: nat, renderer: Renderer<T>)
    requires RevisionDecides(renderer) && CacheOk(s, renderer)
    ensures MeasuredHeights(s, items, width, renderer) == FreshHeights(items, width, renderer)
  {
    var measured := MeasuredHeights(s, items, width, renderer);
    forall i | 0 <= i < |items|
      ensures measured[i] == FreshHeight(items[i], width, renderer)
    {
      if KeepsHeight(s, items, i, width, renderer) {
        assert i < |s.itemHeights|;
        assert Resized(s.itemRevisions, |s.itemHeights|, U64_MAX)[i] == renderer.revision(items[i]);
      }
    }
  }

  /** The largest revision stands for a missing one: it is not used, or no heights are ever taken over. */
  ghost predicate LargestRevisionIsFree<T(!new)>(calls: seq<Call<T>>, renderer: Renderer<T>) {
    || (forall item: T :: renderer.revision(item) != U64_MAX)
    || (forall i :: 0 <= i < |calls| ==> !calls[i].UseCachedMeasurements?)
  }

  /** After any calls: the cached heights are those of a full layout or the ones taken over since, and what a later
      measurement keeps is right. */
  lemma {:induction false} CacheRefinesFullLayout<T(!new)>(calls: seq<Call<T>>, renderer: Renderer<T>)
    requires RevisionDecides(renderer) && LargestRevisionIsFree(calls, renderer)
    ensures var s := Run(calls, renderer);
            s.itemHeights == FullLayout(calls, renderer) && CacheOk(s, renderer)
  {
    if calls != [] {
      var before, call := Run(calls[..|calls| - 1], renderer), calls[|calls| - 1];
      CacheRefinesFullLayout(calls[..|calls| - 1], renderer);
      match call
      case Measure(items, width, viewportHeight) =>
        MeasuringIsFresh(before, items, width, renderer);
      case _ =>
    }
  }

  /** After any calls the scroll position is inside the list, if it was whenever heights were taken over. */
  lemma {:induction false} RunsStayInside<T>(calls: seq<Call<T>>, renderer: Renderer<T>)
    requires forall i :: 0 <= i < |calls| && calls[i].UseCachedMeasurements? ==>
                           FitsInside(calls[i].viewportHeight, calls[i].heights, calls[i].scroll, calls[i].stick)
    ensures InsideList(Run(calls, renderer))
  {
    if calls != [] {
      RunsStayInside(calls[..|calls| - 1], renderer);
      CallsStayInside(Run(calls[..|calls| - 1], renderer), calls[|calls| - 1], renderer);
    }
  }

  /** The window has as many rows as fit exactly when the list is empty or the position is not below the bottom. */
  lemma {:induction false} WindowIsFullExactly(s: ListState, area: Rect)
    requires area.y + area.height <= U16_MAX
    requires area.height == s.viewportHeight && area.width > 0 && area.height > 0
    ensures |Window(s.itemHeights, s.scrollY, area, 0)| == Min(area.height, Sum(s.itemHeights)) <==>
            s.scrollY <= BottomOf(s) || Sum(s.itemHeights) == 0
  {
  }

  const CONVERSATION_PADDING: nat := 1

  /** The position that the conversation view computes, `fromBottom` rows above the end, with its padding counted as rows. */
  function ConversationOffset(heights: seq<nat>, viewport: nat, fromBottom: nat): (offset: nat) {
    var maximum := SaturatingSub(Sum(heights) + 2 * CONVERSATION_PADDING, viewport);
    maximum - Min(fromBottom, maximum)
  }

  /** The conversation's position is inside the list exactly when it is above the padding or there is none to scroll to. */
  lemma {:induction false} ConversationFits(heights: seq<nat>, viewport: nat, fromBottom: nat)
    ensures FitsInside(viewport, heights, ConversationOffset(heights, viewport, fromBottom), fromBottom == 0) <==>
            || fromBottom >= 2 * CONVERSATION_PADDING
            || Sum(heights) + 2 * CONVERSATION_PADDING <= viewport + fromBottom
            || viewport == 0 || Sum(heights) == 0
  {
  }

  /** At its end, a conversation of ten rows in a viewport of four draws two. */
  lemma {:induction false} ConversationLeavesGap(area: Rect)
    requires area.width > 0 && area.height == 4 && area.y + 4 <= U16_MAX
    ensures var s := WithCachedMeasurements(area.width, 4, [10], ConversationOffset([10], 4, 0), true);
            !InsideList(s) && |Window(s.itemHeights, s.scrollY, area, 0)| == 2
  {
    assert [10][..0] == [];
    assert Sum([10]) == Sum([]) + 10;
  }

  /** The window fills the viewport: it has as many rows as fit, and at the bottom its last row is the last row. */
  lemma {:induction false} WindowFillsViewport(s: ListState, area: Rect)
    requires InsideList(s) && area.y + area.height <= U16_MAX
    requires area.height == s.viewportHeight && area.width > 0 && area.height > 0
    ensures var window := Window(s.itemHeights, s.scrollY, area, 0);
            && |window| == Min(area.height, Sum(s.itemHeights))
            && (forall j :: 0 <= j < |window| ==> window[j] == DrawnRow(area.y + j, Rows(s.itemHeights)[s.scrollY + j]))
            && (s.stickToBottom && window != [] ==>
                  window[|window| - 1].row == Rows(s.itemHeights)[Sum(s.itemHeights) - 1])
  {
  }

  /** Heights taken over from elsewhere have no revisions: measuring again keeps a height exactly when the width is
      the same, the height is not 0 and the item's revision is the largest number. */
  lemma {:induction false} CachedMeasurementsAreKept<T>(width: nat, viewport: nat, heights: seq<nat>, scroll: nat, stick: bool,
                                                        items: seq<T>, newWidth: nat, renderer: Renderer<T>)
    ensures var s := WithCachedMeasurements(width, viewport, heights, scroll, stick);
            MeasuredHeights(s, items, newWidth, renderer) == FreshHeights(items, newWidth, renderer) <==>
            forall i :: 0 <= i < Min(|items|, |heights|) ==>
              newWidth != width || heights[i] == 0 || renderer.revision(items[i]) != U64_MAX
              || heights[i] == FreshHeight(items[i], newWidth, renderer)
  {
    var s := WithCachedMeasurements(width, viewport, heights, scroll, stick);
    var measured, anew := MeasuredHeights(s, items, newWidth, renderer), FreshHeights(items, newWidth, renderer);
    forall i | 0 <= i < |items|
      ensures measured[i] == anew[i] <==>
              || i >= |heights| || newWidth != width || heights[i] == 0 || renderer.revision(items[i]) != U64_MAX
              || heights[i] == FreshHeight(items[i], newWidth, renderer)
    {
    }
  }

  /** An item of the largest revision keeps a stale height that was taken over. */
  lemma {:induction false} StaleHeightIsKept()
    ensures var renderer := Renderer((item: nat) => U64_MAX, (item: nat, width: nat) => 7);
            && RevisionDecides(renderer)
            && MeasuredHeights(WithCachedMeasurements(80, 24, [3], 0, false), [0], 80, renderer) == [3]
            && FreshHeights([0], 80, renderer) == [7]
  {
  }
}

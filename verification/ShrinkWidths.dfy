// Shrinking the columns of a table until it fits.
module ShrinkWidths {
  import opened Prelude

  /** One bar before each column and one at the end, and a space on both sides of each cell. */
  function BorderWidth(columns: nat): nat {
    columns + 1 + columns * 2
  }

  function TableWidth(widths: seq<nat>): nat {
    Sum(widths) + BorderWidth(|widths|)
  }

  /** Water-filling: columns before `cut` are cut down to `level`, the others to one less. */
  predicate Leveled(original: seq<nat>, widths: seq<nat>, level: nat, cut: nat) {
    && |widths| == |original|
    && level > 0
    && forall i :: 0 <= i < |widths| ==> widths[i] == Min(original[i], if i < cut then level else level - 1)
  }

  predicate IsLastMaximum(widths: seq<nat>, index: nat) {
    && index < |widths|
    && (forall i :: 0 <= i < |widths| ==> widths[i] <= widths[index])
    && (forall i :: index < i < |widths| ==> widths[i] < widths[index])
  }

  /** `max_by_key`: the last of the largest. */
  method LastMaximum(widths: array<nat>) returns (found: Option<nat>)
    ensures found.None? <==> widths.Length == 0
    ensures found.Some? ==> IsLastMaximum(widths[..], found.value)
  {
    if widths.Length == 0 {
      return None;
    }
    var index := 0;
    for k := 1 to widths.Length
      invariant index < k
      invariant forall i :: 0 <= i < k ==> widths[i] <= widths[index]
      invariant forall i :: index < i < k ==> widths[i] < widths[index]
    {
      if widths[k] >= widths[index] {
        index := k;
      }
    }
    return Some(index);
  }

  lemma {:induction false} SumUpdate(widths: seq<nat>, index: nat, width: nat)
    requires index < |widths|
    ensures Sum(widths[index := width]) == Sum(widths) - widths[index] + width
    decreases |widths|
  {
    var n := |widths| - 1;
    var updated := widths[index := width];
    if index == n {
      assert updated[..n] == widths[..n];
    } else {
      assert updated[..n] == widths[..n][index := width];
      SumUpdate(widths[..n], index, width);
    }
  }

  /** `widths.iter().sum()`. */
  method SumOf(widths: array<nat>) returns (total: nat)
    ensures total == Sum(widths[..])
  {
    total := 0;
    for i := 0 to widths.Length
      invariant total == Sum(widths[..i])
    {
      assert widths[..i + 1][..i] == widths[..i];
      total := total + widths[i];
    }
    assert widths[..widths.Length] == widths[..];
  }

  lemma {:induction false} AllWithinSum(widths: seq<nat>)
    ensures forall i :: 0 <= i < |widths| ==> widths[i] <= Sum(widths)
  {
    if widths != [] {
      AllWithinSum(widths[..|widths| - 1]);
    }
  }

  /** Taking one from the last of the widest columns lowers the water by one step. */
  lemma {:induction false} LevelDrops(original: seq<nat>, widths: seq<nat>, level: nat, cut: nat, index: nat)
    requires Leveled(original, widths, level, cut) && IsLastMaximum(widths, index) && widths[index] > 0
    ensures Leveled(original, widths[index := widths[index] - 1], widths[index], index)
  {
  }

  /** The table is narrow enough, or no column may shrink any more. */
  predicate Settled(widths: seq<nat>, maximumWidth: nat) {
    TableWidth(widths) <= maximumWidth || forall i :: 0 <= i < |widths| ==> widths[i] <= 3
  }

  /** What shrinking makes of `original`. */
  ghost predicate Shrunk(original: seq<nat>, widths: seq<nat>, maximumWidth: nat) {
    && Settled(widths, maximumWidth)
    && (exists level, cut :: Leveled(original, widths, level, cut))
    && (widths != original ==>
          && TableWidth(original) > maximumWidth
          && (TableWidth(widths) == maximumWidth || (TableWidth(widths) > maximumWidth && 3 in widths))
          && forall i :: 0 <= i < |widths| ==> widths[i] >= Min(original[i], 3))
  }

  /** While columns are being taken from: everything is level, and nothing has gone below 3 or past the goal. */
  ghost predicate Shrinking(original: seq<nat>, widths: seq<nat>, maximumWidth: nat, level: nat, cut: nat) {
    && Leveled(original, widths, level, cut)
    && (widths != original ==>
          && TableWidth(original) > maximumWidth && TableWidth(widths) >= maximumWidth
          && level >= 4 && exists i :: 0 <= i < |widths| && widths[i] >= 3)
  }

  lemma {:induction false} ShrinkingStarts(widths: seq<nat>, maximumWidth: nat)
    ensures Shrinking(widths, widths, maximumWidth, Sum(widths) + 1, 0)
  {
    AllWithinSum(widths);
  }

  lemma {:induction false} ShrinkingGoesOn(original: seq<nat>, widths: seq<nat>, maximumWidth: nat, level: nat, cut: nat, index: nat)
    requires Shrinking(original, widths, maximumWidth, level, cut) && TableWidth(widths) > maximumWidth
    requires IsLastMaximum(widths, index) && widths[index] > 3
    ensures var narrower := widths[index := widths[index] - 1];
            Shrinking(original, narrower, maximumWidth, widths[index], index) && Sum(narrower) < Sum(widths)
  {
    LevelDrops(original, widths, level, cut, index);
    SumUpdate(widths, index, widths[index] - 1);
    hide Leveled;
    assert widths[index := widths[index] - 1][index] >= 3;
  }

  lemma {:induction false} ShrinkingEnds(original: seq<nat>, widths: seq<nat>, maximumWidth: nat, level: nat, cut: nat)
    requires Shrinking(original, widths, maximumWidth, level, cut) && Settled(widths, maximumWidth)
    ensures Shrunk(original, widths, maximumWidth)
  {
    if widths != original {
      var i :| 0 <= i < |widths| && widths[i] >= 3;
      assert TableWidth(widths) > maximumWidth ==> widths[i] == 3;
    }
  }

  method ShrinkWidths(widths: array<nat>, maximumWidth: nat)
    modifies widths
    ensures Shrunk(old(widths[..]), widths[..], maximumWidth)
  {
    ghost var original := widths[..];
    var borderWidth := BorderWidth(widths.Length);
    var total := SumOf(widths);
    ghost var level: nat, cut: nat := Sum(original) + 1, 0;
    ShrinkingStarts(original, maximumWidth);
    hide Shrinking;
    hide Shrunk;
    hide Sum;
    while total + borderWidth > maximumWidth
      invariant total == Sum(widths[..])
      invariant Shrinking(original, widths[..], maximumWidth, level, cut)
      decreases total
    {
      var found := LastMaximum(widths);
      if found.None? || widths[found.value] <= 3 {
        break;
      }
      var index := found.value;
      ghost var before := widths[..];
      ShrinkingGoesOn(original, before, maximumWidth, level, cut, index);
      level, cut := widths[index], index;
      widths[index] := widths[index] - 1;
      assert widths[..] == before[index := before[index] - 1];
      total := SumOf(widths);
    }
    ShrinkingEnds(original, widths[..], maximumWidth, level, cut);
  }

  lemma {:induction false} SumMonotone(a: seq<nat>, b: seq<nat>)
    requires |a| == |b| && forall i :: 0 <= i < |a| ==> a[i] <= b[i]
    ensures Sum(a) <= Sum(b)
    ensures Sum(a) == Sum(b) ==> a == b
  {
    if a != [] {
      var n := |a| - 1;
      SumMonotone(a[..n], b[..n]);
      assert a == a[..n] + [a[n]] && b == b[..n] + [b[n]];
    }
  }

  /** Water-filling is determined by the total: there is one way to level the columns to a given width. */
  lemma {:induction false} LevelingIsDetermined(original: seq<nat>, a: seq<nat>, levelA: nat, cutA: nat, b: seq<nat>, levelB: nat, cutB: nat)
    requires Leveled(original, a, levelA, cutA) && Leveled(original, b, levelB, cutB)
    requires Sum(a) == Sum(b)
    ensures a == b
  {
    if levelA < levelB || (levelA == levelB && cutA <= cutB) {
      SumMonotone(a, b);
    } else {
      SumMonotone(b, a);
    }
  }

  /** Nothing shrinks below 3, so what still does not fit has every column at its floor. */
  lemma {:induction false} TooWideIsAtFloor(original: seq<nat>, a: seq<nat>, b: seq<nat>, maximumWidth: nat)
    requires Shrunk(original, a, maximumWidth) && Shrunk(original, b, maximumWidth)
    requires TableWidth(a) > maximumWidth
    ensures a == b
  {
    var levelA, cutA :| Leveled(original, a, levelA, cutA);
    var levelB, cutB :| Leveled(original, b, levelB, cutB);
    assert forall i :: 0 <= i < |a| ==> a[i] == Min(original[i], 3) <= b[i] <= original[i];
    SumMonotone(a, b);
    assert forall i :: 0 <= i < |b| ==> b[i] == Min(original[i], 3);
  }

  /** The result is the only one: it is decided by the widths and the room there is. */
  lemma {:induction false} ShrinkingIsDetermined(original: seq<nat>, a: seq<nat>, b: seq<nat>, maximumWidth: nat)
    requires Shrunk(original, a, maximumWidth) && Shrunk(original, b, maximumWidth)
    ensures a == b
  {
    if TableWidth(a) > maximumWidth {
      TooWideIsAtFloor(original, a, b, maximumWidth);
    } else if TableWidth(b) > maximumWidth {
      TooWideIsAtFloor(original, b, a, maximumWidth);
    } else if a != original && b != original {
      var levelA, cutA :| Leveled(original, a, levelA, cutA);
      var levelB, cutB :| Leveled(original, b, levelB, cutB);
      LevelingIsDetermined(original, a, levelA, cutA, b, levelB, cutB);
    }
  }

  // The border that the widths are shrunk for

  lemma {:induction false} WidthSnoc(widths: seq<nat>, width: nat)
    ensures TableWidth(widths + [width]) == TableWidth(widths) + width + 3
  {
    assert (widths + [width])[..|widths|] == widths;
  }

  /** A border line, which is as wide as the table and has its corners at both ends. */
  method TableBorder(widths: seq<nat>, left: char, middle: char, right: char) returns (border: string)
    ensures |border| == TableWidth(widths)
    ensures border[0] == left && (widths != [] ==> border[|border| - 1] == right)
  {
    border := [left];
    for index := 0 to |widths|
      invariant |border| == TableWidth(widths[..index])
      invariant border[0] == left && (0 < index == |widths| ==> border[|border| - 1] == right)
    {
      assert widths[..index + 1] == widths[..index] + [widths[index]];
      WidthSnoc(widths[..index], widths[index]);
      border := border + seq(widths[index] + 2, _ => '\U{2500}');
      border := border + [if index + 1 == |widths| then right else middle];
    }
    assert widths[..|widths|] == widths;
  }
}

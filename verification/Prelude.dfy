// Shared value types and sequence helpers.
module Prelude {

  datatype Option<+T> = None | Some(value: T)

  datatype Result<+T, +E> = Ok(value: T) | Err(error: E)

  /** The elements of all parts, in order. */
  function Concat<T>(parts: seq<seq<T>>): seq<T> {
    if parts == [] then [] else parts[0] + Concat(parts[1..])
  }

  lemma {:induction false} ConcatAppend<T>(left: seq<seq<T>>, right: seq<seq<T>>)
    ensures Concat(left + right) == Concat(left) + Concat(right)
  {
    if left == [] {
      assert left + right == right;
    } else {
      assert (left + right)[1..] == left[1..] + right;
      ConcatAppend(left[1..], right);
    }
  }

  lemma {:induction false} ConcatSnoc<T>(parts: seq<seq<T>>, last: seq<T>)
    ensures Concat(parts + [last]) == Concat(parts) + last
  {
    ConcatAppend(parts, [last]);
    assert [last][1..] == [];
    assert Concat([last]) == last + [];
  }

  predicate Nondecreasing(numbers: seq<nat>) {
    forall i, j :: 0 <= i < j < |numbers| ==> numbers[i] <= numbers[j]
  }

  predicate Increasing(positions: seq<nat>) {
    forall i, j :: 0 <= i < j < |positions| ==> positions[i] < positions[j]
  }

  /** `positions` are exactly the places of `source` that show, in order, and element k of the image carries the k-th of them. */
  ghost predicate ProjectsAt<S(!new), T>(source: seq<S>, image: seq<T>, shown: S -> bool, carries: (S, T) -> bool, positions: seq<nat>) {
    && Increasing(positions)
    && (forall k :: 0 <= k < |positions| ==> positions[k] < |source| && shown(source[positions[k]]))
    && (forall i: nat :: i < |source| && shown(source[i]) ==> i in positions)
    && |positions| == |image|
    && (forall k :: 0 <= k < |image| ==> carries(source[positions[k]], image[k]))
  }

  /** The image has one element for every element of the source that shows, in order, and each carries its own. */
  ghost predicate Projects<S(!new), T>(source: seq<S>, image: seq<T>, shown: S -> bool, carries: (S, T) -> bool) {
    exists positions: seq<nat> :: ProjectsAt(source, image, shown, carries, positions)
  }

  lemma {:induction false} ProjectsNone<S(!new), T>(shown: S -> bool, carries: (S, T) -> bool)
    ensures Projects([], [], shown, carries)
  {
    var none: seq<nat> := [];
    assert ProjectsAt([], [], shown, carries, none);
  }

  lemma {:induction false} ProjectsSnoc<S(!new), T>(source: seq<S>, image: seq<T>, shown: S -> bool, carries: (S, T) -> bool, x: S, more: seq<T>)
    requires Projects(source, image, shown, carries)
    requires if shown(x) then |more| == 1 && carries(x, more[0]) else more == []
    ensures Projects(source + [x], image + more, shown, carries)
  {
    var positions: seq<nat> :| ProjectsAt(source, image, shown, carries, positions);
    hide ProjectsAt;
    if shown(x) {
      ProjectsShown(source, image, shown, carries, positions, x, more[0]);
      assert more == [more[0]];
    } else {
      assert image + more == image;
      ProjectsHidden(source, image, shown, carries, positions, x);
    }
  }

  lemma {:induction false} ProjectsHidden<S(!new), T>(source: seq<S>, image: seq<T>, shown: S -> bool, carries: (S, T) -> bool,
                                                      positions: seq<nat>, x: S)
    requires ProjectsAt(source, image, shown, carries, positions) && !shown(x)
    ensures ProjectsAt(source + [x], image, shown, carries, positions)
  {
    var longer := source + [x];
    forall i: nat | i < |longer| && shown(longer[i])
      ensures i in positions
    {
      assert longer[i] == source[i];
    }
  }

  lemma {:induction false} ProjectsShown<S(!new), T>(source: seq<S>, image: seq<T>, shown: S -> bool, carries: (S, T) -> bool,
                                                     positions: seq<nat>, x: S, y: T)
    requires ProjectsAt(source, image, shown, carries, positions) && shown(x) && carries(x, y)
    ensures ProjectsAt(source + [x], image + [y], shown, carries, positions + [|source|])
  {
    var longer, all, more := source + [x], positions + [|source|], image + [y];
    forall k | 0 <= k < |all|
      ensures all[k] < |longer| && shown(longer[all[k]]) && carries(longer[all[k]], more[k])
    {
    }
    forall i: nat | i < |longer| && shown(longer[i])
      ensures i in all
    {
      if i < |source| {
        assert longer[i] == source[i];
        assert i in positions;
      } else {
        assert all[|positions|] == i;
      }
    }
  }

  /** Element k of the concatenation comes from part `positions[k]`, and every element of a part is counted. */
  ghost predicate Locates<T(!new)>(parts: seq<seq<T>>, positions: seq<nat>) {
    var all := Concat(parts);
    && |positions| == |all|
    && Nondecreasing(positions)
    && (forall k :: 0 <= k < |all| ==> positions[k] < |parts| && all[k] in parts[positions[k]])
    && (forall i, x :: 0 <= i < |parts| && x in parts[i] ==> exists k :: 0 <= k < |all| && positions[k] == i && all[k] == x)
  }

  lemma {:induction false} LocateAll<T(!new)>(parts: seq<seq<T>>) returns (positions: seq<nat>)
    ensures Locates(parts, positions)
  {
    if parts == [] {
      positions := [];
    } else {
      var n := |parts| - 1;
      var front, last := parts[..n], parts[n];
      var earlier := LocateAll(front);
      ConcatSnoc(front, last);
      assert parts == front + [last];
      positions := earlier + seq(|last|, _ => n);
      LocatesSnoc(front, last, earlier, positions);
    }
  }

  lemma {:induction false} LocatesSnoc<T(!new)>(front: seq<seq<T>>, last: seq<T>, earlier: seq<nat>, positions: seq<nat>)
    requires Locates(front, earlier) && positions == earlier + seq(|last|, _ => |front|)
    requires Concat(front + [last]) == Concat(front) + last
    ensures Locates(front + [last], positions)
  {
    hide Concat;
    var parts, past, all := front + [last], Concat(front), Concat(front) + last;
    assert forall i :: 0 <= i < |front| ==> parts[i] == front[i];
    forall k | 0 <= k < |all|
      ensures positions[k] < |parts| && all[k] in parts[positions[k]]
    {
      if k >= |past| {
        assert all[k] == last[k - |past|];
      }
    }
    forall i, x | 0 <= i < |parts| && x in parts[i]
      ensures exists k :: 0 <= k < |all| && positions[k] == i && all[k] == x
    {
      var k := LocateOne(front, last, earlier, i, x);
      assert positions[k] == i && all[k] == x;
    }
  }

  lemma {:induction false} LocateOne<T(!new)>(front: seq<seq<T>>, last: seq<T>, earlier: seq<nat>, i: nat, x: T) returns (k: nat)
    requires Locates(front, earlier)
    requires i <= |front| && x in (front + [last])[i]
    ensures k < |Concat(front) + last| && (Concat(front) + last)[k] == x
    ensures (earlier + seq(|last|, _ => |front|))[k] == i
  {
    hide Concat;
    if i < |front| {
      k :| 0 <= k < |Concat(front)| && earlier[k] == i && Concat(front)[k] == x;
    } else {
      var j :| 0 <= j < |last| && last[j] == x;
      k := |Concat(front)| + j;
    }
  }

  predicate StartsWith(text: string, prefix: string) {
    prefix <= text
  }

  predicate EndsWith(text: string, suffix: string) {
    |suffix| <= |text| && text[|text| - |suffix|..] == suffix
  }

  predicate Contains(text: string, part: string) {
    exists i :: 0 <= i <= |text| && part <= text[i..]
  }

  lemma {:induction false} StartsWithMeaning(text: string, prefix: string)
    ensures StartsWith(text, prefix) <==> exists rest: string :: text == prefix + rest
  {
    if StartsWith(text, prefix) {
      assert text == prefix + text[|prefix|..];
    }
  }

  lemma {:induction false} EndsWithMeaning(text: string, suffix: string)
    ensures EndsWith(text, suffix) <==> exists stem: string :: text == stem + suffix
  {
    if EndsWith(text, suffix) {
      assert text == text[..|text| - |suffix|] + suffix;
    }
  }

  lemma {:induction false} ContainsMeaning(text: string, part: string)
    ensures Contains(text, part) <==> exists before: string, after: string :: text == before + part + after
  {
    if Contains(text, part) {
      var i :| 0 <= i <= |text| && part <= text[i..];
      assert text == text[..i] + part + text[i + |part|..];
    }
    if before: string, after: string :| text == before + part + after {
      assert text[|before|..][..|part|] == part;
    }
  }

  function Sum(numbers: seq<nat>): nat {
    if numbers == [] then 0 else Sum(numbers[..|numbers| - 1]) + numbers[|numbers| - 1]
  }

  function Min(a: int, b: int): int {
    if a <= b then a else b
  }

  function Max(a: int, b: int): int {
    if a >= b then a else b
  }
}

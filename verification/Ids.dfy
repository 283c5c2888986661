// Hierarchical ids: text that stands in for numbers.
module Ids {
  import opened Prelude
  import opened Decimal

  const RUN_WIDTH: nat := 6
  /** The first number that no longer fits the padding. */
  const NUMBER_LIMIT: nat := 1_000_000
  const U64_MAX: nat := 0xffff_ffff_ffff_ffff

  function SessionId(workspaceId: string, number: nat): string {
    workspaceId + "-" + ZeroPad(number, 4)
  }

  /** A run id under its session, and equally a step id under its run. */
  function ChildId(parent: string, number: nat): string {
    parent + "-" + ZeroPad(number, RUN_WIDTH)
  }

  /** `rsplit_once('-')`. */
  function SplitAtLastDash(id: string): Option<(string, string)> {
    if id == "" then None
    else if id[|id| - 1] == '-' then Some((id[..|id| - 1], ""))
    else
      match SplitAtLastDash(id[..|id| - 1])
      case None => None
      case Some((left, right)) => Some((left, right + [id[|id| - 1]]))
  }

  function ParentId(id: string): Option<string> {
    match SplitAtLastDash(id)
    case None => None
    case Some((parent, _)) => Some(parent)
  }

  /** The number after the one in the given id; the first number is 1. */
  function NextNumberAfter(latest: Option<string>): Result<nat, string> {
    match latest
    case None => Ok(1)
    case Some(id) =>
      match SplitAtLastDash(id)
      case None => Err(id)
      case Some((_, number)) =>
        match ParseUnsigned(number, U64_MAX)
        case None => Err(id)
        case Some(n) => Ok(n + 1)
  }

  /** Text order: `order by id` on text columns. */
  predicate Less(a: string, b: string) {
    if b == "" then false
    else if a == "" then true
    else a[0] < b[0] || (a[0] == b[0] && Less(a[1..], b[1..]))
  }

  // Splitting

  lemma {:induction false} SplitAfterDash(parent: string, digits: string)
    requires AllDigits(digits)
    ensures SplitAtLastDash(parent + "-" + digits) == Some((parent, digits))
  {
    var id := parent + "-" + digits;
    if digits == "" {
      assert id[..|id| - 1] == parent;
    } else {
      var front := digits[..|digits| - 1];
      SplitAfterDash(parent, front);
      assert id[..|id| - 1] == parent + "-" + front;
      assert front + [digits[|digits| - 1]] == digits;
    }
  }

  /** The parent functions undo the constructors, for every number. */
  lemma {:induction false} ParentOfChild(parent: string, number: nat)
    ensures ParentId(ChildId(parent, number)) == Some(parent)
    ensures ParentId(SessionId(parent, number)) == Some(parent)
  {
    SplitAfterDash(parent, ZeroPad(number, RUN_WIDTH));
    SplitAfterDash(parent, ZeroPad(number, 4));
  }

  lemma {:induction false} NextAfterChild(parent: string, number: nat)
    requires number <= U64_MAX
    ensures NextNumberAfter(Some(ChildId(parent, number))) == Ok(number + 1)
  {
    var digits := ZeroPad(number, RUN_WIDTH);
    SplitAfterDash(parent, digits);
    ValueOfZeroPad(number, RUN_WIDTH);
    assert IsDigit(digits[0]);
  }

  // Text order

  lemma {:induction false} LessIsTotal(a: string, b: string)
    ensures a == b || Less(a, b) || Less(b, a)
    ensures !(Less(a, b) && Less(b, a)) && !Less(a, a)
  {
    if a != "" && b != "" {
      LessIsTotal(a[1..], b[1..]);
      LessIsTotal(a[1..], a[1..]);
      assert a == [a[0]] + a[1..] && b == [b[0]] + b[1..];
    } else if a != "" {
      LessIsTotal(a[1..], a[1..]);
    }
  }

  lemma {:induction false} LessTransitive(a: string, b: string, c: string)
    requires Less(a, b) && Less(b, c)
    ensures Less(a, c)
  {
    if a != "" && a[0] == b[0] == c[0] {
      LessTransitive(a[1..], b[1..], c[1..]);
    }
  }

  lemma {:induction false} LessAfterPrefix(prefix: string, a: string, b: string)
    ensures Less(prefix + a, prefix + b) <==> Less(a, b)
  {
    if prefix == "" {
      assert prefix + a == a && prefix + b == b;
    } else {
      LessAfterPrefix(prefix[1..], a, b);
      assert (prefix + a)[1..] == prefix[1..] + a;
      assert (prefix + b)[1..] == prefix[1..] + b;
    }
  }

  /** A difference of equal length decides, whatever follows. */
  lemma {:induction false} LessBeforeSuffix(a: string, b: string, left: string, right: string)
    requires |a| == |b| && Less(a, b)
    ensures Less(a + left, b + right)
  {
    assert (a + left)[1..] == a[1..] + left;
    assert (b + right)[1..] == b[1..] + right;
    if a[0] == b[0] {
      LessBeforeSuffix(a[1..], b[1..], left, right);
    }
  }

  lemma {:induction false} ValueBound(s: string)
    requires AllDigits(s)
    ensures Value(s) < Pow10(|s|)
  {
    if s != "" {
      ValueBound(s[..|s| - 1]);
    }
  }

  lemma {:induction false} ValueOfFirst(s: string)
    requires AllDigits(s) && s != ""
    ensures Value(s) == DigitValue(s[0]) * Pow10(|s| - 1) + Value(s[1..])
  {
    var n := |s|;
    if n == 1 {
      assert s[..0] == "" && s[1..] == "";
      assert Pow10(0) == 1;
    } else {
      var front, p := s[..n - 1], Pow10(n - 2);
      ValueOfFirst(front);
      assert front[1..] == s[1..][..n - 2];
      TenTimes(DigitValue(s[0]), p, Value(front[1..]));
      assert Pow10(n - 1) == 10 * p;
    }
  }

  lemma {:induction false} TenTimes(d: nat, p: nat, v: nat)
    ensures 10 * (d * p + v) == d * (10 * p) + 10 * v
  {
  }

  lemma {:induction false} LeadingDigitDecides(x: nat, y: nat, p: nat, u: nat, v: nat)
    requires u < p && v < p
    ensures x * p + u < y * p + v <==> x < y || (x == y && u < v)
  {
    if x < y {
      MulStep(x, y, p);
    } else if y < x {
      MulStep(y, x, p);
    }
  }

  /** Digits of equal length are ordered as numbers. */
  lemma {:induction false} DigitOrder(a: string, b: string)
    requires AllDigits(a) && AllDigits(b) && |a| == |b|
    ensures Less(a, b) <==> Value(a) < Value(b)
  {
    if a != "" {
      ValueOfFirst(a);
      ValueOfFirst(b);
      ValueBound(a[1..]);
      ValueBound(b[1..]);
      DigitOrder(a[1..], b[1..]);
      LeadingDigitDecides(DigitValue(a[0]), DigitValue(b[0]), Pow10(|a| - 1), Value(a[1..]), Value(b[1..]));
    }
  }

  lemma {:induction false} MulStep(x: nat, y: nat, p: nat)
    requires x < y
    ensures x * p + p <= y * p
  {
    if x + 1 < y {
      MulStep(x, y - 1, p);
    }
  }

  lemma {:induction false} PadLength(n: nat)
    ensures n < NUMBER_LIMIT ==> |ZeroPad(n, RUN_WIDTH)| == RUN_WIDTH
    ensures n == NUMBER_LIMIT ==> ZeroPad(n, RUN_WIDTH) == "1000000"
  {
    DigitsLength(n, RUN_WIDTH);
    assert Pow10(6) == 1_000_000 by {
      assert Pow10(3) == 1000;
      assert Pow10(6) == 1000 * Pow10(3);
    }
    if n == NUMBER_LIMIT {
      assert Digits(100_000) == "100000" by {
        assert Digits(100) == "100";
        assert Digits(1000) == "1000";
      }
    }
  }

  /** Below the limit the text order of siblings is the order of their numbers. */
  lemma {:induction false} SiblingOrder(parent: string, n: nat, m: nat)
    requires n < NUMBER_LIMIT && m < NUMBER_LIMIT
    ensures Less(ChildId(parent, n), ChildId(parent, m)) <==> n < m
  {
    PadLength(n);
    PadLength(m);
    DigitOrder(ZeroPad(n, RUN_WIDTH), ZeroPad(m, RUN_WIDTH));
    ValueOfZeroPad(n, RUN_WIDTH);
    ValueOfZeroPad(m, RUN_WIDTH);
    LessAfterPrefix(parent + "-", ZeroPad(n, RUN_WIDTH), ZeroPad(m, RUN_WIDTH));
  }

  /** Number one million sorts before the number that precedes it. */
  lemma {:induction false} LimitSortsEarly(parent: string)
    ensures Less(ChildId(parent, NUMBER_LIMIT), ChildId(parent, NUMBER_LIMIT - 1))
  {
    PadLength(NUMBER_LIMIT);
    PadLength(NUMBER_LIMIT - 1);
    var last := ZeroPad(NUMBER_LIMIT - 1, RUN_WIDTH);
    ValueOfZeroPad(NUMBER_LIMIT - 1, RUN_WIDTH);
    LeadingNine(last);
    LessAfterPrefix(parent + "-", "1000000", last);
  }

  lemma {:induction false} LeadingNine(s: string)
    requires AllDigits(s) && |s| == 6 && Value(s) == 999_999
    ensures s[0] == '9'
  {
    ValueOfFirst(s);
    ValueBound(s[1..]);
    assert Pow10(5) == 100_000 by {
      assert Pow10(2) == 100;
      assert Pow10(5) == 1000 * Pow10(2);
    }
  }

  /** Siblings with different numbers have different ids. */
  lemma {:induction false} SiblingsDiffer(parent: string, n: nat, m: nat)
    requires ChildId(parent, n) == ChildId(parent, m)
    ensures n == m
  {
    SplitAfterDash(parent, ZeroPad(n, RUN_WIDTH));
    SplitAfterDash(parent, ZeroPad(m, RUN_WIDTH));
    ValueOfZeroPad(n, RUN_WIDTH);
    ValueOfZeroPad(m, RUN_WIDTH);
  }

  /** Steps are ordered by run first, then by number, through 999,999 of each. */
  lemma {:induction false} CousinOrder(sessionId: string, run: nat, i: nat, other: nat, j: nat)
    requires run < NUMBER_LIMIT && other < NUMBER_LIMIT && i < NUMBER_LIMIT && j < NUMBER_LIMIT
    ensures Less(ChildId(ChildId(sessionId, run), i), ChildId(ChildId(sessionId, other), j)) <==>
            run < other || (run == other && i < j)
  {
    SiblingOrder(ChildId(sessionId, run), i, j);
    SiblingOrder(sessionId, run, other);
    SiblingOrder(sessionId, other, run);
    PadLength(run);
    PadLength(other);
    var a, b := ChildId(sessionId, run), ChildId(sessionId, other);
    var x, y := "-" + ZeroPad(i, RUN_WIDTH), "-" + ZeroPad(j, RUN_WIDTH);
    assert ChildId(a, i) == a + x && ChildId(b, j) == b + y;
    if run < other {
      LessBeforeSuffix(a, b, x, y);
    } else if other < run {
      LessBeforeSuffix(b, a, y, x);
      LessIsTotal(a + x, b + y);
    }
  }

  // Prefixes

  function Dashes(s: string): nat {
    if s == "" then 0 else Dashes(s[..|s| - 1]) + if s[|s| - 1] == '-' then 1 else 0
  }

  lemma {:induction false} DashesConcat(a: string, b: string)
    ensures Dashes(a + b) == Dashes(a) + Dashes(b)
  {
    if b == "" {
      assert a + b == a;
    } else {
      DashesConcat(a, b[..|b| - 1]);
      assert (a + b)[..|a + b| - 1] == a + b[..|b| - 1];
    }
  }

  lemma {:induction false} NoDashesInDigits(s: string)
    requires AllDigits(s)
    ensures Dashes(s) == 0
  {
    if s != "" {
      NoDashesInDigits(s[..|s| - 1]);
    }
  }

  /** A `LIKE 'parent-%'` test selects no child of another id of the same level. */
  lemma {:induction false} PrefixSelectsOwnChildren(parent: string, other: string, n: nat)
    requires Dashes(parent) == Dashes(other)
    ensures parent + "-" <= ChildId(other, n) <==> parent == other
  {
    var child, digits := ChildId(other, n), ZeroPad(n, RUN_WIDTH);
    if parent + "-" <= child {
      var rest := child[|parent| + 1..];
      assert child == parent + "-" + rest;
      SplitAfterDash(other, digits);
      NoDashesInDigits(digits);
      DashesConcat(parent + "-", rest);
      DashesConcat(parent, "-");
      DashesConcat(other + "-", digits);
      DashesConcat(other, "-");
      NoDashMeansDigits(other, digits, parent, rest);
    }
  }

  lemma {:induction false} NoDashMeansDigits(left: string, digits: string, parent: string, rest: string)
    requires left + "-" + digits == parent + "-" + rest
    requires AllDigits(digits) && Dashes(rest) == 0
    ensures left == parent
  {
    if |parent| < |left| {
      var i := |left| - |parent| - 1;
      assert (left + "-" + digits)[|left|] == '-';
      assert rest[i] == '-';
      DashAt(rest, i);
    } else {
      var whole := left + "-" + digits;
      assert forall k :: |left| < k < |whole| ==> IsDigit(whole[k]);
      assert whole[|parent|] == '-';
      assert left == (left + "-" + digits)[..|left|];
      assert parent == (parent + "-" + rest)[..|parent|];
    }
  }

  lemma {:induction false} DashAt(s: string, i: nat)
    requires i < |s| && s[i] == '-'
    ensures Dashes(s) > 0
  {
    if i < |s| - 1 {
      DashAt(s[..|s| - 1], i);
    }
  }
}

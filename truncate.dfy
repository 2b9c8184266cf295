/** `truncate_value`, which shortens cell values before a data frame is
    rendered: long strings are cut and marked with `...`, long lists,
    tuples and arrays are rendered from as many leading elements as fit a
    character budget. Element strings are given, as `str` renders them. */
module Truncate {
  import opened Common

  /** The default budgets. */
  const ArrayMaxLength: int := 50
  const StringMaxLength: int := 5000

  /** A cell value: a string, a list-like value (its `str` rendering and
      the `str` of each element), or anything else. */
  datatype Value =
    | Text(s: string)
    | Sequence(repr: string, elems: seq<string>)
    | Scalar(repr: string)

  /** Python's `s[:stop]`: a negative stop counts from the end. */
  function PrefixTo(s: string, stop: int): (r: string)
    ensures |r| <= |s| && r == s[..|r|]
    ensures |r| == if stop >= 0 then Min(stop, |s|) else Max(0, |s| + stop)
  {
    if stop >= 0 then s[..Min(stop, |s|)] else s[..Max(0, |s| + stop)]
  }

  function Min(a: int, b: int): int { if a <= b then a else b }
  function Max(a: int, b: int): int { if a >= b then a else b }

  /** The string branch. A string within the budget is kept; a longer one
      keeps its first `maxLength - 4` characters and gains `...`, which
      leaves `maxLength - 1` characters whenever the budget is at least 4.
      Below 4 the slice bound is negative and counts from the end. */
  function TruncateString(s: string, maxLength: int): (r: string)
    ensures |s| <= maxLength ==> r == s
    ensures |s| > maxLength ==> 3 <= |r| <= |s| + 3 && r[|r| - 3..] == "..." && r[..|r| - 3] == s[..|r| - 3]
    ensures |s| > maxLength && maxLength >= 4 ==> |r| == maxLength - 1 && |r| < |s|
    ensures |s| > maxLength && maxLength < 4 ==> |r| == Max(0, |s| + maxLength - 4) + 3
  {
    if |s| <= maxLength then s else PrefixTo(s, maxLength - 4) + "..."
  }

  /** What the budget loop charges for the elements shown: each costs its
      length plus 2 for the separator. */
  function Cost(elems: seq<string>): int
  {
    if elems == [] then 0 else |elems[0]| + 2 + Cost(elems[1..])
  }

  /** Element `j` no longer fits when the cost so far plus its length plus
      5 (room for `, ...`) exceeds the budget. */
  predicate Overflows(elems: seq<string>, maxLength: int, j: nat)
    requires j < |elems|
  {
    Cost(elems[..j]) + |elems[j]| + 5 > maxLength
  }

  /** The index of the first element that does not fit, or `|elems|`. */
  function StopIndex(elems: seq<string>, maxLength: int, from: nat): (k: nat)
    requires from <= |elems|
    ensures from <= k <= |elems|
    ensures forall j :: from <= j < k ==> !Overflows(elems, maxLength, j)
    ensures k < |elems| ==> Overflows(elems, maxLength, k)
    decreases |elems| - from
  {
    if from == |elems| || Overflows(elems, maxLength, from) then from
    else StopIndex(elems, maxLength, from + 1)
  }

  /** The items shown: the elements before the first that does not fit,
      then `...` if the loop stopped early. */
  function Shown(elems: seq<string>, maxLength: int): seq<string>
  {
    var k := StopIndex(elems, maxLength, 0);
    elems[..k] + if k < |elems| then ["..."] else []
  }

  /** The rendering of a list-like value that is over the budget. */
  function Summary(elems: seq<string>, maxLength: int): string
  {
    "[" + Join(Shown(elems, maxLength), ", ") + "]"
  }

  /** The list branch past the length test: the budget loop with its
      early `break`, then the bracketed join. */
  method SummarizeElements(elems: seq<string>, maxLength: int) returns (r: string)
    ensures r == Summary(elems, maxLength)
  {
    var truncated: seq<string> := [];
    var currentLength := 0;
    var i := 0;
    while i < |elems|
      invariant i <= StopIndex(elems, maxLength, 0)
      invariant truncated == elems[..i]
      invariant currentLength == Cost(elems[..i])
    {
      var elem := elems[i];
      if currentLength + |elem| + 5 > maxLength {
        assert Overflows(elems, maxLength, i);
        truncated := truncated + ["..."];
        break;
      }
      truncated := truncated + [elem];
      CostAppend(elems[..i], elem);
      assert elems[..i + 1] == elems[..i] + [elem];
      currentLength := currentLength + |elem| + 2;
      i := i + 1;
    }
    assert i == StopIndex(elems, maxLength, 0);
    if i == |elems| {
      assert elems[..i] == elems;
    }
    assert truncated == Shown(elems, maxLength);
    r := "[" + Join(truncated, ", ") + "]";
  }

  /** `truncate_value`. */
  method TruncateValue(value: Value, arrayMaxLength: int, stringMaxLength: int) returns (r: Value)
    ensures value.Sequence? && |value.repr| <= arrayMaxLength ==> r == value
    ensures value.Sequence? && |value.repr| > arrayMaxLength ==>
      r == Text(Summary(value.elems, arrayMaxLength))
    ensures value.Text? ==> r == Text(TruncateString(value.s, stringMaxLength))
    ensures value.Scalar? ==> r == value
  {
    match value
    case Sequence(repr, elems) =>
      if |repr| <= arrayMaxLength {
        return value;
      }
      var s := SummarizeElements(elems, arrayMaxLength);
      r := Text(s);
    case Text(s) =>
      r := Text(TruncateString(s, stringMaxLength));
    case Scalar(_) =>
      r := value;
  }

  lemma {:induction false} CostAppend(elems: seq<string>, x: string)
    ensures Cost(elems + [x]) == Cost(elems) + |x| + 2
    decreases |elems|
  {
    if elems != [] {
      CostAppend(elems[1..], x);
      assert (elems + [x])[1..] == elems[1..] + [x];
    }
  }

  /** Joining with `", "` costs two characters fewer than the budget
      charges for the same items. */
  lemma {:induction false} JoinLength(xs: seq<string>)
    requires xs != []
    ensures |Join(xs, ", ")| == Cost(xs) - 2
    decreases |xs|
  {
    if |xs| > 1 {
      JoinLength(xs[1..]);
    }
  }

  /** The shown items are a prefix of the elements, followed by `...`
      exactly when some element did not fit. */
  lemma ShownShape(elems: seq<string>, maxLength: int)
    ensures var k := StopIndex(elems, maxLength, 0);
      k <= |Shown(elems, maxLength)| &&
      Shown(elems, maxLength)[..k] == elems[..k] &&
      (k < |elems| <==> |Shown(elems, maxLength)| == k + 1) &&
      (k < |elems| ==> Shown(elems, maxLength)[k] == "...")
  {
  }

  /** Every element shown fitted when it was taken: the cost of the
      elements shown, plus 3, stays within the budget. */
  lemma FittedCost(elems: seq<string>, maxLength: int, k: nat)
    requires 0 < k <= StopIndex(elems, maxLength, 0)
    ensures Cost(elems[..k]) + 3 <= maxLength
  {
    assert !Overflows(elems, maxLength, k - 1);
    CostAppend(elems[..k - 1], elems[k - 1]);
    assert elems[..k - 1] + [elems[k - 1]] == elems[..k];
  }

  /** The rendering of an over-budget list has at most `maxLength + 2`
      characters (the brackets may overhang) when the budget leaves room
      for `...`, and at most 5 (`[...]`) otherwise. */
  lemma SummaryLength(elems: seq<string>, maxLength: int)
    ensures |Summary(elems, maxLength)| <= if maxLength >= 3 then maxLength + 2 else 5
  {
    var k := StopIndex(elems, maxLength, 0);
    var shown := Shown(elems, maxLength);
    if k == 0 {
      if k < |elems| {
        assert shown == ["..."];
      } else {
        assert shown == [];
      }
    } else {
      FittedCost(elems, maxLength, k);
      JoinLength(shown);
      if k < |elems| {
        CostAppend(elems[..k], "...");
      } else {
        assert shown == elems[..k];
      }
    }
  }

  /** Under the defaults a string over 5000 characters becomes exactly
      4999, and an over-budget list at most 52. */
  lemma DefaultBounds(s: string, elems: seq<string>)
    ensures |s| > StringMaxLength ==> |TruncateString(s, StringMaxLength)| == StringMaxLength - 1
    ensures |Summary(elems, ArrayMaxLength)| <= ArrayMaxLength + 2
  {
    SummaryLength(elems, ArrayMaxLength);
  }
}

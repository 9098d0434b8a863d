/** Types and facts shared by the models of the individual stores. */
module Prelude {

  datatype Option<+T> = None | Some(value: T)

  /** No value occurs twice. */
  ghost predicate Distinct<T>(s: seq<T>) {
    forall i, j :: 0 <= i < j < |s| ==> s[i] != s[j]
  }

  lemma DistinctAppend<T>(s: seq<T>, x: T)
    requires Distinct(s) && x !in s
    ensures Distinct(s + [x])
  {
  }

  lemma DistinctConcat<T>(a: seq<T>, b: seq<T>)
    requires Distinct(a) && Distinct(b) && forall x :: x in b ==> x !in a
    ensures Distinct(a + b)
  {
    forall i, j | 0 <= i < j < |a + b| ensures (a + b)[i] != (a + b)[j] {
      if i < |a| <= j { assert b[j - |a|] in b; }
    }
  }

  /** Consecutive entries are at least `gap` apart. */
  ghost predicate SpacedOver(times: seq<int>, gap: int) {
    forall i :: 0 < i < |times| ==> times[i] - times[i - 1] >= gap
  }

  lemma SpacedSlice(times: seq<int>, gap: int, i: nat, j: nat)
    requires SpacedOver(times, gap) && i <= j <= |times|
    ensures SpacedOver(times[i..j], gap)
  {
    forall k | 0 < k < j - i ensures times[i..j][k] - times[i..j][k - 1] >= gap {
      assert times[i..j][k] == times[i + k] && times[i..j][k - 1] == times[i + k - 1];
    }
  }

  /** Spaced events inside a window of length `span`: at most `span / gap` gaps fit. */
  lemma SpacedWindow(times: seq<int>, gap: int, from: int, span: int)
    requires SpacedOver(times, gap) && gap > 0 && times != []
    requires forall t :: t in times ==> from <= t <= from + span
    ensures (|times| - 1) * gap <= span
  {
    SpacedTravel(times, gap);
    assert times[0] in times && times[|times| - 1] in times;
  }

  lemma {:induction false} SpacedTravel(times: seq<int>, gap: int)
    requires SpacedOver(times, gap) && times != []
    ensures times[|times| - 1] - times[0] >= (|times| - 1) * gap
  {
    if |times| > 1 {
      var before := times[..|times| - 1];
      assert SpacedOver(before, gap) by {
        forall i | 0 < i < |before| ensures before[i] - before[i - 1] >= gap {
          assert before[i] == times[i];
        }
      }
      SpacedTravel(before, gap);
      assert (|times| - 1) * gap == (|before| - 1) * gap + gap;
    }
  }

  /** How many neighbours are less than `gap` apart. */
  function Close(times: seq<int>, gap: int): nat
    decreases |times|
  {
    if |times| < 2 then 0
    else
      Close(times[..|times| - 1], gap) + if times[|times| - 1] - times[|times| - 2] < gap then 1 else 0
  }

  lemma CloseAppend(times: seq<int>, t: int, gap: int)
    ensures Close(times + [t], gap)
      == Close(times, gap) + if times != [] && t - times[|times| - 1] < gap then 1 else 0
  {
    assert (times + [t])[..|times|] == times;
  }

  lemma {:induction false} CloseSlice(times: seq<int>, gap: int, i: nat, j: nat)
    requires i < j <= |times|
    ensures Close(times[i..j], gap) <= Close(times, gap)
    decreases |times|
  {
    var before := times[..|times| - 1];
    if j < |times| {
      assert times[i..j] == before[i..j];
      CloseSlice(before, gap, i, j);
    } else if i < j - 1 {
      var last, front := times[|times| - 1], before[i..j - 1];
      CloseSlice(before, gap, i, j - 1);
      assert times[i..j] == front + [last];
      assert times == before + [last];
      assert front[|front| - 1] == before[|before| - 1];
      CloseAppend(front, last, gap);
      CloseAppend(before, last, gap);
    }
  }

  /** Ordered times travel at least a gap for each pair that is not close. */
  lemma {:induction false} CloseTravel(times: seq<int>, gap: nat)
    requires SpacedOver(times, 0) && times != []
    ensures times[|times| - 1] - times[0] >= (|times| - 1 - Close(times, gap)) * gap
    decreases |times|
  {
    if |times| > 1 {
      var before := times[..|times| - 1];
      SpacedSlice(times, 0, 0, |times| - 1);
      assert before == times[0..|times| - 1];
      CloseTravel(before, gap);
      OneGapMore(|before| - 1 - Close(before, gap), gap);
    }
  }

  /** So it is inside a window. */
  lemma CloseWindow(times: seq<int>, gap: nat, i: nat, j: nat, from: int, span: int)
    requires SpacedOver(times, 0) && i < j <= |times| && from <= times[i] && times[j - 1] <= from + span
    ensures span >= 0 && (j - i - 1 - Close(times, gap)) * gap <= span
  {
    var window := times[i..j];
    SpacedSlice(times, 0, i, j);
    SpacedTravel(window, 0);
    CloseSlice(times, gap, i, j);
    CloseTravel(window, gap);
    MulMonotone(j - i - 1 - Close(times, gap), j - i - 1 - Close(window, gap), gap);
  }

  lemma MulMonotone(a: int, b: int, c: nat)
    requires a <= b
    ensures a * c <= b * c && c * a <= c * b
  {
  }

  lemma OneGapMore(n: int, gap: int)
    ensures (n + 1) * gap == n * gap + gap
  {
  }
}

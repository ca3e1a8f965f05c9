/**
  The data half of the SHAP waterfall plot (`generate_shap_plot`): the visit order by
  descending absolute contribution, and the parallel lists of bar offsets, deltas,
  colours and labels built by walking that order with a running cumulative sum.
 */
module Waterfall {
  import opened Outcome

  /** Display names for the known feature identifiers (`feature_name_map`). */
  const FeatureNameMap: map<string, string> := map[
    "gender" := "Gender", "age" := "Age", "education" := "Education",
    "cog" := "Cognitive Function", "cesd" := "Depression Score", "lonely" := "Loneliness",
    "selfhealth" := "Self-rated Health", "depre" := "Depression Level", "lifesat" := "Life Satisfaction",
    "chronum" := "Chronic Conditions", "smoke" := "Smoking", "digeste" := "Digestive Disease",
    "lunge" := "Lung Disease", "arthre" := "Arthritis", "hchild" := "Number of Children",
    "iadl" := "IADL Score", "adl" := "ADL Score"]

  /** `feature_name_map.get(id, id)`: the display name, falling back to the identifier itself. */
  function DisplayName(id: string): (r: string)
    ensures id in FeatureNameMap ==> r == FeatureNameMap[id]
    ensures id !in FeatureNameMap ==> r == id
  {
    if id in FeatureNameMap then FeatureNameMap[id] else id
  }

  /** Bar colour: `#FF6B6B` for a contribution that raises risk, `#4ECDC4` otherwise. */
  datatype Color = Red | Teal

  /** A bar label `f'{name} = {value:.2f}'`, kept as the pair it is formatted from. */
  datatype Label = Label(name: string, value: real)

  /** The parallel lists of the plot and the final cumulative sum (the "Prediction" line). */
  datatype Chart = Chart(positions: seq<real>, values: seq<real>, colors: seq<Color>, labels: seq<Label>, prediction: real)

  /** The IndexError raised when `feature_names[idx]` or `feature_values[idx]` does not exist. */
  datatype PlotError = IndexOutOfRange(index: nat)

  function Abs(x: real): (r: real)
    ensures r >= 0.0 && (r == x || r == -x)
  {
    if x < 0.0 then -x else x
  }

  /** Sum of a sequence, accumulated from the left as a running total would be. */
  function Sum(s: seq<real>): real
  {
    if s == [] then 0.0 else Sum(s[..|s| - 1]) + s[|s| - 1]
  }

  /** The indices 0 .. n-1 in increasing order. */
  function Range(n: nat): (r: seq<nat>)
    ensures |r| == n && forall i :: 0 <= i < n ==> r[i] == i
  {
    seq(n, i => i)
  }

  lemma RangeSnoc(n: nat)
    ensures multiset(Range(n + 1)) == multiset(Range(n)) + multiset{n}
  {
    assert Range(n + 1) == Range(n) + [n];
  }

  predicate InRange(order: seq<nat>, n: nat)
  {
    forall i :: 0 <= i < |order| ==> order[i] < n
  }

  /** `order` lists each of 0 .. n-1 exactly once. */
  predicate IsPermutation(order: seq<nat>, n: nat)
  {
    multiset(order) == multiset(Range(n))
  }

  /** Absolute contributions never increase along `order`. */
  predicate DescendingMagnitude(s: seq<real>, order: seq<nat>)
    requires InRange(order, |s|)
  {
    forall i, j :: 0 <= i < j < |order| ==> Abs(s[order[i]]) >= Abs(s[order[j]])
  }

  /** The contributions visited in `order`: `shap_values[idx]` for each `idx`. */
  function Pick(s: seq<real>, order: seq<nat>): (r: seq<real>)
    requires InRange(order, |s|)
    ensures |r| == |order| && forall i :: 0 <= i < |order| ==> r[i] == s[order[i]]
  {
    seq(|order|, i requires 0 <= i < |order| => s[order[i]])
  }

  /** Insert index `i` into `acc` before the first index of strictly smaller magnitude. */
  function Insert(s: seq<real>, i: nat, acc: seq<nat>): (r: seq<nat>)
    requires i < |s| && InRange(acc, |s|)
    ensures |r| == |acc| + 1 && forall k :: 0 <= k < |r| ==> r[k] == i || r[k] in acc
    ensures InRange(r, |s|)
  {
    if acc == [] then [i]
    else if Abs(s[acc[0]]) < Abs(s[i]) then [i] + acc
    else [acc[0]] + Insert(s, i, acc[1..])
  }

  lemma {:induction false} InsertPermutes(s: seq<real>, i: nat, acc: seq<nat>)
    requires i < |s| && InRange(acc, |s|)
    ensures multiset(Insert(s, i, acc)) == multiset(acc) + multiset{i}
  {
    if acc != [] && Abs(s[acc[0]]) >= Abs(s[i]) {
      InsertPermutes(s, i, acc[1..]);
      assert acc == [acc[0]] + acc[1..];
    }
  }

  /** A head that dominates a sorted tail gives a sorted sequence. */
  lemma ConsSorted(s: seq<real>, h: nat, rest: seq<nat>)
    requires h < |s| && InRange(rest, |s|) && DescendingMagnitude(s, rest)
    requires forall k :: 0 <= k < |rest| ==> Abs(s[h]) >= Abs(s[rest[k]])
    ensures InRange([h] + rest, |s|) && DescendingMagnitude(s, [h] + rest)
  {
    var r := [h] + rest;
    forall a, b | 0 <= a < b < |r| ensures Abs(s[r[a]]) >= Abs(s[r[b]]) {
      assert r[b] == rest[b - 1];
      if a > 0 {
        assert r[a] == rest[a - 1];
      }
    }
  }

  /** The tail of a sorted sequence is sorted. */
  lemma TailSorted(s: seq<real>, acc: seq<nat>)
    requires acc != [] && InRange(acc, |s|) && DescendingMagnitude(s, acc)
    ensures InRange(acc[1..], |s|) && DescendingMagnitude(s, acc[1..])
  {
    var tail := acc[1..];
    forall k | 0 <= k < |tail| ensures tail[k] < |s| {
      assert tail[k] == acc[k + 1];
    }
    forall a, b | 0 <= a < b < |tail| ensures Abs(s[tail[a]]) >= Abs(s[tail[b]]) {
      assert tail[a] == acc[a + 1] && tail[b] == acc[b + 1];
    }
  }

  lemma {:induction false} InsertSorted(s: seq<real>, i: nat, acc: seq<nat>)
    requires i < |s| && InRange(acc, |s|)
    requires DescendingMagnitude(s, acc)
    ensures DescendingMagnitude(s, Insert(s, i, acc))
  {
    if acc != [] && Abs(s[acc[0]]) >= Abs(s[i]) {
      var tail := acc[1..];
      TailSorted(s, acc);
      InsertSorted(s, i, tail);
      var rest := Insert(s, i, tail);
      forall k | 0 <= k < |rest| ensures Abs(s[acc[0]]) >= Abs(s[rest[k]]) {
        if rest[k] != i {
          var m :| 0 <= m < |tail| && tail[m] == rest[k];
          assert acc[m + 1] == rest[k];
        }
      }
      ConsSorted(s, acc[0], rest);
      assert Insert(s, i, acc) == [acc[0]] + rest;
    }
  }

  /** The first `k` indices of `s`, by repeated insertion. */
  function SortPrefix(s: seq<real>, k: nat): (r: seq<nat>)
    requires k <= |s|
    ensures |r| == k && InRange(r, |s|)
  {
    if k == 0 then [] else Insert(s, k - 1, SortPrefix(s, k - 1))
  }

  lemma {:induction false} SortPrefixPermutes(s: seq<real>, k: nat)
    requires k <= |s|
    ensures IsPermutation(SortPrefix(s, k), k)
  {
    if k > 0 {
      var prev := SortPrefix(s, k - 1);
      SortPrefixPermutes(s, k - 1);
      InsertPermutes(s, k - 1, prev);
      assert SortPrefix(s, k) == Insert(s, k - 1, prev);
      RangeSnoc(k - 1);
    }
  }

  lemma {:induction false} SortPrefixSorted(s: seq<real>, k: nat)
    requires k <= |s|
    ensures DescendingMagnitude(s, SortPrefix(s, k))
  {
    if k > 0 {
      SortPrefixSorted(s, k - 1);
      InsertSorted(s, k - 1, SortPrefix(s, k - 1));
    }
  }

  /**
    `np.argsort(np.abs(shap_values))[::-1]`: a permutation of the feature indices along
    which the absolute contribution never increases. No order among equal magnitudes is promised.
   */
  function ArgsortDescending(s: seq<real>): (r: seq<nat>)
    ensures IsPermutation(r, |s|) && InRange(r, |s|) && DescendingMagnitude(s, r)
  {
    SortPrefixPermutes(s, |s|);
    SortPrefixSorted(s, |s|);
    SortPrefix(s, |s|)
  }

  /** A permutation of 0 .. n-1 has length n and contains every index below n. */
  lemma PermutationMembers(order: seq<nat>, n: nat)
    requires IsPermutation(order, n)
    ensures |order| == n
    ensures forall k :: 0 <= k < n ==> k in order
  {
    assert |multiset(order)| == |multiset(Range(n))|;
    forall k | 0 <= k < n ensures k in order {
      assert Range(n)[k] == k;
      assert k in multiset(Range(n));
    }
  }

  lemma {:induction false} SumAppend(u: seq<real>, v: seq<real>)
    ensures Sum(u + v) == Sum(u) + Sum(v)
  {
    if v == [] {
      assert u + v == u;
    } else {
      var w := u + v;
      assert w[..|w| - 1] == u + v[..|v| - 1];
      assert w[|w| - 1] == v[|v| - 1];
      SumAppend(u, v[..|v| - 1]);
    }
  }

  /** A running total after one more step: `cumsum += values[k]`. */
  lemma SumPrefixStep(v: seq<real>, k: nat)
    requires k < |v|
    ensures Sum(v[..k + 1]) == Sum(v[..k]) + v[k]
  {
    assert v[..k + 1][..k] == v[..k];
  }

  /** Taking one element out of a sequence takes it out of its multiset. */
  lemma RemoveAt(b: seq<nat>, k: nat)
    requires k < |b|
    ensures multiset(b[..k] + b[k + 1..]) == multiset(b) - multiset{b[k]}
  {
    assert b == b[..k] + [b[k]] + b[k + 1..];
  }

  lemma PickAppend(s: seq<real>, a: seq<nat>, b: seq<nat>)
    requires InRange(a, |s|) && InRange(b, |s|)
    ensures InRange(a + b, |s|)
    ensures Pick(s, a + b) == Pick(s, a) + Pick(s, b)
  {
    assert InRange(a + b, |s|) by {
      forall i | 0 <= i < |a + b| ensures (a + b)[i] < |s| {
        if i >= |a| { assert (a + b)[i] == b[i - |a|]; }
      }
    }
  }

  lemma SumSnoc(u: seq<real>, v: real)
    ensures Sum(u + [v]) == Sum(u) + v
  {
    assert (u + [v])[..|u|] == u;
  }

  /** The total along `b` is the contribution at position `k` plus the total along the rest. */
  lemma SumPickRemove(s: seq<real>, b: seq<nat>, k: nat)
    requires InRange(b, |s|) && k < |b|
    ensures InRange(b[..k] + b[k + 1..], |s|)
    ensures Sum(Pick(s, b)) == Sum(Pick(s, b[..k] + b[k + 1..])) + s[b[k]]
  {
    var b1, b2 := b[..k], b[k + 1..];
    assert b == (b1 + [b[k]]) + b2;
    assert InRange(b1, |s|) && InRange(b2, |s|) && InRange([b[k]], |s|);
    PickAppend(s, b1, [b[k]]);
    PickAppend(s, b1 + [b[k]], b2);
    PickAppend(s, b1, b2);
    var p1, p2 := Pick(s, b1), Pick(s, b2);
    assert Pick(s, [b[k]]) == [s[b[k]]];
    SumAppend(p1 + [s[b[k]]], p2);
    SumAppend(p1, p2);
    SumSnoc(p1, s[b[k]]);
  }

  /** Contributions gathered along two orders holding the same indices have the same total. */
  lemma {:induction false} SumPickInvariant(s: seq<real>, a: seq<nat>, b: seq<nat>)
    requires InRange(a, |s|) && InRange(b, |s|)
    requires multiset(a) == multiset(b)
    ensures Sum(Pick(s, a)) == Sum(Pick(s, b))
    decreases |a|
  {
    if a == [] {
      assert |multiset(b)| == 0;
      assert Pick(s, a) == Pick(s, b) == [];
    } else {
      var last := |a| - 1;
      var x := a[last];
      assert x in multiset(b);
      var k :| 0 <= k < |b| && b[k] == x;
      RemoveAt(a, last);
      RemoveAt(b, k);
      assert a[..last] + a[last + 1..] == a[..last];
      SumPickRemove(s, a, last);
      SumPickRemove(s, b, k);
      SumPickInvariant(s, a[..last], b[..k] + b[k + 1..]);
    }
  }

  /** Visiting every contribution once, in any order, accumulates the plain total. */
  lemma SumOfPermutation(s: seq<real>, order: seq<nat>)
    requires IsPermutation(order, |s|) && InRange(order, |s|)
    ensures Sum(Pick(s, order)) == Sum(s)
  {
    assert InRange(Range(|s|), |s|);
    SumPickInvariant(s, order, Range(|s|));
    assert Pick(s, Range(|s|)) == s;
  }

  /** Position `k` of `order` is the first visited index with no feature name or no feature value. */
  predicate FirstUnlabelled(order: seq<nat>, k: int, names: nat, featureValues: nat)
  {
    && 0 <= k < |order|
    && (order[k] >= names || order[k] >= featureValues)
    && forall j :: 0 <= j < k ==> order[j] < names && order[j] < featureValues
  }

  /** The bar of one visited feature: `c` holds, at position `i`, the entries for index `order[i]`. */
  predicate BarAt(shap: seq<real>, featureValues: seq<real>, baseValue: real, featureNames: seq<string>,
                  order: seq<nat>, c: Chart, i: nat)
    requires InRange(order, |shap|) && i < |order| && i < |c.positions| == |c.values| == |c.colors| == |c.labels|
  {
    && order[i] < |featureNames| && order[i] < |featureValues|
    && c.values[i] == shap[order[i]]
    && c.positions[i] == baseValue + Sum(c.values[..i])
    && (c.colors[i] == Red <==> c.values[i] > 0.0)
    && c.labels[i] == Label(DisplayName(featureNames[order[i]]), featureValues[order[i]])
  }

  /** The loop invariant: the first `i` visited features have their bars, and `cumsum` is the running offset. */
  predicate Walked(shap: seq<real>, featureValues: seq<real>, baseValue: real, featureNames: seq<string>,
                   order: seq<nat>, i: nat, c: Chart)
    requires InRange(order, |shap|) && i <= |order|
  {
    && |c.positions| == |c.values| == |c.colors| == |c.labels| == i
    && (forall j :: 0 <= j < i ==> BarAt(shap, featureValues, baseValue, featureNames, order, c, j))
    && c.prediction == baseValue + Sum(c.values)
  }

  /** One iteration of the loop keeps the invariant. */
  lemma WalkStep(shap: seq<real>, featureValues: seq<real>, baseValue: real, featureNames: seq<string>,
                 order: seq<nat>, i: nat, c: Chart)
    requires InRange(order, |shap|) && i < |order|
    requires Walked(shap, featureValues, baseValue, featureNames, order, i, c)
    requires order[i] < |featureNames| && order[i] < |featureValues|
    ensures var idx := order[i];
      Walked(shap, featureValues, baseValue, featureNames, order, i + 1,
        Chart(c.positions + [c.prediction], c.values + [shap[idx]],
              c.colors + [if shap[idx] > 0.0 then Red else Teal],
              c.labels + [Label(DisplayName(featureNames[idx]), featureValues[idx])],
              c.prediction + shap[idx]))
  {
    var idx := order[i];
    var c' := Chart(c.positions + [c.prediction], c.values + [shap[idx]],
              c.colors + [if shap[idx] > 0.0 then Red else Teal],
              c.labels + [Label(DisplayName(featureNames[idx]), featureValues[idx])],
              c.prediction + shap[idx]);
    forall j | 0 <= j <= i ensures BarAt(shap, featureValues, baseValue, featureNames, order, c', j) {
      assert c'.values[..j] == c.values[..j];
      if j < i {
        assert BarAt(shap, featureValues, baseValue, featureNames, order, c, j);
      }
    }
    SumSnoc(c.values, shap[idx]);
  }

  /** Once every index is visited, every index has a feature name and a feature value. */
  lemma WalkCoversAll(shap: seq<real>, featureValues: seq<real>, baseValue: real, featureNames: seq<string>,
                      order: seq<nat>, c: Chart)
    requires IsPermutation(order, |shap|) && InRange(order, |shap|)
    requires Walked(shap, featureValues, baseValue, featureNames, order, |order|, c)
    ensures |shap| <= |featureNames| && |shap| <= |featureValues|
  {
    if |shap| > 0 {
      PermutationMembers(order, |shap|);
      var n := |shap| - 1;
      assert n in order;
      var k :| 0 <= k < |order| && order[k] == n;
      assert BarAt(shap, featureValues, baseValue, featureNames, order, c, k);
    }
  }

  /** When the loop has visited every index, the invariant gives the whole chart. */
  lemma WalkDone(shap: seq<real>, featureValues: seq<real>, baseValue: real, featureNames: seq<string>,
                 order: seq<nat>, c: Chart)
    requires IsPermutation(order, |shap|) && InRange(order, |shap|) && |order| == |shap|
    requires Walked(shap, featureValues, baseValue, featureNames, order, |order|, c)
    ensures IsChart(shap, featureValues, baseValue, featureNames, order, c)
  {
    forall j | 0 <= j < |order|
      ensures c.values[j] == shap[order[j]]
      ensures c.positions[j] == baseValue + Sum(c.values[..j])
      ensures c.colors[j] == Red <==> c.values[j] > 0.0
      ensures order[j] < |featureNames| && order[j] < |featureValues|
      ensures c.labels[j] == Label(DisplayName(featureNames[order[j]]), featureValues[order[j]])
    {
      assert BarAt(shap, featureValues, baseValue, featureNames, order, c, j);
    }
    assert c.values == Pick(shap, order);
    SumOfPermutation(shap, order);
    forall j | 0 <= j < |shap| - 1 ensures c.positions[j + 1] == c.positions[j] + c.values[j] {
      SumPrefixStep(c.values, j);
    }
    assert |shap| > 0 ==> c.values[..0] == [];
  }

  /**
    What the plot is drawn from: one bar per feature in visit order, each starting where the
    previous one ended (the first at the baseline), red exactly when its contribution is strictly
    positive, labelled with the display name and the feature's value; the final offset is the
    baseline plus the total contribution.
   */
  predicate IsChart(shap: seq<real>, featureValues: seq<real>, baseValue: real, featureNames: seq<string>,
                    order: seq<nat>, c: Chart)
    requires InRange(order, |shap|) && |order| == |shap|
  {
    && |c.positions| == |c.values| == |c.colors| == |c.labels| == |shap|
    && c.values == Pick(shap, order)
    && (|shap| > 0 ==> c.positions[0] == baseValue)
    && (forall i :: 0 <= i < |shap| ==> c.positions[i] == baseValue + Sum(c.values[..i]))
    && (forall i :: 0 <= i < |shap| - 1 ==> c.positions[i + 1] == c.positions[i] + c.values[i])
    && (forall i :: 0 <= i < |shap| ==> (c.colors[i] == Red <==> c.values[i] > 0.0))
    && (forall i :: 0 <= i < |shap| ==> order[i] < |featureNames| && order[i] < |featureValues|)
    && (forall i :: 0 <= i < |shap| ==>
          c.labels[i] == Label(DisplayName(featureNames[order[i]]), featureValues[order[i]]))
    && c.prediction == baseValue + Sum(shap)
  }

  /**
    The waterfall loop. It visits the contributions by descending magnitude; for each it records
    the running offset, the contribution, its colour and its label, then advances the running sum.
    It fails with the IndexError of the first visited index that has no feature name or value.
   */
  method BuildChart(shap: seq<real>, featureValues: seq<real>, baseValue: real, featureNames: seq<string>)
    returns (order: seq<nat>, r: Result<Chart, PlotError>)
    ensures IsPermutation(order, |shap|) && InRange(order, |shap|) && DescendingMagnitude(shap, order)
    ensures |order| == |shap|
    ensures r.Ok? <==> |shap| <= |featureNames| && |shap| <= |featureValues|
    ensures r.Err? ==> exists k :: FirstUnlabelled(order, k, |featureNames|, |featureValues|) && order[k] == r.error.index
    ensures r.Ok? ==> IsChart(shap, featureValues, baseValue, featureNames, order, r.value)
  {
    order := ArgsortDescending(shap);
    PermutationMembers(order, |shap|);
    var cumsum := baseValue;
    var positions: seq<real> := [];
    var values: seq<real> := [];
    var colors: seq<Color> := [];
    var labels: seq<Label> := [];
    var i := 0;
    while i < |order|
      invariant 0 <= i <= |order|
      invariant Walked(shap, featureValues, baseValue, featureNames, order, i, Chart(positions, values, colors, labels, cumsum))
    {
      var idx := order[i];
      if idx >= |featureNames| || idx >= |featureValues| {
        assert FirstUnlabelled(order, i, |featureNames|, |featureValues|) by {
          forall j | 0 <= j < i ensures order[j] < |featureNames| && order[j] < |featureValues| {
            assert BarAt(shap, featureValues, baseValue, featureNames, order, Chart(positions, values, colors, labels, cumsum), j);
          }
        }
        return order, Err(IndexOutOfRange(idx));
      }
      WalkStep(shap, featureValues, baseValue, featureNames, order, i, Chart(positions, values, colors, labels, cumsum));
      positions := positions + [cumsum];
      values := values + [shap[idx]];
      colors := colors + [if shap[idx] > 0.0 then Red else Teal];
      labels := labels + [Label(DisplayName(featureNames[idx]), featureValues[idx])];
      cumsum := cumsum + shap[idx];
      i := i + 1;
    }
    WalkCoversAll(shap, featureValues, baseValue, featureNames, order, Chart(positions, values, colors, labels, cumsum));
    WalkDone(shap, featureValues, baseValue, featureNames, order, Chart(positions, values, colors, labels, cumsum));
    r := Ok(Chart(positions, values, colors, labels, cumsum));
  }
}

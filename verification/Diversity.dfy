/**
 Token-Jaccard similarity and the greedy diversity filter (strata/resolver/diversity.py). A
 text's token set comes from a tokenizer that this model leaves open.
 */
module Diversity {

  type Tokenizer = string -> set<string>

  function Jaccard<T(==)>(a: set<T>, b: set<T>): (j: real)
    ensures 0.0 <= j <= 1.0
    ensures a == b ==> j == 1.0
    ensures a + b != {} ==> j * |a + b| as real == |a * b| as real
  {
    if a == {} && b == {} then 1.0
    else if a == {} || b == {} then
      assert a * b == {};
      0.0
    else
      UnionBounds(a, b);
      |a * b| as real / |a + b| as real
  }

  lemma UnionBounds<T>(a: set<T>, b: set<T>)
    ensures |a + b| + |a * b| == |a| + |b|
    ensures |a * b| <= |a| && |a * b| <= |b|
    ensures a != {} ==> |a + b| > 0
    ensures a == b ==> |a * b| == |a + b|
  {
    assert |a - b| == |a| - |a * b|;
    assert |b - a| == |b| - |b * a|;
    assert b * a == a * b;
    if a == b {
      assert a * b == a && a + b == a;
    }
  }

  function Similarity(tok: Tokenizer, a: string, b: string): real {
    Jaccard(tok(a), tok(b))
  }

  /** Two texts are as similar as their token sets: common tokens per token of either. */
  lemma SimilarityMeaning(tok: Tokenizer, a: string, b: string)
    ensures tok(a) == tok(b) ==> Similarity(tok, a, b) == 1.0
    ensures tok(a) + tok(b) != {} ==>
              Similarity(tok, a, b) * |tok(a) + tok(b)| as real == |tok(a) * tok(b)| as real
    ensures Similarity(tok, a, b) == Similarity(tok, b, a)
  {
    hide Jaccard;
    JaccardSymmetric(tok(a), tok(b));
  }

  lemma JaccardSymmetric<T>(a: set<T>, b: set<T>)
    ensures Jaccard(a, b) == Jaccard(b, a)
  {
    assert a * b == b * a && a + b == b + a;
  }

  // ---- Jaccard distance is a metric ----

  /** Size of the symmetric difference. */
  ghost function Diff<T>(a: set<T>, b: set<T>): nat {
    |(a - b) + (b - a)|
  }

  lemma DiffSize<T>(a: set<T>, b: set<T>)
    ensures Diff(a, b) == |a + b| - |a * b|
    ensures Diff(a, b) == |a| + |b| - 2 * |a * b|
  {
    UnionBounds(a, b);
    UnionBounds(a - b, b - a);
    assert (a - b) * (b - a) == {};
    assert |a - b| == |a| - |a * b|;
    assert |b - a| == |b| - |b * a|;
    assert b * a == a * b;
  }

  lemma SubsetSize<T>(a: set<T>, b: set<T>)
    requires a <= b
    ensures |a| <= |b|
  {
    assert b == a + (b - a);
  }

  lemma DiffTriangle<T>(a: set<T>, b: set<T>, c: set<T>)
    ensures Diff(a, c) <= Diff(a, b) + Diff(b, c)
  {
    var x := (a - b) + (b - a);
    var y := (b - c) + (c - b);
    SubsetSize((a - c) + (c - a), x + y);
    UnionBounds(x, y);
  }

  lemma SizeByDiff<T>(a: set<T>, b: set<T>)
    ensures |a| <= |b| + Diff(a, b)
  {
    DiffSize(a, b);
    UnionBounds(a, b);
  }

  /** Distance as a ratio that never divides by zero: 2D / (|a| + |b| + D). */
  lemma DistanceForm<T>(a: set<T>, b: set<T>)
    requires a != {} || b != {}
    ensures |a| + |b| + Diff(a, b) > 0
    ensures 1.0 - Jaccard(a, b) == Ratio(2 * Diff(a, b), |a| + |b| + Diff(a, b))
  {
    DiffSize(a, b);
    UnionBounds(a, b);
    UnionBounds(b, a);
    assert a + b == b + a;
    var u, i := |a + b|, |a * b|;
    assert Diff(a, b) == u - i && |a| + |b| + Diff(a, b) == 2 * u;
    assert 1.0 - Jaccard(a, b) == Ratio(u - i, u) by {
      if a == {} || b == {} {
        assert a * b == {};
        assert Ratio(u, u) == 1.0;
      } else {
        OneMinus(i, u);
      }
    }
    RatioScale(u - i, u);
  }

  ghost function Ratio(n: nat, d: nat): real
    requires d > 0
  {
    n as real / d as real
  }

  lemma RatioScale(n: nat, d: nat)
    requires d > 0
    ensures Ratio(2 * n, 2 * d) == Ratio(n, d)
  {
    var x, y := n as real, d as real;
    assert (2 * n) as real == 2.0 * x && (2 * d) as real == 2.0 * y;
    assert (2.0 * x) / (2.0 * y) == x / y;
  }

  lemma OneMinus(i: nat, u: nat)
    requires i <= u && u > 0
    ensures 1.0 - Ratio(i, u) == Ratio(u - i, u)
  {
    var x, y := i as real, u as real;
    assert (u - i) as real == y - x;
    assert y / y == 1.0;
    assert (y - x) / y == y / y - x / y;
  }

  lemma RatioAnti(n: nat, d: nat, d': nat)
    requires 0 < d <= d'
    ensures Ratio(n, d') <= Ratio(n, d)
  {
    var x, y, y' := n as real, d as real, d' as real;
    assert x * y <= x * y';
    assert x / y' <= x / y;
  }

  lemma RatioAdds(n: nat, m: nat, d: nat)
    requires d > 0
    ensures Ratio(n + m, d) == Ratio(n, d) + Ratio(m, d)
  {
  }

  /** t / (t + k) grows with t. */
  lemma RatioGrows(t: nat, s: nat, k: nat)
    requires t <= s && t + k > 0
    ensures Ratio(2 * t, k + t) <= Ratio(2 * s, k + s)
  {
    var a, b := (2 * t) as real, (k + t) as real;
    var c, d := (2 * s) as real, (k + s) as real;
    Cross(t, s, k);
    assert a * d <= c * b;
    assert a / b <= c / d by { CrossDivide(a, b, c, d); }
  }

  lemma Cross(t: nat, s: nat, k: nat)
    requires t <= s
    ensures (2 * t) as real * (k + s) as real <= (2 * s) as real * (k + t) as real
  {
    var x, y, z := t as real, s as real, k as real;
    assert x * z <= y * z;
    assert (2.0 * x) * (z + y) <= (2.0 * y) * (z + x);
  }

  lemma CrossDivide(a: real, b: real, c: real, d: real)
    requires b > 0.0 && d > 0.0 && a * d <= c * b
    ensures a / b <= c / d
  {
    var p, q, m := a / b, c / d, b * d;
    assert m > 0.0;
    assert p * m == a * d;
    assert q * m == c * b;
    assert p > q ==> p * m > q * m;
  }

  /** 1 - Jaccard obeys the triangle inequality, empty token sets included. */
  lemma JaccardTriangle<T>(a: set<T>, b: set<T>, c: set<T>)
    ensures 1.0 - Jaccard(a, c) <= (1.0 - Jaccard(a, b)) + (1.0 - Jaccard(b, c))
  {
    if a == b || b == c {
    } else if a == c {
    } else {
      DistanceForm(a, c);
      DistanceForm(a, b);
      DistanceForm(b, c);
      DiffTriangle(a, b, c);
      DiffSymmetric(a, b);
      SizeByDiff(b, c);
      SizeByDiff(b, a);
      MetricArithmetic(|a|, |b|, |c|, Diff(a, b), Diff(b, c), Diff(a, c));
    }
  }

  lemma DiffSymmetric<T>(a: set<T>, b: set<T>)
    ensures Diff(a, b) == Diff(b, a)
  {
    assert (a - b) + (b - a) == (b - a) + (a - b);
  }

  lemma MetricArithmetic(a: nat, b: nat, c: nat, x: nat, y: nat, z: nat)
    requires z <= x + y && b <= c + y && b <= a + x
    requires a + b + x > 0 && b + c + y > 0 && a + c + z > 0
    ensures Ratio(2 * z, a + c + z) <= Ratio(2 * x, a + b + x) + Ratio(2 * y, b + c + y)
  {
    var k := a + c;
    RatioGrows(z, x + y, k);
    RatioAdds(2 * x, 2 * y, k + x + y);
    RatioAnti(2 * x, a + b + x, k + x + y);
    RatioAnti(2 * y, b + c + y, k + x + y);
    assert 2 * (x + y) == 2 * x + 2 * y;
    assert k + (x + y) == k + x + y;
  }

  // ---- the greedy filter ----

  /** Whether some kept text is at or above the threshold of similarity to `text`. */
  predicate Near(tok: Tokenizer, text: string, kept: seq<string>, t: real) {
    exists k :: 0 <= k < |kept| && Similarity(tok, text, kept[k]) >= t
  }

  function Kept(tok: Tokenizer, texts: seq<string>, t: real): (kept: seq<nat>)
    ensures forall k :: 0 <= k < |kept| ==> kept[k] < |texts|
    ensures forall j, k :: 0 <= j < k < |kept| ==> kept[j] < kept[k]
  {
    if texts == [] then []
    else
      var n := |texts| - 1;
      var before := Kept(tok, texts[..n], t);
      if Near(tok, texts[n], Pick(texts[..n], before), t) then before else before + [n]
  }

  function Pick<T>(xs: seq<T>, at: seq<nat>): (r: seq<T>)
    requires forall k :: 0 <= k < |at| ==> at[k] < |xs|
    ensures |r| == |at| && forall k :: 0 <= k < |at| ==> r[k] == xs[at[k]]
  {
    seq(|at|, k requires 0 <= k < |at| => xs[at[k]])
  }

  method Diversify(tok: Tokenizer, texts: seq<string>, t: real) returns (kept: seq<nat>)
    ensures kept == Kept(tok, texts, t)
  {
    kept := [];
    var keptTexts: seq<string> := [];
    for i := 0 to |texts|
      invariant kept == Kept(tok, texts[..i], t)
      invariant keptTexts == Pick(texts[..i], kept)
    {
      assert texts[..i + 1][..i] == texts[..i];
      if !Near(tok, texts[i], keptTexts, t) {
        kept := kept + [i];
        keptTexts := keptTexts + [texts[i]];
      }
      assert keptTexts == Pick(texts[..i + 1], kept);
    }
    assert texts[..|texts|] == texts;
  }

  ghost predicate Apart(tok: Tokenizer, texts: seq<string>, t: real) {
    forall j, k :: 0 <= j < k < |texts| ==> Similarity(tok, texts[k], texts[j]) < t
  }

  /** Kept texts are pairwise below the threshold. */
  lemma {:induction false} KeptAreApart(tok: Tokenizer, texts: seq<string>, t: real)
    ensures Apart(tok, Pick(texts, Kept(tok, texts, t)), t)
  {
    if texts == [] {
    } else {
      var n := |texts| - 1;
      var before, kept := Kept(tok, texts[..n], t), Kept(tok, texts, t);
      KeptAreApart(tok, texts[..n], t);
      var picked := Pick(texts[..n], before);
      if kept == before {
        assert Pick(texts, kept) == picked;
      } else {
        assert Pick(texts, kept) == picked + [texts[n]];
        assert !Near(tok, texts[n], picked, t);
      }
    }
  }

  /** A dropped text has a kept, higher-ranked one at or above the threshold. */
  lemma {:induction false} DroppedIsCovered(tok: Tokenizer, texts: seq<string>, t: real, i: nat) returns (k: nat)
    requires i < |texts| && i !in Kept(tok, texts, t)
    ensures var kept := Kept(tok, texts, t);
            k < |kept| && kept[k] < i && Similarity(tok, texts[i], texts[kept[k]]) >= t
  {
    hide Similarity;
    var n := |texts| - 1;
    var before, kept := Kept(tok, texts[..n], t), Kept(tok, texts, t);
    if i < n {
      assert forall x :: x in before ==> x in kept;
      k := DroppedIsCovered(tok, texts[..n], t, i);
      assert kept[k] == before[k];
    } else {
      assert kept == before by {
        assert (before + [n])[|before|] == n;
      }
      var picked := Pick(texts[..n], before);
      k :| 0 <= k < |picked| && Similarity(tok, texts[n], picked[k]) >= t;
    }
  }

  lemma {:induction false} KeepsAllWhenApart(tok: Tokenizer, texts: seq<string>, t: real)
    requires Apart(tok, texts, t)
    ensures Kept(tok, texts, t) == seq(|texts|, i => i)
  {
    if texts == [] {
    } else {
      var n := |texts| - 1;
      KeepsAllWhenApart(tok, texts[..n], t);
      assert Pick(texts[..n], Kept(tok, texts[..n], t)) == texts[..n];
      assert !Near(tok, texts[n], texts[..n], t);
    }
  }

  /** Running the filter on what it kept keeps all of it. */
  lemma DiversifyIdempotent(tok: Tokenizer, texts: seq<string>, t: real)
    ensures var kept := Kept(tok, texts, t);
            Kept(tok, Pick(texts, kept), t) == seq(|kept|, i => i)
  {
    KeptAreApart(tok, texts, t);
    KeepsAllWhenApart(tok, Pick(texts, Kept(tok, texts, t)), t);
  }
}

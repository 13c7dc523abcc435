/** The two array helpers of the product service: the element-wise mean of
    keyword embeddings (`calculateAverage`) and the copy of a query vector into
    a list (`toFloatList`). Floats are modelled as reals. */
module VectorMath {

  /** Every vector is at least as long as the first one: exactly the inputs
      on which `calculateAverage` never indexes past the end of a vector. */
  predicate Conforming(vectors: seq<seq<real>>) {
    forall j :: 0 <= j < |vectors| ==> |vectors[0]| <= |vectors[j]|
  }

  /** All vectors have length `d`. */
  predicate Uniform(vectors: seq<seq<real>>, d: nat) {
    forall j :: 0 <= j < |vectors| ==> |vectors[j]| == d
  }

  /** Component `i` summed over the first `n` vectors. */
  function ColumnSum(vectors: seq<seq<real>>, i: nat, n: nat): real
    requires n <= |vectors|
    requires forall j :: 0 <= j < n ==> i < |vectors[j]|
  {
    if n == 0 then 0.0 else ColumnSum(vectors, i, n - 1) + vectors[n - 1][i]
  }

  /** The element-wise mean: as long as the first vector, component `i` being
      the sum of component `i` over all vectors divided by their number; the
      empty list of vectors has the length-0 vector as its mean. */
  function Mean(vectors: seq<seq<real>>): (r: seq<real>)
    requires Conforming(vectors)
    ensures |r| == if vectors == [] then 0 else |vectors[0]|
  {
    if vectors == [] then []
    else
      seq(|vectors[0]|, i requires 0 <= i < |vectors[0]| =>
        ColumnSum(vectors, i, |vectors|) / (|vectors| as real))
  }

  /** `calculateAverage`: sums into a fresh zeroed array vector by vector,
      then divides every component in place by the number of vectors. */
  method CalculateAverage(vectors: seq<seq<real>>) returns (avg: seq<real>)
    requires Conforming(vectors)
    ensures avg == Mean(vectors)
  {
    if |vectors| == 0 {
      return [];
    }
    var dimension := |vectors[0]|;
    var sum := new real[dimension](_ => 0.0);
    var j := 0;
    while j < |vectors|
      invariant 0 <= j <= |vectors|
      invariant forall c :: 0 <= c < dimension ==> sum[c] == ColumnSum(vectors, c, j)
    {
      var vector := vectors[j];
      var i := 0;
      while i < dimension
        invariant 0 <= i <= dimension
        invariant forall c :: 0 <= c < i ==> sum[c] == ColumnSum(vectors, c, j + 1)
        invariant forall c :: i <= c < dimension ==> sum[c] == ColumnSum(vectors, c, j)
      {
        sum[i] := sum[i] + vector[i];
        i := i + 1;
      }
      j := j + 1;
    }
    var i := 0;
    while i < dimension
      invariant 0 <= i <= dimension
      invariant forall c :: 0 <= c < i ==> sum[c] == ColumnSum(vectors, c, |vectors|) / (|vectors| as real)
      invariant forall c :: i <= c < dimension ==> sum[c] == ColumnSum(vectors, c, |vectors|)
    {
      sum[i] := sum[i] / (|vectors| as real);
      i := i + 1;
    }
    avg := sum[..];
  }

  /** `toFloatList`: a list of the same length holding `array[i]` at `i`. */
  method ToFloatList(a: array<real>) returns (list: seq<real>)
    ensures |list| == a.Length
    ensures forall i :: 0 <= i < a.Length ==> list[i] == a[i]
  {
    list := [];
    var i := 0;
    while i < a.Length
      invariant 0 <= i <= a.Length
      invariant list == a[..i]
    {
      list := list + [a[i]];
      i := i + 1;
    }
  }

  // ---------------------------------------------------------------------
  // Properties of the mean

  lemma {:induction false} ColumnSumOfCopies(vectors: seq<seq<real>>, v: seq<real>, i: nat, n: nat)
    requires n <= |vectors| && i < |v|
    requires forall j :: 0 <= j < |vectors| ==> vectors[j] == v
    ensures ColumnSum(vectors, i, n) == (n as real) * v[i]
  {
    if n > 0 {
      ColumnSumOfCopies(vectors, v, i, n - 1);
    }
  }

  /** The mean of any positive number of copies of one vector is that vector;
      in particular one input vector is returned unchanged. */
  lemma MeanOfCopies(v: seq<real>, n: nat)
    requires n > 0
    ensures Conforming(seq(n, _ => v))
    ensures Mean(seq(n, _ => v)) == v
  {
    var vectors := seq(n, _ => v);
    forall i | 0 <= i < |v|
      ensures Mean(vectors)[i] == v[i]
    {
      ColumnSumOfCopies(vectors, v, i, n);
    }
  }

  lemma MeanOfOne(v: seq<real>)
    ensures Conforming([v]) && Mean([v]) == v
  {
    assert [v] == seq(1, _ => v);
    MeanOfCopies(v, 1);
  }

  /** Summing a concatenation is summing the parts. */
  lemma {:induction false} ColumnSumAppend(a: seq<seq<real>>, b: seq<seq<real>>, i: nat)
    requires forall j :: 0 <= j < |a| ==> i < |a[j]|
    requires forall j :: 0 <= j < |b| ==> i < |b[j]|
    ensures ColumnSum(a + b, i, |a| + |b|) == ColumnSum(a, i, |a|) + ColumnSum(b, i, |b|)
  {
    if |b| > 0 {
      var b' := b[..|b| - 1];
      assert (a + b)[..|a| + |b| - 1] == a + b';
      ColumnSumPrefix(a + b, i, |a| + |b| - 1, |a| + |b| - 1);
      ColumnSumAppend(a, b', i);
      ColumnSumPrefix(b, i, |b| - 1, |b| - 1);
    } else {
      assert a + b == a;
    }
  }

  /** The sum over the first `n` vectors only looks at those vectors. */
  lemma {:induction false} ColumnSumPrefix(vectors: seq<seq<real>>, i: nat, n: nat, m: nat)
    requires n <= m <= |vectors|
    requires forall j :: 0 <= j < n ==> i < |vectors[j]|
    ensures ColumnSum(vectors, i, n) == ColumnSum(vectors[..m], i, n)
  {
    if n > 0 {
      ColumnSumPrefix(vectors, i, n - 1, m);
    }
  }

  /** Taking one vector out of the list takes its component out of the sum. */
  lemma ColumnSumRemoveAt(b: seq<seq<real>>, p: nat, i: nat)
    requires p < |b|
    requires forall j :: 0 <= j < |b| ==> i < |b[j]|
    ensures ColumnSum(b, i, |b|) == ColumnSum(b[..p] + b[p + 1..], i, |b| - 1) + b[p][i]
  {
    var left, right := b[..p], b[p + 1..];
    assert b == (left + [b[p]]) + right;
    ColumnSumAppend(left, [b[p]], i);
    ColumnSumAppend(left + [b[p]], right, i);
    ColumnSumAppend(left, right, i);
  }

  /** Removing an element at `p` removes one occurrence of it. */
  lemma MultisetRemoveAt<T>(b: seq<T>, p: nat)
    requires p < |b|
    ensures multiset(b[..p] + b[p + 1..]) == multiset(b) - multiset{b[p]}
  {
    assert b == b[..p] + [b[p]] + b[p + 1..];
  }

  /** Column sums do not depend on the order of the vectors. */
  lemma {:induction false} ColumnSumPermutation(a: seq<seq<real>>, b: seq<seq<real>>, i: nat)
    requires multiset(a) == multiset(b)
    requires forall j :: 0 <= j < |a| ==> i < |a[j]|
    ensures |a| == |b| && forall j :: 0 <= j < |b| ==> i < |b[j]|
    ensures ColumnSum(a, i, |a|) == ColumnSum(b, i, |b|)
  {
    assert |a| == |multiset(a)| == |multiset(b)| == |b|;
    forall j | 0 <= j < |b| ensures i < |b[j]| {
      assert b[j] in multiset(b);
      var k :| 0 <= k < |a| && a[k] == b[j];
    }
    if |a| > 0 {
      var n := |a| - 1;
      var last := a[n];
      assert last in multiset(b);
      var p :| 0 <= p < |b| && b[p] == last;
      var b' := b[..p] + b[p + 1..];
      MultisetRemoveAt(a, n);
      MultisetRemoveAt(b, p);
      assert a[..n] + a[n + 1..] == a[..n];
      ColumnSumPermutation(a[..n], b', i);
      ColumnSumPrefix(a, i, n, n);
      ColumnSumRemoveAt(b, p, i);
    }
  }

  /** The mean of equally long vectors is invariant under any reordering of
      them, so the embedding of a keyword list does not depend on its order. */
  lemma MeanPermutation(a: seq<seq<real>>, b: seq<seq<real>>, d: nat)
    requires Uniform(a, d) && multiset(a) == multiset(b)
    ensures Conforming(a) && Conforming(b)
    ensures Mean(a) == Mean(b)
  {
    forall j | 0 <= j < |b| ensures |b[j]| == d {
      assert b[j] in multiset(a);
    }
    assert |a| == |multiset(a)| == |multiset(b)| == |b|;
    if |a| > 0 {
      forall i | 0 <= i < d ensures Mean(a)[i] == Mean(b)[i] {
        ColumnSumPermutation(a, b, i);
      }
    }
  }
}

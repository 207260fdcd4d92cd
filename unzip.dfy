/** `UnzipN::unzip_n_vec`: split a sequence of 5-tuples into five sequences. */
module Unzip {

  /** The five component sequences of `xs`, as a function. */
  function Unzip5<A, B, C, D, E>(xs: seq<(A, B, C, D, E)>): (r: (seq<A>, seq<B>, seq<C>, seq<D>, seq<E>))
    ensures |r.0| == |xs| && |r.1| == |xs| && |r.2| == |xs| && |r.3| == |xs| && |r.4| == |xs|
    ensures forall i :: 0 <= i < |xs| ==>
      r.0[i] == xs[i].0 && r.1[i] == xs[i].1 && r.2[i] == xs[i].2 && r.3[i] == xs[i].3 && r.4[i] == xs[i].4
    decreases |xs|
  {
    if xs == [] then ([], [], [], [], [])
    else
      var rest := Unzip5(xs[..|xs| - 1]);
      var x := xs[|xs| - 1];
      (rest.0 + [x.0], rest.1 + [x.1], rest.2 + [x.2], rest.3 + [x.3], rest.4 + [x.4])
  }

  /** Pairs five equally long sequences back into 5-tuples. */
  function Zip5<A, B, C, D, E>(a: seq<A>, b: seq<B>, c: seq<C>, d: seq<D>, e: seq<E>): seq<(A, B, C, D, E)>
    requires |a| == |b| == |c| == |d| == |e|
  {
    seq(|a|, i requires 0 <= i < |a| => (a[i], b[i], c[i], d[i], e[i]))
  }

  /** Unzipping loses nothing: zipping the five sequences again gives back the input. */
  lemma ZipUnzip<A, B, C, D, E>(xs: seq<(A, B, C, D, E)>)
    ensures var r := Unzip5(xs); Zip5(r.0, r.1, r.2, r.3, r.4) == xs
  {
  }

  /** The loop of `unzip_n_vec`: each component of each tuple is pushed onto its own vector. */
  method UnzipNVec<A, B, C, D, E>(xs: seq<(A, B, C, D, E)>)
    returns (t1: seq<A>, t2: seq<B>, t3: seq<C>, t4: seq<D>, t5: seq<E>)
    ensures |t1| == |xs| && |t2| == |xs| && |t3| == |xs| && |t4| == |xs| && |t5| == |xs|
    ensures forall i :: 0 <= i < |xs| ==>
      t1[i] == xs[i].0 && t2[i] == xs[i].1 && t3[i] == xs[i].2 && t4[i] == xs[i].3 && t5[i] == xs[i].4
    ensures (t1, t2, t3, t4, t5) == Unzip5(xs)
  {
    t1, t2, t3, t4, t5 := [], [], [], [], [];
    for k := 0 to |xs|
      invariant |t1| == k && |t2| == k && |t3| == k && |t4| == k && |t5| == k
      invariant forall i :: 0 <= i < k ==>
        t1[i] == xs[i].0 && t2[i] == xs[i].1 && t3[i] == xs[i].2 && t4[i] == xs[i].3 && t5[i] == xs[i].4
    {
      var (x1, x2, x3, x4, x5) := xs[k];
      t1 := t1 + [x1];
      t2 := t2 + [x2];
      t3 := t3 + [x3];
      t4 := t4 + [x4];
      t5 := t5 + [x5];
    }
    var r := Unzip5(xs);
    assert t1 == r.0 && t2 == r.1 && t3 == r.2 && t4 == r.3 && t5 == r.4;
  }
}

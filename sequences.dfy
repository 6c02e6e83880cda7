// Facts about the values a scan meets, one per input line or row: the
// first and the last value present, the set of values present, and the
// positions of the lines that yield something.

module Sequences {
  import opened Domain

  /** `c` is the first value present in `xs`, and None when there is none. */
  ghost predicate FirstIn(xs: seq<Option<string>>, c: Option<string>) {
    && (c.None? <==> forall k :: 0 <= k < |xs| ==> xs[k].None?)
    && (c.Some? ==>
          exists k :: 0 <= k < |xs| && xs[k] == c && forall j :: 0 <= j < k ==> xs[j].None?)
  }

  /** `e` is the last value present in `xs`, and None when there is none. */
  ghost predicate LastIn(xs: seq<Option<string>>, e: Option<string>) {
    && (e.None? <==> forall k :: 0 <= k < |xs| ==> xs[k].None?)
    && (e.Some? ==>
          exists k :: 0 <= k < |xs| && xs[k] == e && forall j :: k < j < |xs| ==> xs[j].None?)
  }

  /** The values present in `xs`. */
  ghost function Present(xs: seq<Option<string>>): set<string> {
    set k | 0 <= k < |xs| && xs[k].Some? :: xs[k].value
  }

  lemma FirstInStep(xs: seq<Option<string>>, x: Option<string>, c: Option<string>)
    requires FirstIn(xs, c)
    ensures FirstIn(xs + [x], if c.Some? then c else x)
  {
    var ys := xs + [x];
    if c.Some? {
      var k :| 0 <= k < |xs| && xs[k] == c && forall j :: 0 <= j < k ==> xs[j].None?;
      assert ys[k] == c && forall j :: 0 <= j < k ==> ys[j].None?;
    } else {
      assert forall k :: 0 <= k < |xs| ==> ys[k].None?;
      if x.Some? {
        assert ys[|xs|] == x;
      }
    }
  }

  lemma LastInStep(xs: seq<Option<string>>, x: Option<string>, e: Option<string>)
    requires LastIn(xs, e)
    ensures LastIn(xs + [x], if x.Some? then x else e)
  {
    var ys := xs + [x];
    if x.Some? {
      assert ys[|xs|] == x;
    } else if e.Some? {
      var k :| 0 <= k < |xs| && xs[k] == e && forall j :: k < j < |xs| ==> xs[j].None?;
      assert ys[k] == e && forall j :: k < j < |ys| ==> ys[j].None?;
    } else {
      assert forall k :: 0 <= k < |ys| ==> ys[k].None?;
    }
  }

  lemma PresentStep(xs: seq<Option<string>>, x: Option<string>)
    ensures Present(xs + [x]) == Present(xs) + (if x.Some? then {x.value} else {})
  {
    var ys := xs + [x];
    assert forall k :: 0 <= k < |xs| ==> ys[k] == xs[k];
    assert ys[|xs|] == x;
  }

  /** What `f` gives for each of the first `n` lines, in order. */
  ghost function Each<S, T>(f: S -> T, lines: seq<S>, n: nat): (xs: seq<T>)
    requires n <= |lines|
    ensures |xs| == n
  {
    if n == 0 then [] else Each(f, lines, n - 1) + [f(lines[n - 1])]
  }

  lemma {:induction false} EachAt<S, T>(f: S -> T, lines: seq<S>, n: nat, k: nat)
    requires k < n <= |lines|
    ensures Each(f, lines, n)[k] == f(lines[k])
  {
    if k < n - 1 {
      EachAt(f, lines, n - 1, k);
    }
  }

  /** The positions of `fs` that hold true, in order. */
  function Indices(fs: seq<bool>): (ks: seq<nat>)
    ensures forall i :: 0 <= i < |ks| ==> ks[i] < |fs|
  {
    if fs == [] then []
    else Indices(fs[..|fs| - 1]) + (if fs[|fs| - 1] then [|fs| - 1] else [])
  }

  /** Indices lists the true positions, each once, in increasing order. */
  lemma {:induction false} IndicesExact(fs: seq<bool>)
    ensures var ks := Indices(fs);
      && (forall i, j :: 0 <= i < j < |ks| ==> ks[i] < ks[j])
      && (forall k :: 0 <= k < |fs| ==> (k in ks <==> fs[k]))
  {
    if fs != [] {
      var init := fs[..|fs| - 1];
      IndicesExact(init);
      assert forall k :: 0 <= k < |init| ==> init[k] == fs[k];
    }
  }

  /** `xs` holds, in order, what `f` gives at the true positions of `fs`
      (CollectsIndices states this with Indices). */
  ghost predicate Collects<T>(fs: seq<bool>, xs: seq<T>, f: nat -> Option<T>)
    decreases |fs|
  {
    if fs == [] then xs == []
    else if fs[|fs| - 1] then
      xs != [] && f(|fs| - 1) == Some(xs[|xs| - 1]) && Collects(fs[..|fs| - 1], xs[..|xs| - 1], f)
    else Collects(fs[..|fs| - 1], xs, f)
  }

  /** A scan that adds `f`'s value at a true position, and nothing at a
      false one, keeps collecting. */
  lemma CollectsStep<T>(fs: seq<bool>, xs: seq<T>, f: nat -> Option<T>, b: bool)
    requires Collects(fs, xs, f)
    requires b ==> f(|fs|).Some?
    ensures Collects(fs + [b], if b then xs + [f(|fs|).value] else xs, f)
  {
    var gs := fs + [b];
    assert gs[..|gs| - 1] == fs;
    if b {
      assert (xs + [f(|fs|).value])[..|xs|] == xs;
    }
  }

  /** Collecting means: one item per true position of `fs`, the i-th being
      what `f` gives at the i-th of them. */
  lemma {:induction false} CollectsIndices<T>(fs: seq<bool>, xs: seq<T>, f: nat -> Option<T>)
    ensures Collects(fs, xs, f) <==>
      (var ks := Indices(fs); |ks| == |xs| && forall i :: 0 <= i < |ks| ==> f(ks[i]) == Some(xs[i]))
  {
    if fs != [] {
      var init := fs[..|fs| - 1];
      var ks := Indices(fs);
      var ks0 := Indices(init);
      if fs[|fs| - 1] {
        assert ks == ks0 + [|fs| - 1];
        if xs != [] {
          var ys := xs[..|xs| - 1];
          CollectsIndices(init, ys, f);
          assert xs == ys + [xs[|xs| - 1]];
        }
      } else {
        assert ks == ks0;
        CollectsIndices(init, xs, f);
      }
    }
  }
}

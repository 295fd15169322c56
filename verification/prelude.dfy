/** Small failure-compatible wrappers and sequence helpers shared by every module. */
module Prelude {

  /** A value that may be missing (a JavaScript `null`/`undefined`). */
  datatype Option<+T> = None | Some(value: T)

  /** The outcome of an operation that may throw. */
  datatype Result<+T, +E> = Success(value: T) | Failure(error: E)

  function Min(a: int, b: int): int { if a <= b then a else b }

  function Max(a: int, b: int): int { if a >= b then a else b }

  /** Concatenation of a sequence of sequences, peeled from the end so that
      appending one more piece in a loop is a definitional step. */
  function Flatten<T>(xss: seq<seq<T>>): seq<T>
  {
    if |xss| == 0 then [] else Flatten(xss[..|xss| - 1]) + xss[|xss| - 1]
  }

  lemma FlattenAppend<T>(xss: seq<seq<T>>, ys: seq<T>)
    ensures Flatten(xss + [ys]) == Flatten(xss) + ys
  {
    assert (xss + [ys])[..|xss|] == xss;
  }

  /** Number of `true` entries, peeled from the end. */
  function CountTrue(bs: seq<bool>): nat
  {
    if |bs| == 0 then 0
    else CountTrue(bs[..|bs| - 1]) + (if bs[|bs| - 1] then 1 else 0)
  }

  lemma CountTrueAppend(bs: seq<bool>, b: bool)
    ensures CountTrue(bs + [b]) == CountTrue(bs) + (if b then 1 else 0)
  {
    assert (bs + [b])[..|bs|] == bs;
  }

  /** `CountTrue` is the multiplicity of `true`: it does not depend on order. */
  lemma {:induction false} CountTrueIsMultiplicity(bs: seq<bool>)
    ensures CountTrue(bs) == multiset(bs)[true]
  {
    if |bs| > 0 {
      var init := bs[..|bs| - 1];
      CountTrueIsMultiplicity(init);
      assert bs == init + [bs[|bs| - 1]];
      assert multiset(bs) == multiset(init) + multiset{bs[|bs| - 1]};
    }
  }

  /** The entries of `xs` whose flag in `keep` is set, in their original order. */
  function Select<T>(xs: seq<T>, keep: seq<bool>): seq<T>
    requires |xs| == |keep|
  {
    if |xs| == 0 then []
    else
      Select(xs[..|xs| - 1], keep[..|keep| - 1])
      + (if keep[|keep| - 1] then [xs[|xs| - 1]] else [])
  }

  lemma SelectAppend<T>(xs: seq<T>, keep: seq<bool>, x: T, k: bool)
    requires |xs| == |keep|
    ensures Select(xs + [x], keep + [k]) == Select(xs, keep) + (if k then [x] else [])
  {
    assert (xs + [x])[..|xs|] == xs;
    assert (keep + [k])[..|keep|] == keep;
  }

  /** A non-empty sequence is its head followed by its tail. */
  lemma HeadTail<T>(s: seq<T>)
    requires |s| > 0
    ensures [s[0]] + s[1..] == s
  {
  }

  /** `Select` of a sequence with a first entry added. */
  lemma SelectCons<T>(x: T, k: bool, xs: seq<T>, keep: seq<bool>)
    requires |xs| == |keep|
    ensures Select([x] + xs, [k] + keep) == (if k then [x] else []) + Select(xs, keep)
  {
    SelectConcat([x], [k], xs, keep);
    SelectAppend([], [], x, k);
    assert [] + [x] == [x] && [] + [k] == [k];
  }

  /** `Select` keeps exactly as many entries as there are set flags, and only
      entries of the input. */
  lemma {:induction false} SelectConcat<T>(xs: seq<T>, keep: seq<bool>, ys: seq<T>, keep2: seq<bool>)
    requires |xs| == |keep| && |ys| == |keep2|
    ensures Select(xs + ys, keep + keep2) == Select(xs, keep) + Select(ys, keep2)
    decreases |ys|
  {
    if |ys| == 0 {
      assert xs + ys == xs && keep + keep2 == keep;
    } else {
      var ys', keep2' := ys[..|ys| - 1], keep2[..|keep2| - 1];
      SelectConcat(xs, keep, ys', keep2');
      assert xs + ys == (xs + ys') + [ys[|ys| - 1]];
      assert keep + keep2 == (keep + keep2') + [keep2[|keep2| - 1]];
      assert ys == ys' + [ys[|ys| - 1]] && keep2 == keep2' + [keep2[|keep2| - 1]];
      SelectAppend(xs + ys', keep + keep2', ys[|ys| - 1], keep2[|keep2| - 1]);
      SelectAppend(ys', keep2', ys[|ys| - 1], keep2[|keep2| - 1]);
    }
  }

  lemma {:induction false} SelectCount<T>(xs: seq<T>, keep: seq<bool>)
    requires |xs| == |keep|
    ensures |Select(xs, keep)| == CountTrue(keep)
    ensures forall y :: y in Select(xs, keep) ==> y in xs
  {
    if |xs| > 0 {
      SelectCount(xs[..|xs| - 1], keep[..|keep| - 1]);
    }
  }

  /** Whether no value occurs twice. */
  predicate Distinct<T(==)>(xs: seq<T>)
  {
    forall i, j :: 0 <= i < j < |xs| ==> xs[i] != xs[j]
  }

  lemma AppendAssoc<T>(a: seq<T>, b: seq<T>, c: seq<T>)
    ensures (a + b) + c == a + (b + c)
  {
  }

  lemma PrefixExtend<T>(s: seq<T>, i: nat, hi: nat)
    requires i <= hi <= |s|
    ensures s[..hi] == s[..i] + s[i..hi]
  {
  }

  /** A slice of a sequence without repetitions has none either. */
  lemma DistinctSlice<T>(xs: seq<T>, lo: nat, hi: nat)
    requires Distinct(xs) && lo <= hi <= |xs|
    ensures Distinct(xs[lo..hi])
  {
    var s := xs[lo..hi];
    forall a, b | 0 <= a < b < |s| ensures s[a] != s[b] {
      assert s[a] == xs[lo + a] && s[b] == xs[lo + b];
    }
  }

  /** `xs` is an initial segment of `ys`. */
  predicate IsPrefix<T(==)>(xs: seq<T>, ys: seq<T>)
  {
    |xs| <= |ys| && ys[..|xs|] == xs
  }
}

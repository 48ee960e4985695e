/** List helpers with the semantics of the Python list operations the scripts use. */
module Sequences {

  /** `[x for x in xs if keep(x)]`. */
  function Filter<T>(xs: seq<T>, keep: T -> bool): (r: seq<T>)
    ensures |r| <= |xs|
    ensures forall k :: 0 <= k < |r| ==> r[k] in xs && keep(r[k])
    ensures forall k :: 0 <= k < |xs| && keep(xs[k]) ==> xs[k] in r
  {
    if xs == [] then []
    else (if keep(xs[0]) then [xs[0]] else []) + Filter(xs[1..], keep)
  }

  /** Filtering keeps the original order: it distributes over concatenation. */
  lemma {:induction false} FilterAppend<T>(a: seq<T>, b: seq<T>, keep: T -> bool)
    ensures Filter(a + b, keep) == Filter(a, keep) + Filter(b, keep)
  {
    if a == [] {
      assert a + b == b;
    } else {
      assert (a + b)[0] == a[0];
      assert (a + b)[1..] == a[1..] + b;
      FilterAppend(a[1..], b, keep);
    }
  }

  /** `[f(x) for x in xs]`. */
  function Map<T, U>(xs: seq<T>, f: T -> U): (ys: seq<U>)
    ensures |ys| == |xs|
    ensures forall k :: 0 <= k < |xs| ==> ys[k] == f(xs[k])
  {
    seq(|xs|, k requires 0 <= k < |xs| => f(xs[k]))
  }

  /** Mapping the first `i + 1` elements extends the mapping of the first `i`. */
  lemma MapSnoc<T, U>(xs: seq<T>, f: T -> U, i: int)
    requires 0 <= i < |xs|
    ensures Map(xs[..i + 1], f) == Map(xs[..i], f) + [f(xs[i])]
  {
    assert Map(xs[..i + 1], f)[i] == f(xs[i]);
  }

  /** The `for x in xs: out.append(f(x))` loop. */
  method AppendEach<T, U>(xs: seq<T>, f: T -> U) returns (ys: seq<U>)
    ensures ys == Map(xs, f)
  {
    ys := [];
    for i := 0 to |xs|
      invariant ys == Map(xs[..i], f)
    {
      MapSnoc(xs, f, i);
      ys := ys + [f(xs[i])];
    }
    assert xs[..|xs|] == xs;
  }

  /** `xs[:n]`: the first `n` elements, or all of them when there are fewer. */
  function Take<T>(xs: seq<T>, n: nat): (r: seq<T>)
    ensures |r| == if n < |xs| then n else |xs|
    ensures r <= xs
  {
    xs[..if n < |xs| then n else |xs|]
  }

  /** The concatenation of the lists, in order (`extend` applied to each in turn). */
  function Flatten<T>(xss: seq<seq<T>>): seq<T> {
    if xss == [] then [] else Flatten(xss[..|xss| - 1]) + xss[|xss| - 1]
  }

  /** Extending by list `i` appends it to the concatenation of the lists before it. */
  lemma FlattenSnoc<T>(xss: seq<seq<T>>, i: int)
    requires 0 <= i < |xss|
    ensures Flatten(xss[..i + 1]) == Flatten(xss[..i]) + xss[i]
  {
    assert xss[..i + 1][..i] == xss[..i];
  }

  /** The sum of the lengths of the lists. */
  function SumLengths<T>(xss: seq<seq<T>>): nat {
    if xss == [] then 0 else SumLengths(xss[..|xss| - 1]) + |xss[|xss| - 1]|
  }

  /** The concatenation is as long as all the lists together. */
  lemma {:induction false} FlattenLength<T>(xss: seq<seq<T>>)
    ensures |Flatten(xss)| == SumLengths(xss)
  {
    if xss != [] {
      FlattenLength(xss[..|xss| - 1]);
    }
  }

  /** How many elements of `xs` equal `y`. */
  function Occurrences<T(==)>(xs: seq<T>, y: T): nat {
    if xs == [] then 0
    else Occurrences(xs[..|xs| - 1], y) + (if xs[|xs| - 1] == y then 1 else 0)
  }

  /** A value that does not occur is counted zero times. */
  lemma {:induction false} OccurrencesAbsent<T>(xs: seq<T>, y: T)
    requires y !in xs
    ensures Occurrences(xs, y) == 0
  {
    if xs != [] {
      assert forall z :: z in xs[..|xs| - 1] ==> z in xs;
      OccurrencesAbsent(xs[..|xs| - 1], y);
    }
  }

  /** One more element adds one to its own count and leaves every other count alone. */
  lemma OccurrencesSnoc<T>(xs: seq<T>, x: T, y: T)
    ensures Occurrences(xs + [x], y) == Occurrences(xs, y) + (if x == y then 1 else 0)
  {
    assert (xs + [x])[..|xs|] == xs;
  }

  predicate NoDuplicates<T(==)>(xs: seq<T>) {
    forall i, j :: 0 <= i < j < |xs| ==> xs[i] != xs[j]
  }

  /** `xs.index(y)`: where `y` first occurs in `xs`. */
  function FirstIndex<T(==)>(xs: seq<T>, y: T): (n: nat)
    requires y in xs
    ensures n < |xs| && xs[n] == y
    ensures y !in xs[..n]
  {
    var init := xs[..|xs| - 1];
    if y in init then
      var n := FirstIndex(init, y);
      assert xs[..n] == init[..n];
      n
    else
      assert xs[..|xs| - 1] == init;
      |xs| - 1
  }

  /**
   * The distinct elements of `xs` in order of first occurrence: the key
   * order of a Python dict filled by walking `xs`.
   */
  function Distinct<T(==)>(xs: seq<T>): (r: seq<T>)
    ensures forall k :: 0 <= k < |r| ==> r[k] in xs
    ensures forall k :: 0 <= k < |xs| ==> xs[k] in r
    ensures NoDuplicates(r)
  {
    if xs == [] then []
    else
      var d := Distinct(xs[..|xs| - 1]);
      assert xs == xs[..|xs| - 1] + [xs[|xs| - 1]];
      if xs[|xs| - 1] in d then d else d + [xs[|xs| - 1]]
  }

  /** One more element extends the distinct elements by itself exactly when it is new. */
  lemma DistinctSnoc<T>(xs: seq<T>, x: T)
    ensures Distinct(xs + [x]) == if x in Distinct(xs) then Distinct(xs) else Distinct(xs) + [x]
  {
    assert (xs + [x])[..|xs|] == xs;
  }

  /** The distinct elements come in the order of their first occurrences in `xs`. */
  lemma {:induction false} DistinctInOrder<T>(xs: seq<T>)
    ensures forall i, j :: 0 <= i < j < |Distinct(xs)| ==> FirstIndex(xs, Distinct(xs)[i]) < FirstIndex(xs, Distinct(xs)[j])
  {
    if xs != [] {
      var p, x := xs[..|xs| - 1], xs[|xs| - 1];
      var d := Distinct(p);
      DistinctInOrder(p);
      forall y | y in d
        ensures FirstIndex(xs, y) == FirstIndex(p, y) < |p|
      {
      }
      if x !in d {
        assert x !in p;
        assert FirstIndex(xs, x) == |p|;
      }
    }
  }

  /** The sum, over the keys, of how often each key occurs in `xs`. */
  function SumOccurrences<T(==)>(keys: seq<T>, xs: seq<T>): nat {
    if keys == [] then 0 else Occurrences(xs, keys[0]) + SumOccurrences(keys[1..], xs)
  }

  /** Appending one element to `xs` adds one to the sum exactly when its value is a key. */
  lemma {:induction false} SumOccurrencesSnoc<T>(keys: seq<T>, xs: seq<T>, x: T)
    requires NoDuplicates(keys)
    ensures SumOccurrences(keys, xs + [x]) == SumOccurrences(keys, xs) + (if x in keys then 1 else 0)
  {
    if keys != [] {
      assert (xs + [x])[..|xs|] == xs;
      assert NoDuplicates(keys[1..]);
      SumOccurrencesSnoc(keys[1..], xs, x);
      if keys[0] == x {
        assert x !in keys[1..];
      }
    }
  }

  /** Appending one key adds that key's count to the sum. */
  lemma {:induction false} SumOccurrencesAppendKey<T>(keys: seq<T>, k: T, xs: seq<T>)
    ensures SumOccurrences(keys + [k], xs) == SumOccurrences(keys, xs) + Occurrences(xs, k)
  {
    if keys == [] {
      assert keys + [k] == [k];
    } else {
      assert (keys + [k])[1..] == keys[1..] + [k];
      SumOccurrencesAppendKey(keys[1..], k, xs);
    }
  }

  /** The counts of the distinct values of `xs` add up to the length of `xs`. */
  lemma {:induction false} CountsSumToLength<T>(xs: seq<T>)
    ensures SumOccurrences(Distinct(xs), xs) == |xs|
  {
    if xs != [] {
      var p, x := xs[..|xs| - 1], xs[|xs| - 1];
      assert xs == p + [x];
      var d := Distinct(p);
      CountsSumToLength(p);
      SumOccurrencesSnoc(d, p, x);
      if x !in d {
        SumOccurrencesAppendKey(d, x, xs);
        OccurrencesAbsent(p, x);
      }
    }
  }
}

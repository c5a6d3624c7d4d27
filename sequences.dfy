/** Generic facts about sequences: keeping the first occurrence of each
    element (the "append if not already in the list" idiom of the scripts) and
    flattening a sequence of sequences. */
module Sequences {

  predicate NoDup<T(==,!new)>(s: seq<T>) {
    forall i, j :: 0 <= i < j < |s| ==> s[i] != s[j]
  }

  /** The elements of `s` in order of first occurrence, each once: what a loop
      produces that appends `x` to a list only when `x` is not in it yet. */
  function Dedup<T(==,!new)>(s: seq<T>): (r: seq<T>)
    ensures NoDup(r)
    ensures forall x :: x in r <==> x in s
  {
    if s == [] then []
    else
      var p := Dedup(s[..|s| - 1]);
      assert forall x :: x in s <==> x in s[..|s| - 1] || x == s[|s| - 1];
      if s[|s| - 1] in p then p else p + [s[|s| - 1]]
  }

  /** Position of the first occurrence of `x` in `s`. */
  function FirstIndex<T(==,!new)>(s: seq<T>, x: T): (i: nat)
    requires x in s
    ensures i < |s| && s[i] == x && x !in s[..i]
  {
    if s[0] == x then 0 else 1 + FirstIndex(s[1..], x)
  }

  lemma {:induction false} FirstIndexAppend<T(!new)>(s: seq<T>, y: T, x: T)
    requires x in s
    ensures FirstIndex(s + [y], x) == FirstIndex(s, x)
  {
    if s[0] != x {
      assert (s + [y])[1..] == s[1..] + [y];
      FirstIndexAppend(s[1..], y, x);
    }
  }

  /** Dedup lists elements in the order of their first occurrence in `s`. */
  lemma {:induction false} DedupOrder<T(!new)>(s: seq<T>)
    ensures forall i, j :: 0 <= i < j < |Dedup(s)| ==>
      FirstIndex(s, Dedup(s)[i]) < FirstIndex(s, Dedup(s)[j])
  {
    if s != [] {
      var t, y := s[..|s| - 1], s[|s| - 1];
      assert s == t + [y];
      DedupOrder(t);
      var p := Dedup(t);
      forall x | x in p ensures FirstIndex(s, x) == FirstIndex(t, x) < |t| {
        FirstIndexAppend(t, y, x);
      }
      if y !in p {
        assert y !in t;
        assert FirstIndex(s, y) == |t|;
      }
    }
  }

  /** One step of the "append if new" loop. */
  lemma DedupSnoc<T(!new)>(t: seq<T>, y: T)
    ensures Dedup(t + [y]) == if y in Dedup(t) then Dedup(t) else Dedup(t) + [y]
  {
    assert (t + [y])[..|t|] == t;
  }

  /** Dedup of an input that is already free of duplicates is that input. */
  lemma {:induction false} DedupOfNoDup<T(!new)>(s: seq<T>)
    requires NoDup(s)
    ensures Dedup(s) == s
  {
    if s != [] {
      var t := s[..|s| - 1];
      assert NoDup(t);
      DedupOfNoDup(t);
      assert s[|s| - 1] !in t;
      assert s == t + [s[|s| - 1]];
    }
  }

  /** The concatenation of the sequences of `ss`, in order. */
  function Flatten<T>(ss: seq<seq<T>>): seq<T>
  {
    if ss == [] then [] else ss[0] + Flatten(ss[1..])
  }

  lemma {:induction false} FlattenAppend<T>(ss: seq<seq<T>>, s: seq<T>)
    ensures Flatten(ss + [s]) == Flatten(ss) + s
  {
    if ss != [] {
      assert (ss + [s])[1..] == ss[1..] + [s];
      FlattenAppend(ss[1..], s);
    }
  }

  /** Concatenates the blocks `f` makes of the elements of `xs`, in order. */
  function FlatMap<T, U>(xs: seq<T>, f: T -> seq<U>): seq<U>
  {
    if xs == [] then [] else f(xs[0]) + FlatMap(xs[1..], f)
  }

  lemma {:induction false} FlatMapAppend<T, U>(xs: seq<T>, x: T, f: T -> seq<U>)
    ensures FlatMap(xs + [x], f) == FlatMap(xs, f) + f(x)
  {
    if xs != [] {
      assert (xs + [x])[1..] == xs[1..] + [x];
      FlatMapAppend(xs[1..], x, f);
    }
  }

  /** When every block has `k` elements the result has `k` per element. */
  lemma {:induction false} FlatMapLength<T, U>(xs: seq<T>, f: T -> seq<U>, k: nat)
    requires forall x :: |f(x)| == k
    ensures |FlatMap(xs, f)| == k * |xs|
  {
    if xs != [] {
      FlatMapLength(xs[1..], f, k);
    }
  }

  lemma MiddleSlice<T>(a: seq<T>, b: seq<T>, c: seq<T>)
    ensures (a + b + c)[|a|..|a| + |b|] == b
  {
  }

  /** When every block has `k` elements, the block of `xs[i]` sits at
      positions `k * i` up to `k * i + k` of the result. */
  lemma {:induction false} FlatMapUniform<T, U>(xs: seq<T>, f: T -> seq<U>, k: nat, i: nat)
    requires forall x :: |f(x)| == k
    requires i < |xs|
    ensures |FlatMap(xs, f)| == k * |xs| && k * i + k <= k * |xs|
    ensures FlatMap(xs, f)[k * i..k * i + k] == f(xs[i])
  {
    assert k * |xs| == k * i + k + k * (|xs| - i - 1);
    FlatMapLength(xs, f, k);
    var before, block, after := xs[..i], xs[i], xs[i + 1..];
    assert xs == before + [block] + after;
    FlatMapLength(before, f, k);
    FlatMapAppend(before, block, f);
    FlatMapConcat(before + [block], after, f);
    var start := FlatMap(before, f);
    assert |start| == k * i;
    assert FlatMap(xs, f) == start + f(block) + FlatMap(after, f);
    var mid := f(block);
    assert |mid| == k;
    MiddleSlice(start, mid, FlatMap(after, f));
    assert FlatMap(xs, f)[|start|..|start| + |mid|] == mid;
  }

  lemma {:induction false} FlatMapConcat<T, U>(xs: seq<T>, ys: seq<T>, f: T -> seq<U>)
    ensures FlatMap(xs + ys, f) == FlatMap(xs, f) + FlatMap(ys, f)
  {
    if xs != [] {
      assert (xs + ys)[0] == xs[0];
      assert (xs + ys)[1..] == xs[1..] + ys;
      FlatMapConcat(xs[1..], ys, f);
      assert FlatMap(xs + ys, f) == f(xs[0]) + FlatMap(xs[1..] + ys, f);
    } else {
      assert xs + ys == ys;
    }
  }

  /** Splicing into the tail and putting the head back in front is splicing
      one place further along. */
  lemma ConsSplice<T>(s: seq<T>, x: T, j: nat)
    requires 0 < j <= |s|
    ensures [s[0]] + (s[1..][..j - 1] + [x] + s[1..][j - 1..]) == s[..j] + [x] + s[j..]
  {
    assert s[..j] == [s[0]] + s[1..][..j - 1];
    assert s[j..] == s[1..][j - 1..];
  }

  /** Swapping `x` with the element in front of it moves it one place left. */
  lemma SwapStep<T>(s: seq<T>, x: T, j: nat)
    requires 0 < j <= |s|
    ensures (s[..j] + [x] + s[j..])[j - 1 := x][j := s[j - 1]] == s[..j - 1] + [x] + s[j - 1..]
  {
    var r := (s[..j] + [x] + s[j..])[j - 1 := x][j := s[j - 1]];
    var t := s[..j - 1] + [x] + s[j - 1..];
    assert |r| == |t|;
    forall m | 0 <= m < |r| ensures r[m] == t[m] {
      if m > j {
        assert r[m] == s[m - 1];
      }
    }
  }
}

/** Sequence helpers shared by the model: `Map` is Python's `[g(x) for x in s]`, and
    `FilterMap` is the comprehension with a condition, `[g(x) for x in s if p(x)]`,
    written with one function that answers `Some(g(x))` for the kept elements. */
module Seqs {
  import opened Wrappers

  /** Python's slice `s[:n]` for n >= 0: the first n elements, or all of s when it is shorter. */
  function Prefix<T>(s: seq<T>, n: nat): (r: seq<T>)
    ensures r <= s
    ensures |r| == if |s| <= n then |s| else n
  {
    if |s| <= n then s else s[..n]
  }

  /** Cutting twice at the same length cuts nothing more. */
  lemma {:induction false} PrefixIdempotent<T>(s: seq<T>, n: nat)
    ensures Prefix(Prefix(s, n), n) == Prefix(s, n)
  {
  }

  function Map<T, U>(s: seq<T>, g: T -> U): (r: seq<U>)
    ensures |r| == |s|
    ensures forall i :: 0 <= i < |s| ==> r[i] == g(s[i])
  {
    seq(|s|, i requires 0 <= i < |s| => g(s[i]))
  }

  function FilterMap<T, U>(s: seq<T>, f: T -> Option<U>): (r: seq<U>)
    ensures |r| <= |s|
  {
    if s == [] then []
    else (match f(s[0]) case Some(y) => [y] case None => []) + FilterMap(s[1..], f)
  }

  /** Number of elements of `s` the comprehension keeps. */
  function Kept<T, U>(s: seq<T>, f: T -> Option<U>): nat
  {
    if s == [] then 0 else (if f(s[0]).Some? then 1 else 0) + Kept(s[1..], f)
  }

  lemma {:induction false} FilterMapLength<T, U>(s: seq<T>, f: T -> Option<U>)
    ensures |FilterMap(s, f)| == Kept(s, f)
  {
    if s != [] {
      FilterMapLength(s[1..], f);
    }
  }

  /** FilterMap distributes over concatenation: a comprehension over `a + b` is the
      comprehension over `a` followed by the one over `b`. */
  lemma {:induction false} FilterMapAppend<T, U>(a: seq<T>, b: seq<T>, f: T -> Option<U>)
    ensures FilterMap(a + b, f) == FilterMap(a, f) + FilterMap(b, f)
  {
    if a == [] {
      assert a + b == b;
    } else {
      assert (a + b)[0] == a[0];
      assert (a + b)[1..] == a[1..] + b;
      FilterMapAppend(a[1..], b, f);
    }
  }

  /** Strictly increasing index sequence into a sequence of length n. */
  ghost predicate Ascending(idx: seq<nat>, n: nat)
  {
    (forall k :: 0 <= k < |idx| ==> idx[k] < n) &&
    (forall k, l :: 0 <= k < l < |idx| ==> idx[k] < idx[l])
  }

  /** The full meaning of a comprehension: its result is the image of the kept
      elements, taken at strictly increasing positions of the input (so order is
      preserved), and every position left out is one the condition rejects. */
  lemma {:induction false} FilterMapOrigins<T, U>(s: seq<T>, f: T -> Option<U>) returns (idx: seq<nat>)
    ensures |idx| == |FilterMap(s, f)|
    ensures Ascending(idx, |s|)
    ensures forall k :: 0 <= k < |idx| ==> f(s[idx[k]]) == Some(FilterMap(s, f)[k])
    ensures forall j :: 0 <= j < |s| && j !in idx ==> f(s[j]).None?
  {
    if s == [] {
      return [];
    }
    var rest := FilterMapOrigins(s[1..], f);
    var shifted := ShiftOrigins(s, f, rest);
    if f(s[0]).Some? {
      idx := [0] + shifted;
      KeepHead(s, f, shifted);
    } else {
      idx := shifted;
      assert FilterMap(s, f) == FilterMap(s[1..], f);
    }
  }

  /** When the head is kept, its position 0 goes in front of the shifted positions. */
  lemma {:induction false} KeepHead<T, U>(s: seq<T>, f: T -> Option<U>, shifted: seq<nat>)
    requires s != [] && f(s[0]).Some?
    requires |shifted| == |FilterMap(s[1..], f)| && Ascending(shifted, |s|)
    requires forall k :: 0 <= k < |shifted| ==> shifted[k] > 0
    requires forall k :: 0 <= k < |shifted| ==> f(s[shifted[k]]) == Some(FilterMap(s[1..], f)[k])
    requires forall j :: 1 <= j < |s| && j !in shifted ==> f(s[j]).None?
    ensures var idx := [0] + shifted;
      && |idx| == |FilterMap(s, f)|
      && Ascending(idx, |s|)
      && (forall k :: 0 <= k < |idx| ==> f(s[idx[k]]) == Some(FilterMap(s, f)[k]))
      && (forall j :: 0 <= j < |s| && j !in idx ==> f(s[j]).None?)
  {
    var idx := [0] + shifted;
    AscendingCons(shifted, |s|);
    assert FilterMap(s, f) == [f(s[0]).value] + FilterMap(s[1..], f);
    forall j | 0 <= j < |s| && j !in idx
      ensures f(s[j]).None?
    {
      assert idx[0] == 0;
      forall k | 0 <= k < |shifted|
        ensures shifted[k] != j
      {
        assert idx[k + 1] == shifted[k];
      }
    }
  }

  /** The positions found for `s[1..]`, moved one step right, are positions in `s`. */
  lemma {:induction false} ShiftOrigins<T, U>(s: seq<T>, f: T -> Option<U>, rest: seq<nat>) returns (shifted: seq<nat>)
    requires s != []
    requires |rest| == |FilterMap(s[1..], f)|
    requires Ascending(rest, |s| - 1)
    requires forall k :: 0 <= k < |rest| ==> f(s[1..][rest[k]]) == Some(FilterMap(s[1..], f)[k])
    requires forall j :: 0 <= j < |s| - 1 && j !in rest ==> f(s[1..][j]).None?
    ensures |shifted| == |rest| && Ascending(shifted, |s|)
    ensures forall k :: 0 <= k < |shifted| ==> shifted[k] > 0
    ensures forall k :: 0 <= k < |shifted| ==> f(s[shifted[k]]) == Some(FilterMap(s[1..], f)[k])
    ensures forall j :: 1 <= j < |s| && j !in shifted ==> f(s[j]).None?
  {
    shifted := seq(|rest|, k requires 0 <= k < |rest| => rest[k] + 1);
    forall k | 0 <= k < |shifted|
      ensures f(s[shifted[k]]) == Some(FilterMap(s[1..], f)[k])
    {
      assert s[shifted[k]] == s[1..][rest[k]];
    }
    forall j | 1 <= j < |s| && j !in shifted
      ensures f(s[j]).None?
    {
      forall k | 0 <= k < |rest|
        ensures rest[k] != j - 1
      {
        assert shifted[k] in shifted;
      }
      assert s[j] == s[1..][j - 1];
    }
  }

  lemma {:induction false} AscendingCons(idx: seq<nat>, n: nat)
    requires n > 0 && Ascending(idx, n)
    requires forall k :: 0 <= k < |idx| ==> idx[k] > 0
    ensures Ascending([0] + idx, n)
  {
    var c := [0] + idx;
    forall k, l | 0 <= k < l < |c|
      ensures c[k] < c[l]
    {
      if k > 0 {
        assert c[k] == idx[k - 1] && c[l] == idx[l - 1];
      } else {
        assert c[l] == idx[l - 1];
      }
    }
  }

  /** A condition that keeps fewer elements gives a comprehension that is no longer. */
  lemma {:induction false} FilterMapMonotone<T, U, V>(s: seq<T>, strict: T -> Option<U>, loose: T -> Option<V>)
    requires forall x :: strict(x).Some? ==> loose(x).Some?
    ensures |FilterMap(s, strict)| <= |FilterMap(s, loose)|
  {
    FilterMapLength(s, strict);
    FilterMapLength(s, loose);
    KeptMonotone(s, strict, loose);
  }

  lemma {:induction false} KeptMonotone<T, U, V>(s: seq<T>, strict: T -> Option<U>, loose: T -> Option<V>)
    requires forall x :: strict(x).Some? ==> loose(x).Some?
    ensures Kept(s, strict) <= Kept(s, loose)
  {
    if s != [] {
      KeptMonotone(s[1..], strict, loose);
    }
  }

  /** A comprehension over the result of a comprehension is one comprehension. */
  lemma {:induction false} FilterMapThen<T, U, V>(s: seq<T>, f: T -> Option<U>, g: U -> Option<V>, h: T -> Option<V>)
    requires forall x :: h(x) == (match f(x) case Some(y) => g(y) case None => None)
    ensures FilterMap(FilterMap(s, f), g) == FilterMap(s, h)
  {
    if s != [] {
      FilterMapThen(s[1..], f, g, h);
      var head := match f(s[0]) case Some(y) => [y] case None => [];
      assert FilterMap(s, f) == head + FilterMap(s[1..], f);
      FilterMapAppend(head, FilterMap(s[1..], f), g);
    }
  }

  lemma {:induction false} AppendAssoc<T>(a: seq<T>, b: seq<T>, c: seq<T>)
    ensures a + (b + c) == a + b + c
  {
  }

  lemma {:induction false} AppendEmpty<T>(a: seq<T>)
    ensures a + [] == a
  {
  }

  lemma {:induction false} DropFront<T>(a: seq<T>, b: seq<T>)
    ensures (a + b)[|a|..] == b
  {
  }

  /** The pieces f(x) of the elements of s, concatenated in order. */
  function Flatten<T, U>(s: seq<T>, f: T -> seq<U>): seq<U>
  {
    if s == [] then [] else Flatten(s[..|s| - 1], f) + f(s[|s| - 1])
  }

  lemma {:induction false} FlattenSnoc<T, U>(s: seq<T>, i: nat, f: T -> seq<U>)
    requires i < |s|
    ensures Flatten(s[..i + 1], f) == Flatten(s[..i], f) + f(s[i])
  {
    assert s[..i + 1][..i] == s[..i];
  }

  lemma {:induction false} FlattenAppend<T, U>(a: seq<T>, b: seq<T>, f: T -> seq<U>)
    ensures Flatten(a + b, f) == Flatten(a, f) + Flatten(b, f)
    decreases |b|
  {
    if b == [] {
      assert a + b == a;
    } else {
      var n := |b| - 1;
      assert (a + b)[..|a + b| - 1] == a + b[..n];
      FlattenAppend(a, b[..n], f);
    }
  }

  /** Element k contributes exactly its own piece, between those of the elements
      before and after it. */
  lemma {:induction false} FlattenAt<T, U>(s: seq<T>, k: nat, f: T -> seq<U>)
    requires k < |s|
    ensures Flatten(s, f) == Flatten(s[..k], f) + f(s[k]) + Flatten(s[k + 1..], f)
  {
    assert s == s[..k + 1] + s[k + 1..];
    FlattenAppend(s[..k + 1], s[k + 1..], f);
    assert s[..k + 1][..k] == s[..k];
  }

  /** Like Flatten, but the piece of the i-th element (0-based) also gets the
      number base + i + 1. */
  function Numbered<T, U>(s: seq<T>, base: nat, f: (T, nat) -> seq<U>): seq<U>
  {
    if s == [] then [] else Numbered(s[..|s| - 1], base, f) + f(s[|s| - 1], base + |s|)
  }

  lemma {:induction false} NumberedSnoc<T, U>(s: seq<T>, i: nat, f: (T, nat) -> seq<U>)
    requires i < |s|
    ensures Numbered(s[..i + 1], 0, f) == Numbered(s[..i], 0, f) + f(s[i], i + 1)
  {
    assert s[..i + 1][..i] == s[..i];
  }

  lemma {:induction false} NumberedAppend<T, U>(a: seq<T>, b: seq<T>, base: nat, f: (T, nat) -> seq<U>)
    ensures Numbered(a + b, base, f) == Numbered(a, base, f) + Numbered(b, base + |a|, f)
    decreases |b|
  {
    if b == [] {
      assert a + b == a;
    } else {
      var n := |b| - 1;
      assert (a + b)[..|a + b| - 1] == a + b[..n];
      NumberedAppend(a, b[..n], base, f);
    }
  }

  /** Element k is numbered k + 1 and its piece sits between those of the
      elements before and after it, whose numbering runs on without a gap. */
  lemma {:induction false} NumberedAt<T, U>(s: seq<T>, k: nat, f: (T, nat) -> seq<U>)
    requires k < |s|
    ensures Numbered(s, 0, f) == Numbered(s[..k], 0, f) + f(s[k], k + 1) + Numbered(s[k + 1..], k + 1, f)
  {
    var front, back := s[..k + 1], s[k + 1..];
    NumberedAppend(front, back, 0, f);
    NumberedSnoc(s, k, f);
    assert front + back == s;
  }

  /** Filtering the images of a map is filtering with the composed function. */
  lemma {:induction false} MapThenFilterMap<T, U, V>(s: seq<T>, g: T -> U, f: U -> Option<V>, h: T -> Option<V>)
    requires forall x :: h(x) == f(g(x))
    ensures FilterMap(Map(s, g), f) == FilterMap(s, h)
  {
    if s != [] {
      assert Map(s, g)[1..] == Map(s[1..], g);
      MapThenFilterMap(s[1..], g, f, h);
    }
  }

  /** Mapping over a filter's output is filtering with the composed function. */
  lemma {:induction false} FilterMapThenMap<T, U, V>(s: seq<T>, f: T -> Option<U>, g: U -> V, h: T -> Option<V>)
    requires forall x :: h(x) == (match f(x) case Some(y) => Some(g(y)) case None => None)
    ensures Map(FilterMap(s, f), g) == FilterMap(s, h)
  {
    if s != [] {
      FilterMapThenMap(s[1..], f, g, h);
      match f(s[0])
      case None =>
      case Some(y) =>
        assert FilterMap(s, f) == [y] + FilterMap(s[1..], f);
        assert Map([y] + FilterMap(s[1..], f), g) == [g(y)] + Map(FilterMap(s[1..], f), g);
    }
  }

  /** Mapping a longer prefix adds the image of the next element. */
  lemma {:induction false} MapSnoc<T, U>(s: seq<T>, i: nat, g: T -> U)
    requires i < |s|
    ensures Map(s[..i + 1], g) == Map(s[..i], g) + [g(s[i])]
  {
  }

  lemma {:induction false} MapAppend<T, U>(a: seq<T>, b: seq<T>, g: T -> U)
    ensures Map(a + b, g) == Map(a, g) + Map(b, g)
  {
  }

  lemma {:induction false} MapThenMap<T, U, V>(s: seq<T>, g: T -> U, f: U -> V, h: T -> V)
    requires forall x :: h(x) == f(g(x))
    ensures Map(Map(s, g), f) == Map(s, h)
  {
  }
}

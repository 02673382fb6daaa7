/** Small facts about sequences, kept apart so that each is proved in a tiny context. */
module Seqs {
  /** Membership in a concatenation is membership in one of its parts. */
  lemma InConcat<T>(x: T, a: seq<T>, b: seq<T>)
    ensures x in a + b <==> x in a || x in b
  {
  }

  /** Index j of a, for j below |a|, is index j of a + b. */
  lemma IndexLeft<T>(a: seq<T>, b: seq<T>, j: nat)
    requires j < |a|
    ensures j < |a + b| && (a + b)[j] == a[j]
  {
  }

  /** Index i of b is index |a| + i of a + b. */
  lemma IndexRight<T>(a: seq<T>, b: seq<T>, i: nat)
    requires i < |b|
    ensures |a| + i < |a + b| && (a + b)[|a| + i] == b[i]
  {
  }

  lemma AppendAssoc<T>(a: seq<T>, b: seq<T>, c: seq<T>)
    ensures a + b + c == a + (b + c)
  {
  }

  /** Extending a slice by one index appends that element. */
  lemma SliceSnoc<T>(s: seq<T>, lo: nat, i: nat)
    requires lo <= i < |s|
    ensures s[lo..i + 1] == s[lo..i] + [s[i]]
  {
  }

  lemma EmptySlice<T>(s: seq<T>, lo: nat)
    requires lo <= |s|
    ensures s[lo..lo] == []
  {
  }

  lemma FullSlice<T>(s: seq<T>)
    ensures s[0..|s|] == s
  {
  }

  lemma SnocPrefix<T>(s: seq<T>, x: T)
    ensures (s + [x])[..|s|] == s
  {
  }

  /** A slice that lies inside the left operand of an append. */
  lemma SliceAppendLeft<T>(a: seq<T>, b: seq<T>, i: nat, j: nat)
    requires i <= j <= |a|
    ensures (a + b)[i..j] == a[i..j]
  {
  }

  /** The right operand of an append, recovered by slicing. */
  lemma SliceAppendRight<T>(a: seq<T>, b: seq<T>)
    ensures (a + b)[|a|..|a| + |b|] == b
  {
  }

  /** A slice that lies inside the right operand of an append. */
  lemma SliceAppendRightPart<T>(a: seq<T>, b: seq<T>, i: nat, j: nat)
    requires i <= j <= |b|
    ensures (a + b)[|a| + i..|a| + j] == b[i..j]
  {
  }

  lemma TakeAppend<T>(a: seq<T>, b: seq<T>, j: nat)
    requires j <= |a|
    ensures (a + b)[..j] == a[..j]
  {
  }

  lemma DropAppend<T>(a: seq<T>, b: seq<T>)
    ensures (a + b)[|a|..] == b
  {
  }

  /** Slicing a suffix is slicing the whole sequence at shifted bounds. */
  lemma SliceOfDrop<T>(s: seq<T>, lo: nat, i: nat, j: nat)
    requires lo <= |s| && i <= j <= |s| - lo
    ensures s[lo..][i..j] == s[lo + i..lo + j]
  {
  }

  ghost predicate Distinct<T>(s: seq<T>) {
    forall i, j :: 0 <= i < j < |s| ==> s[i] != s[j]
  }

  /** A sequence without repeats holds each value at most once. */
  lemma {:induction false} DistinctCount<T>(t: seq<T>, x: T)
    requires Distinct(t)
    ensures multiset(t)[x] <= 1
  {
    if t != [] {
      var u := t[1..];
      assert t == [t[0]] + u;
      assert forall j :: 0 <= j < |u| ==> u[j] == t[j + 1];
      DistinctCount(u, x);
      assert t[0] !in multiset(u);
    }
  }

  /** Two sequences without repeats and without common values join into one without repeats. */
  lemma DistinctConcat<T>(a: seq<T>, b: seq<T>)
    requires Distinct(a) && Distinct(b)
    requires forall x :: x in a ==> x !in b
    ensures Distinct(a + b)
  {
    var s := a + b;
    forall i, j | 0 <= i < j < |s|
      ensures s[i] != s[j]
    {
      if i < |a| && j >= |a| {
        assert s[i] in a && s[j] == b[j - |a|];
      }
    }
  }

  /** A value found at two positions is counted at least twice. */
  lemma RepeatCount<T>(s: seq<T>, i: nat, j: nat)
    requires i < j < |s|
    ensures s[i] == s[j] ==> multiset(s)[s[i]] >= 2
  {
    assert s == s[..i] + [s[i]] + s[i + 1..j] + [s[j]] + s[j + 1..];
  }

  /** A rearrangement of a sequence without repeats has no repeats. */
  lemma DistinctPermutation<T>(s: seq<T>, t: seq<T>)
    requires multiset(s) == multiset(t) && Distinct(t)
    ensures Distinct(s)
  {
    forall i, j | 0 <= i < j < |s|
      ensures s[i] != s[j]
    {
      RepeatCount(s, i, j);
      DistinctCount(t, s[i]);
    }
  }

  /** `v` cut or padded with `fill` to length n. */
  function Fit<T>(v: seq<T>, n: nat, fill: T): (r: seq<T>)
    ensures |r| == n
    ensures forall i :: 0 <= i < n ==> r[i] == if i < |v| then v[i] else fill
  {
    if n <= |v| then v[..n] else v + seq(n - |v|, _ => fill)
  }

  /** The parts 0 .. n - 1 one after the other. */
  function Concat<T>(part: nat -> seq<T>, n: nat): seq<T> {
    if n == 0 then [] else Concat(part, n - 1) + part(n - 1)
  }

  /** One more part: the parts below n, then part n. */
  lemma ConcatStep<T>(part: nat -> seq<T>, n: nat)
    ensures Concat(part, n + 1) == Concat(part, n) + part(n)
  {
  }

  /** Whatever part k holds, the concatenation of the parts below n holds, for every n above k. */
  lemma {:induction false} ConcatHas<T>(part: nat -> seq<T>, n: nat, k: nat, v: T)
    requires k < n && v in part(k)
    ensures v in Concat(part, n)
  {
    if k < n - 1 {
      ConcatHas(part, n - 1, k, v);
    }
    InConcat(v, Concat(part, n - 1), part(n - 1));
  }

  /** Whatever the concatenation of the parts below n holds, some part below n holds. */
  lemma {:induction false} ConcatFrom<T>(part: nat -> seq<T>, n: nat, v: T) returns (k: nat)
    requires v in Concat(part, n)
    ensures k < n && v in part(k)
  {
    InConcat(v, Concat(part, n - 1), part(n - 1));
    if v in Concat(part, n - 1) {
      k := ConcatFrom(part, n - 1, v);
    } else {
      k := n - 1;
    }
  }

  /** Element i of part k sits in the concatenation of the parts below n, for every n above k, at index j. */
  lemma {:induction false} ConcatAt<T>(part: nat -> seq<T>, n: nat, k: nat, i: nat) returns (j: nat)
    requires k < n && i < |part(k)|
    ensures j < |Concat(part, n)| && Concat(part, n)[j] == part(k)[i]
  {
    if k < n - 1 {
      j := ConcatAt(part, n - 1, k, i);
    } else {
      j := |Concat(part, n - 1)| + i;
    }
  }

  /** A property every element of every part below n has, every element of their concatenation has. */
  lemma {:induction false} ConcatAll<T>(part: nat -> seq<T>, n: nat, p: T -> bool)
    requires forall k: nat, i :: k < n && 0 <= i < |part(k)| ==> p(part(k)[i])
    ensures forall j :: 0 <= j < |Concat(part, n)| ==> p(Concat(part, n)[j])
  {
    if n > 0 {
      ConcatAll(part, n - 1, p);
      forall j | 0 <= j < |Concat(part, n)|
        ensures p(Concat(part, n)[j])
      {
        if j >= |Concat(part, n - 1)| {
          assert Concat(part, n)[j] == part(n - 1)[j - |Concat(part, n - 1)|];
        }
      }
    }
  }
}

/** Finite sequences without repetition, and the byte type shared by the codecs. */
module Seqs {
  type byte = b: int | 0 <= b < 256

  datatype Option<+T> = None | Some(value: T)

  ghost predicate NoDup<T>(s: seq<T>) {
    forall i, j :: 0 <= i < j < |s| ==> s[i] != s[j]
  }

  ghost predicate Ascending(s: seq<nat>) {
    forall i, j :: 0 <= i < j < |s| ==> s[i] < s[j]
  }

  /** s with every occurrence of x taken out, order kept. */
  function Without<T(==)>(s: seq<T>, x: T): (r: seq<T>)
    ensures |r| <= |s|
  {
    if s == [] then []
    else
      var front := Without(s[..|s| - 1], x);
      if s[|s| - 1] == x then front else front + [s[|s| - 1]]
  }

  lemma {:induction false} WithoutMembers<T>(s: seq<T>, x: T)
    ensures forall y :: y in Without(s, x) <==> y in s && y != x
  {
    if s != [] {
      WithoutMembers(s[..|s| - 1], x);
      assert s == s[..|s| - 1] + [s[|s| - 1]];
    }
  }

  lemma {:induction false} WithoutNoDup<T>(s: seq<T>, x: T)
    requires NoDup(s)
    ensures NoDup(Without(s, x))
  {
    if s != [] {
      var front, last := s[..|s| - 1], s[|s| - 1];
      WithoutNoDup(front, x);
      WithoutMembers(front, x);
      assert last !in front;
      var w := Without(front, x);
      assert forall i :: 0 <= i < |w| ==> w[i] in w && w[i] != last;
    }
  }

  lemma {:induction false} WithoutAscending(s: seq<nat>, x: nat)
    requires Ascending(s)
    ensures Ascending(Without(s, x))
  {
    if s != [] {
      var front, last := s[..|s| - 1], s[|s| - 1];
      WithoutAscending(front, x);
      WithoutMembers(front, x);
      var w := Without(front, x);
      assert forall i :: 0 <= i < |front| ==> front[i] == s[i] < last;
      assert forall i :: 0 <= i < |w| ==> w[i] in w && w[i] in front;
    }
  }

  lemma AppendAscending(s: seq<nat>, x: nat)
    requires Ascending(s) && forall y :: y in s ==> y < x
    ensures Ascending(s + [x])
  {
    assert forall i :: 0 <= i < |s| ==> s[i] in s;
  }

  lemma AppendNoDup<T>(s: seq<T>, x: T)
    requires NoDup(s) && x !in s
    ensures NoDup(s + [x])
  {
  }

  lemma {:induction false} WithoutAbsent<T>(s: seq<T>, x: T)
    requires x !in s
    ensures Without(s, x) == s
  {
    if s != [] {
      WithoutAbsent(s[..|s| - 1], x);
      assert s == s[..|s| - 1] + [s[|s| - 1]];
    }
  }

  lemma {:induction false} WithoutConcat<T>(a: seq<T>, b: seq<T>, x: T)
    ensures Without(a + b, x) == Without(a, x) + Without(b, x)
  {
    if b == [] {
      assert a + b == a;
    } else {
      assert (a + b)[..|a + b| - 1] == a + b[..|b| - 1];
      WithoutConcat(a, b[..|b| - 1], x);
    }
  }

  /** Taking out the first element of a repetition-free sequence leaves its tail. */
  lemma WithoutHead<T>(s: seq<T>)
    requires s != [] && NoDup(s)
    ensures Without(s, s[0]) == s[1..]
  {
    assert s == [s[0]] + s[1..];
    WithoutConcat([s[0]], s[1..], s[0]);
    assert s[0] !in s[1..];
    WithoutAbsent(s[1..], s[0]);
  }

  /** Pigeonhole: distinct naturals below n are at most n many. */
  lemma {:induction false} Pigeonhole(s: seq<nat>, n: nat)
    requires NoDup(s) && forall i :: 0 <= i < |s| ==> s[i] < n
    ensures |s| <= n
    decreases n
  {
    if s != [] {
      assert 0 <= s[0] < n;
      var t := Without<nat>(s, n - 1);
      WithoutMembers<nat>(s, n - 1);
      WithoutNoDup<nat>(s, n - 1);
      forall i | 0 <= i < |t| ensures t[i] < n - 1 {
        assert t[i] in t;
        assert t[i] in s;
      }
      Pigeonhole(t, n - 1);
      WithoutOnce<nat>(s, n - 1);
    }
  }

  lemma SliceOfSlice<T>(s: seq<T>, a: nat, b: nat, c: nat, d: nat)
    requires a <= b <= |s| && c <= d <= b - a
    ensures s[a..b][c..d] == s[a + c..a + d]
  {
    var m := s[a..b];
    forall i | 0 <= i < d - c ensures m[c..d][i] == s[a + c..a + d][i] {
      assert m[c..d][i] == m[c + i] == s[a + (c + i)];
    }
  }

  lemma {:induction false} WithoutOnce<T>(s: seq<T>, x: T)
    requires NoDup(s)
    ensures |Without(s, x)| == if x in s then |s| - 1 else |s|
  {
    if s != [] {
      var front := s[..|s| - 1];
      assert s == front + [s[|s| - 1]];
      WithoutOnce(front, x);
    }
  }
}

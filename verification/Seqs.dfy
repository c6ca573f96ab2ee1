/** Taking one element out of a sequence, as unlinking does. */
module Seqs {
  ghost predicate NoDuplicates<T>(s: seq<T>) {
    forall i, j | 0 <= i < j < |s| :: s[i] != s[j]
  }

  /** The sequence without its last occurrence of `x`; queues hold an element at most once. */
  function Without<T(==)>(s: seq<T>, x: T): (r: seq<T>)
    ensures |r| == if x in s then |s| - 1 else |s|
  {
    if s == [] then []
    else if s[|s| - 1] == x then s[..|s| - 1]
    else Without(s[..|s| - 1], x) + [s[|s| - 1]]
  }

  /** The sequence without its k-th element. */
  function RemoveAt<T>(s: seq<T>, k: nat): seq<T>
    requires k < |s|
  {
    s[..k] + s[k + 1..]
  }

  lemma WithoutSnoc<T>(s: seq<T>, last: T, x: T)
    ensures Without(s + [last], x) == if last == x then s else Without(s, x) + [last]
  {
    assert (s + [last])[..|s|] == s;
  }

  lemma {:induction false} WithoutAbsent<T>(s: seq<T>, x: T)
    requires x !in s
    ensures Without(s, x) == s
  {
    if s != [] {
      WithoutAbsent(s[..|s| - 1], x);
    }
  }

  lemma {:induction false} WithoutIs<T>(s: seq<T>, x: T)
    requires NoDuplicates(s)
    ensures NoDuplicates(Without(s, x))
    ensures forall y :: y in Without(s, x) <==> y in s && y != x
  {
    if s != [] {
      var front, last := s[..|s| - 1], s[|s| - 1];
      assert s == front + [last];
      WithoutIs(front, x);
      var w := Without(front, x);
      assert forall i | 0 <= i < |w| :: w[i] in w;
    }
  }

  /** What is left is the two parts around the element. */
  lemma {:induction false} WithoutAt<T>(s: seq<T>, k: nat)
    requires NoDuplicates(s) && k < |s|
    ensures Without(s, s[k]) == s[..k] + s[k + 1..]
  {
    var front, last := s[..|s| - 1], s[|s| - 1];
    if k < |s| - 1 {
      WithoutAt(front, k);
      assert front[..k] + front[k + 1..] + [last] == s[..k] + s[k + 1..];
    }
  }

  lemma WithoutFirst<T>(s: seq<T>)
    requires NoDuplicates(s) && s != []
    ensures Without(s, s[0]) == s[1..] && NoDuplicates(s[1..])
  {
    assert Without(s, s[0]) == s[1..] by {
      WithoutAt(s, 0);
      assert s[..0] + s[1..] == s[1..];
    }
    WithoutIs(s, s[0]);
  }

  lemma {:induction false} WithoutMultiset<T>(s: seq<T>, x: T)
    requires x in s
    ensures multiset(s) == multiset(Without(s, x)) + multiset{x}
  {
    var front, last := s[..|s| - 1], s[|s| - 1];
    assert s == front + [last];
    if last != x {
      WithoutMultiset(front, x);
    }
  }

  /** `s` is `t` with some elements left out. */
  ghost predicate Subsequence<T>(s: seq<T>, t: seq<T>)
    decreases |t|
  {
    s == [] || (t != [] && var u := t[..|t| - 1];
                           Subsequence(s, u) || (s[|s| - 1] == t[|t| - 1] && Subsequence(s[..|s| - 1], u)))
  }

  lemma SubsequenceSnoc<T>(s: seq<T>, t: seq<T>, x: T)
    requires Subsequence(s, t)
    ensures Subsequence(s + [x], t + [x])
  {
    assert (s + [x])[..|s|] == s && (t + [x])[..|t|] == t;
  }

  lemma SubsequenceSkip<T>(s: seq<T>, t: seq<T>, x: T)
    requires Subsequence(s, t)
    ensures Subsequence(s, t + [x])
  {
    assert (t + [x])[..|t|] == t;
  }

  /** Without a stretch of it a subsequence still is one. */
  lemma {:induction false} SubsequenceCut<T>(a: seq<T>, m: seq<T>, b: seq<T>, t: seq<T>)
    requires Subsequence(a + m + b, t)
    ensures Subsequence(a + b, t)
    decreases |t|
  {
    if m == [] {
      assert a + m + b == a + b;
    } else {
      var s, u := a + m + b, t[..|t| - 1];
      if Subsequence(s, u) {
        SubsequenceCut(a, m, b, u);
      } else if b != [] {
        var front := b[..|b| - 1];
        assert s[..|s| - 1] == a + m + front && (a + b)[..|a + b| - 1] == a + front;
        SubsequenceCut(a, m, front, u);
      } else {
        assert s[..|s| - 1] == a + m[..|m| - 1] + b;
        SubsequenceCut(a, m[..|m| - 1], b, u);
      }
    }
  }
}

/** Sequence vocabulary shared by the models. */
module Seqs {

  datatype Option<+T> = None | Some(value: T)

  ghost predicate NoDup<T>(s: seq<T>) {
    forall i, j :: 0 <= i < j < |s| ==> s[i] != s[j]
  }

  lemma PlusAssoc<T>(a: seq<T>, b: seq<T>, c: seq<T>)
    ensures a + (b + c) == a + b + c
  {
  }

  lemma NoDupJoin<T>(a: seq<T>, b: seq<T>)
    requires NoDup(a) && NoDup(b) && forall x :: x in a ==> x !in b
    ensures NoDup(a + b)
  {
    forall i, j | 0 <= i < j < |a + b|
      ensures (a + b)[i] != (a + b)[j]
    {
      if i < |a| <= j {
        assert a[i] in a && b[j - |a|] in b;
      }
    }
  }

  lemma NoDupPlus<T>(a: seq<T>, b: seq<T>, x: T)
    requires NoDup(a + b) && x in b
    ensures x !in a
  {
    var j :| 0 <= j < |b| && b[j] == x;
    forall i | 0 <= i < |a|
      ensures a[i] != x
    {
      assert (a + b)[i] != (a + b)[|a| + j];
    }
  }

  /** All parts, one after another. */
  function Concat<T>(parts: seq<seq<T>>): seq<T> {
    if parts == [] then [] else Concat(parts[..|parts| - 1]) + parts[|parts| - 1]
  }

  lemma ConcatSnoc<T>(parts: seq<seq<T>>, x: seq<T>)
    ensures Concat(parts + [x]) == Concat(parts) + x
  {
    assert (parts + [x])[..|parts|] == parts;
  }

  lemma {:induction false} ConcatPlus<T>(a: seq<seq<T>>, b: seq<seq<T>>)
    ensures Concat(a + b) == Concat(a) + Concat(b)
  {
    if b == [] {
      assert a + b == a;
    } else {
      var front, last := b[..|b| - 1], b[|b| - 1];
      ConcatPlus(a, front);
      ConcatSnoc(a + front, last);
      assert a + b == (a + front) + [last];
      PlusAssoc(Concat(a), Concat(front), last);
    }
  }

  lemma {:induction false} ConcatPrefix<T>(parts: seq<seq<T>>, k: nat)
    requires k <= |parts|
    ensures Concat(parts[..k]) <= Concat(parts)
  {
    ConcatPlus(parts[..k], parts[k..]);
    assert parts == parts[..k] + parts[k..];
  }

  /** The elements of s that belong to keep, in order. */
  function Keep<T(==)>(s: seq<T>, keep: set<T>): seq<T> {
    if s == [] then []
    else Keep(s[..|s| - 1], keep) + if s[|s| - 1] in keep then [s[|s| - 1]] else []
  }

  /** s with every occurrence of x removed. */
  function Without<T(==)>(s: seq<T>, x: T): seq<T> {
    if s == [] then []
    else Without(s[..|s| - 1], x) + if s[|s| - 1] == x then [] else [s[|s| - 1]]
  }

  lemma KeepSnoc<T>(s: seq<T>, x: T, keep: set<T>)
    ensures Keep(s + [x], keep) == Keep(s, keep) + if x in keep then [x] else []
  {
    assert (s + [x])[..|s|] == s;
  }

  lemma {:induction false} KeepPlus<T>(a: seq<T>, b: seq<T>, keep: set<T>)
    ensures Keep(a + b, keep) == Keep(a, keep) + Keep(b, keep)
  {
    if b == [] {
      assert a + b == a;
    } else {
      KeepPlus(a, b[..|b| - 1], keep);
      assert a + b == (a + b[..|b| - 1]) + [b[|b| - 1]];
      KeepSnoc(a + b[..|b| - 1], b[|b| - 1], keep);
    }
  }

  lemma {:induction false} KeepSame<T>(s: seq<T>, a: set<T>, b: set<T>)
    requires forall x :: x in s ==> (x in a <==> x in b)
    ensures Keep(s, a) == Keep(s, b)
  {
    if s == [] {
    } else {
      KeepSame(s[..|s| - 1], a, b);
    }
  }

  lemma {:induction false} KeepIn<T>(s: seq<T>, keep: set<T>, x: T)
    ensures x in Keep(s, keep) <==> x in s && x in keep
  {
    if s == [] {
    } else {
      KeepIn(s[..|s| - 1], keep, x);
      assert s == s[..|s| - 1] + [s[|s| - 1]];
    }
  }

  lemma {:induction false} KeepNoDup<T>(s: seq<T>, keep: set<T>)
    requires NoDup(s)
    ensures NoDup(Keep(s, keep))
  {
    if s == [] {
    } else {
      var front, last := s[..|s| - 1], s[|s| - 1];
      KeepNoDup(front, keep);
      KeepIn(front, keep, last);
      assert last !in front;
    }
  }

  lemma {:induction false} KeepWithout<T>(s: seq<T>, keep: set<T>, x: T)
    ensures Keep(s, keep - {x}) == Without(Keep(s, keep), x)
  {
    if s == [] {
    } else {
      var front, last := s[..|s| - 1], s[|s| - 1];
      KeepWithout(front, keep, x);
      if last in keep {
        WithoutSnoc(Keep(front, keep), last, x);
      } else {
        assert Keep(s, keep) == Keep(front, keep);
      }
    }
  }

  lemma WithoutSnoc<T>(s: seq<T>, y: T, x: T)
    ensures Without(s + [y], x) == Without(s, x) + if y == x then [] else [y]
  {
    assert (s + [y])[..|s|] == s;
  }

  lemma {:induction false} WithoutPlus<T>(a: seq<T>, b: seq<T>, x: T)
    ensures Without(a + b, x) == Without(a, x) + Without(b, x)
  {
    if b == [] {
      assert a + b == a;
    } else {
      WithoutPlus(a, b[..|b| - 1], x);
      assert a + b == (a + b[..|b| - 1]) + [b[|b| - 1]];
      WithoutSnoc(a + b[..|b| - 1], b[|b| - 1], x);
    }
  }

  lemma {:induction false} WithoutAbsent<T>(s: seq<T>, x: T)
    requires x !in s
    ensures Without(s, x) == s
  {
    if s == [] {
    } else {
      WithoutAbsent(s[..|s| - 1], x);
    }
  }

  lemma {:induction false} WithoutIn<T>(s: seq<T>, x: T, y: T)
    ensures y in Without(s, x) <==> y in s && y != x
  {
    if s == [] {
    } else {
      WithoutIn(s[..|s| - 1], x, y);
      assert s == s[..|s| - 1] + [s[|s| - 1]];
    }
  }

  lemma {:induction false} WithoutNoDup<T>(s: seq<T>, x: T)
    requires NoDup(s)
    ensures NoDup(Without(s, x))
  {
    if s == [] {
    } else {
      WithoutNoDup(s[..|s| - 1], x);
      WithoutIn(s[..|s| - 1], x, s[|s| - 1]);
    }
  }

  /** s without the elements whose key is x. */
  function WithoutKey<T, K(==)>(s: seq<T>, key: T -> K, x: K): seq<T> {
    if s == [] then []
    else
      var front, last := s[..|s| - 1], s[|s| - 1];
      WithoutKey(front, key, x) + if key(last) == x then [] else [last]
  }

  ghost predicate UniqueKeys<T, K>(s: seq<T>, key: T -> K) {
    forall i, j :: 0 <= i < j < |s| ==> key(s[i]) != key(s[j])
  }

  lemma WithoutKeySnoc<T, K>(s: seq<T>, y: T, key: T -> K, x: K)
    ensures WithoutKey(s + [y], key, x) == if key(y) == x then WithoutKey(s, key, x) else WithoutKey(s, key, x) + [y]
  {
    assert (s + [y])[..|s|] == s;
  }

  lemma {:induction false} WithoutKeyPlus<T, K>(a: seq<T>, b: seq<T>, key: T -> K, x: K)
    ensures WithoutKey(a + b, key, x) == WithoutKey(a, key, x) + WithoutKey(b, key, x)
  {
    if b == [] {
      assert a + b == a;
    } else {
      var front, last := b[..|b| - 1], b[|b| - 1];
      WithoutKeyPlus(a, front, key, x);
      assert a + b == (a + front) + [last];
      WithoutKeySnoc(a + front, last, key, x);
    }
  }

  lemma {:induction false} WithoutKeyIn<T, K>(s: seq<T>, key: T -> K, x: K, y: T)
    ensures y in WithoutKey(s, key, x) <==> y in s && key(y) != x
  {
    if s == [] {
    } else {
      var front, last := s[..|s| - 1], s[|s| - 1];
      WithoutKeyIn(front, key, x, y);
      assert s == front + [last];
    }
  }

  lemma {:induction false} WithoutKeyUnique<T, K>(s: seq<T>, key: T -> K, x: K)
    requires UniqueKeys(s, key)
    ensures UniqueKeys(WithoutKey(s, key, x), key)
  {
    if s == [] {
    } else {
      var front, last := s[..|s| - 1], s[|s| - 1];
      WithoutKeyUnique(front, key, x);
      forall y | y in WithoutKey(front, key, x)
        ensures key(y) != key(last)
      {
        WithoutKeyIn(front, key, x, y);
      }
    }
  }

  lemma {:induction false} WithoutKeyAbsent<T, K>(s: seq<T>, key: T -> K, x: K)
    requires forall y :: y in s ==> key(y) != x
    ensures WithoutKey(s, key, x) == s
  {
    if s == [] {
    } else {
      var front, last := s[..|s| - 1], s[|s| - 1];
      assert last in s;
      WithoutKeyAbsent(front, key, x);
      assert s == front + [last];
    }
  }
}

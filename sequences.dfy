/** Generic facts about mapping and filtering sequences. */
module Sequences {

  function Mapped<T, U>(f: T -> U, s: seq<T>): (r: seq<U>)
    ensures |r| == |s|
    ensures forall i | 0 <= i < |s| :: r[i] == f(s[i])
  {
    seq(|s|, i requires 0 <= i < |s| => f(s[i]))
  }

  /** `s.filter(p)`. */
  function Filtered<T>(p: T -> bool, s: seq<T>): (r: seq<T>)
    ensures |r| <= |s|
    ensures forall x | x in r :: x in s && p(x)
  {
    if s == [] then []
    else (if p(s[0]) then [s[0]] else []) + Filtered(p, s[1..])
  }

  /** `s.filter { !p($0) }`. */
  function Rejected<T>(p: T -> bool, s: seq<T>): (r: seq<T>)
    ensures |r| <= |s|
    ensures forall x | x in r :: x in s && !p(x)
  {
    if s == [] then []
    else (if p(s[0]) then [] else [s[0]]) + Rejected(p, s[1..])
  }

  /** The two filters split a sequence without loss. */
  lemma {:induction false} FilterPartition<T>(p: T -> bool, s: seq<T>)
    ensures multiset(Filtered(p, s)) + multiset(Rejected(p, s)) == multiset(s)
    ensures |Filtered(p, s)| + |Rejected(p, s)| == |s|
  {
    if s != [] {
      FilterPartition(p, s[1..]);
      assert s == [s[0]] + s[1..];
    }
  }

  lemma {:induction false} FilteredConcat<T>(p: T -> bool, a: seq<T>, b: seq<T>)
    ensures Filtered(p, a + b) == Filtered(p, a) + Filtered(p, b)
    decreases |a|
  {
    if a == [] {
      assert a + b == b;
    } else {
      var ab := a + b;
      assert ab[0] == a[0] && ab[1..] == a[1..] + b;
      FilteredConcat(p, a[1..], b);
    }
  }

  lemma {:induction false} RejectedConcat<T>(p: T -> bool, a: seq<T>, b: seq<T>)
    ensures Rejected(p, a + b) == Rejected(p, a) + Rejected(p, b)
    decreases |a|
  {
    if a == [] {
      assert a + b == b;
    } else {
      var ab := a + b;
      assert ab[0] == a[0] && ab[1..] == a[1..] + b;
      RejectedConcat(p, a[1..], b);
    }
  }

  lemma {:induction false} FilterAll<T>(p: T -> bool, a: seq<T>)
    requires forall x | x in a :: p(x)
    ensures Filtered(p, a) == a
    ensures Rejected(p, a) == []
  {
    if a != [] {
      assert a[0] in a;
      FilterAll(p, a[1..]);
    }
  }

  lemma {:induction false} FilterNone<T>(p: T -> bool, b: seq<T>)
    requires forall x | x in b :: !p(x)
    ensures Filtered(p, b) == []
    ensures Rejected(p, b) == b
  {
    if b != [] {
      assert b[0] in b;
      FilterNone(p, b[1..]);
    }
  }

  /** A sequence whose first part satisfies `p` and whose second does not splits back into those parts. */
  lemma FilterSplit<T>(p: T -> bool, a: seq<T>, b: seq<T>)
    requires forall x | x in a :: p(x)
    requires forall x | x in b :: !p(x)
    ensures Filtered(p, a + b) == a
    ensures Rejected(p, a + b) == b
  {
    FilteredConcat(p, a, b);
    RejectedConcat(p, a, b);
    FilterAll(p, a);
    FilterNone(p, b);
  }

  /** Past its first part, a concatenation holds only elements of the second. */
  lemma ConcatTail<T>(p: T -> bool, a: seq<T>, b: seq<T>)
    requires forall x | x in b :: p(x)
    ensures forall i | |a| <= i < |a + b| :: p((a + b)[i])
  {
    forall i | |a| <= i < |a + b| ensures p((a + b)[i]) {
      assert (a + b)[i] == b[i - |a|];
    }
  }

  lemma MappedConcat<T, U>(f: T -> U, a: seq<T>, b: seq<T>)
    ensures Mapped(f, a + b) == Mapped(f, a) + Mapped(f, b)
  {
  }

  lemma RemoveAt<T>(s: seq<T>, k: nat)
    requires k < |s|
    ensures multiset(s[..k] + s[k + 1..]) == multiset(s) - multiset{s[k]}
  {
    assert s == s[..k] + [s[k]] + s[k + 1..];
  }

  lemma MappedCons<T, U>(f: T -> U, s: seq<T>)
    requires s != []
    ensures Mapped(f, s) == [f(s[0])] + Mapped(f, s[1..])
  {
  }

  /** Mapping over a sequence with one element taken out takes out one mapped element. */
  lemma MappedRemoveAt<T, U>(f: T -> U, s: seq<T>, k: nat)
    requires k < |s|
    ensures multiset(Mapped(f, s)) == multiset(Mapped(f, s[..k] + s[k + 1..])) + multiset{f(s[k])}
  {
    var front, back := s[..k], s[k + 1..];
    assert s == front + ([s[k]] + back);
    MappedConcat(f, front, [s[k]] + back);
    MappedConcat(f, [s[k]], back);
    MappedConcat(f, front, back);
    assert Mapped(f, [s[k]]) == [f(s[k])];
  }

  /** An element of a permutation of `b` occurs somewhere in `b`. */
  lemma IndexIn<T>(x: T, b: seq<T>) returns (k: nat)
    requires x in multiset(b)
    ensures k < |b| && b[k] == x
  {
    assert x in b;
    k :| k < |b| && b[k] == x;
  }

  /** Mapping preserves being a permutation. */
  lemma {:induction false} MappedPermutation<T, U>(f: T -> U, a: seq<T>, b: seq<T>)
    requires multiset(a) == multiset(b)
    ensures multiset(Mapped(f, a)) == multiset(Mapped(f, b))
    decreases |a|
  {
    if a == [] {
      assert |b| == |multiset(b)| == 0;
      assert Mapped(f, a) == [] == Mapped(f, b);
    } else {
      var k := IndexIn(a[0], b);
      var rest := b[..k] + b[k + 1..];
      assert multiset(a[1..]) == multiset(rest) by {
        RemoveAt(b, k);
        assert a == [a[0]] + a[1..];
      }
      MappedPermutation(f, a[1..], rest);
      assert multiset(Mapped(f, a)) == multiset(Mapped(f, a[1..])) + multiset{f(a[0])} by {
        MappedCons(f, a);
      }
      assert multiset(Mapped(f, b)) == multiset(Mapped(f, rest)) + multiset{f(a[0])} by {
        MappedRemoveAt(f, b, k);
      }
    }
  }

  /** No element occurs twice. */
  predicate Distinct<T(==)>(s: seq<T>) {
    forall i, j | 0 <= i < j < |s| :: s[i] != s[j]
  }

  /** No two elements share a key. */
  predicate DistinctBy<T, K(==)>(key: T -> K, s: seq<T>) {
    forall i, j | 0 <= i < j < |s| :: key(s[i]) != key(s[j])
  }

  /** In a sequence without repeats, every value occurs at most once. */
  lemma {:induction false} DistinctOnce<T>(s: seq<T>, x: T)
    requires Distinct(s)
    ensures multiset(s)[x] <= 1
    decreases |s|
  {
    if s != [] {
      var rest := s[1..];
      forall i, j | 0 <= i < j < |rest| ensures rest[i] != rest[j] {
        assert rest[i] == s[i + 1] && rest[j] == s[j + 1];
      }
      DistinctOnce(rest, x);
      assert s == [s[0]] + rest;
      forall k | 0 <= k < |rest| ensures rest[k] != s[0] {
        assert rest[k] == s[k + 1];
      }
      assert s[0] !in rest;
    }
  }

  /** A value at two positions occurs at least twice. */
  lemma Repeated<T>(s: seq<T>, i: nat, j: nat)
    requires i < j < |s|
    ensures s[i] == s[j] ==> multiset(s)[s[i]] >= 2
  {
    var front := s[..j];
    assert s == front + [s[j]] + s[j + 1..];
    assert front[i] == s[i];
    assert s[i] in multiset(front);
  }

  /** A permutation of a sequence without repeats has none. */
  lemma DistinctPermutation<T>(a: seq<T>, b: seq<T>)
    requires multiset(a) == multiset(b) && Distinct(a)
    ensures Distinct(b)
  {
    forall i, j | 0 <= i < j < |b| ensures b[i] != b[j] {
      Repeated(b, i, j);
      DistinctOnce(a, b[i]);
    }
  }

  /** A permutation of a sequence whose keys are distinct has distinct keys. */
  lemma DistinctByPermutation<T, K>(key: T -> K, a: seq<T>, b: seq<T>)
    requires multiset(a) == multiset(b) && DistinctBy(key, a)
    ensures DistinctBy(key, b)
  {
    MappedPermutation(key, a, b);
    var ka, kb := Mapped(key, a), Mapped(key, b);
    assert Distinct(ka);
    DistinctPermutation(ka, kb);
    forall i, j | 0 <= i < j < |b| ensures key(b[i]) != key(b[j]) {
      assert kb[i] == key(b[i]) && kb[j] == key(b[j]);
    }
  }

  /** Filtering keeps keys distinct. */
  lemma {:induction false} FilteredDistinctBy<T, K>(p: T -> bool, key: T -> K, s: seq<T>)
    requires DistinctBy(key, s)
    ensures DistinctBy(key, Filtered(p, s))
    decreases |s|
  {
    if s != [] {
      var rest := s[1..];
      forall i, j | 0 <= i < j < |rest| ensures key(rest[i]) != key(rest[j]) {
        assert rest[i] == s[i + 1] && rest[j] == s[j + 1];
      }
      FilteredDistinctBy(p, key, rest);
      var r, tail := Filtered(p, s), Filtered(p, rest);
      if p(s[0]) {
        assert r == [s[0]] + tail;
        forall i, j | 0 <= i < j < |r| ensures key(r[i]) != key(r[j]) {
          assert r[j] == tail[j - 1] && tail[j - 1] in tail;
          var k :| 0 <= k < |rest| && rest[k] == r[j];
          assert s[k + 1] == r[j];
          if i > 0 {
            assert r[i] == tail[i - 1];
          }
        }
      } else {
        assert r == tail;
      }
    }
  }

  /** The function that applies `g` to the elements satisfying `p` and keeps the others. */
  function Choose<T>(p: T -> bool, g: T -> T): T -> T {
    x => if p(x) then g(x) else x
  }

  /**
   * A map that changes only the elements satisfying `p` (by `g`) is, up to
   * order, the changed filtered part next to the untouched rejected part.
   */
  lemma {:induction false} MappedPartition<T>(g: T -> T, p: T -> bool, s: seq<T>)
    ensures multiset(Mapped(Choose(p, g), s)) == multiset(Mapped(g, Filtered(p, s))) + multiset(Rejected(p, s))
  {
    if s != [] {
      MappedPartition(g, p, s[1..]);
      if p(s[0]) {
        MappedPartitionKept(g, p, s);
      } else {
        MappedPartitionRejected(g, p, s);
      }
    }
  }

  lemma MappedPartitionKept<T>(g: T -> T, p: T -> bool, s: seq<T>)
    requires s != [] && p(s[0])
    requires multiset(Mapped(Choose(p, g), s[1..])) == multiset(Mapped(g, Filtered(p, s[1..]))) + multiset(Rejected(p, s[1..]))
    ensures multiset(Mapped(Choose(p, g), s)) == multiset(Mapped(g, Filtered(p, s))) + multiset(Rejected(p, s))
  {
    var f, h, t := Choose(p, g), s[0], s[1..];
    assert f(h) == g(h);
    MappedCons(f, s);
    var kept := Filtered(p, s);
    assert kept == [h] + Filtered(p, t);
    assert Rejected(p, s) == Rejected(p, t);
    MappedCons(g, kept);
    assert kept[1..] == Filtered(p, t);
  }

  lemma MappedPartitionRejected<T>(g: T -> T, p: T -> bool, s: seq<T>)
    requires s != [] && !p(s[0])
    requires multiset(Mapped(Choose(p, g), s[1..])) == multiset(Mapped(g, Filtered(p, s[1..]))) + multiset(Rejected(p, s[1..]))
    ensures multiset(Mapped(Choose(p, g), s)) == multiset(Mapped(g, Filtered(p, s))) + multiset(Rejected(p, s))
  {
    var f, h, t := Choose(p, g), s[0], s[1..];
    assert f(h) == h;
    MappedCons(f, s);
    assert Filtered(p, s) == Filtered(p, t);
    assert Rejected(p, s) == [h] + Rejected(p, t);
  }
}

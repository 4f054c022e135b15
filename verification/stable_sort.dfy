/** Array.prototype.sort with a comparator, as the stable insertion sort the language requires:
    lt(a, b) holds when the comparator puts a strictly before b. */
module StableSort {

  /** An irreflexive, transitive "strictly before" relation. */
  ghost predicate StrictOrder<T(!new)>(lt: (T, T) -> bool) {
    && (forall a :: !lt(a, a))
    && (forall a, b, c :: lt(a, b) && lt(b, c) ==> lt(a, c))
  }

  /** No element is strictly before one that precedes it. */
  predicate Sorted<T>(s: seq<T>, lt: (T, T) -> bool) {
    forall i, j :: 0 <= i < j < |s| ==> !lt(s[j], s[i])
  }

  /** Puts x after every leading element it does not strictly precede. */
  function Insert<T>(x: T, s: seq<T>, lt: (T, T) -> bool): (r: seq<T>)
    ensures multiset(r) == multiset(s) + multiset{x}
    ensures |r| == |s| + 1
  {
    if s == [] then [x]
    else if lt(x, s[0]) then [x] + s
    else
      assert s == [s[0]] + s[1..];
      [s[0]] + Insert(x, s[1..], lt)
  }

  /** Inserts the elements one by one, in input order. The result is a sorted permutation, and
      equivalent elements keep their input order. */
  function Sort<T(!new)>(s: seq<T>, lt: (T, T) -> bool): (r: seq<T>)
    ensures multiset(r) == multiset(s)
    ensures |r| == |s|
    ensures StrictOrder(lt) ==> Sorted(r, lt)
    ensures StrictWeakOrder(lt) ==> forall x :: Class(r, x, lt) == Class(s, x, lt)
  {
    if s == [] then []
    else
      var prefix := s[..|s| - 1];
      assert s == prefix + [s[|s| - 1]];
      var sorted := Sort(prefix, lt);
      SortStep(s[|s| - 1], prefix, sorted, lt);
      Insert(s[|s| - 1], sorted, lt)
  }

  /** Incomparability is transitive as well: a strict weak order, as sort comparators must be. */
  ghost predicate StrictWeakOrder<T(!new)>(lt: (T, T) -> bool) {
    && StrictOrder(lt)
    && (forall a, b, c :: lt(a, b) ==> lt(a, c) || lt(c, b))
  }

  /** Neither element is strictly before the other. */
  predicate Equiv<T>(a: T, b: T, lt: (T, T) -> bool) {
    !lt(a, b) && !lt(b, a)
  }

  /** The elements of s equivalent to x, in their order in s. */
  function Class<T>(s: seq<T>, x: T, lt: (T, T) -> bool): seq<T> {
    if s == [] then [] else (if Equiv(s[0], x, lt) then [s[0]] else []) + Class(s[1..], x, lt)
  }

  lemma {:induction false} ClassConcat<T>(a: seq<T>, b: seq<T>, x: T, lt: (T, T) -> bool)
    ensures Class(a + b, x, lt) == Class(a, x, lt) + Class(b, x, lt)
  {
    if a != [] {
      assert (a + b)[0] == a[0] && (a + b)[1..] == a[1..] + b;
      ClassConcat(a[1..], b, x, lt);
    } else {
      assert a + b == b;
    }
  }

  /** With no element equivalent to x, the class of x is empty. */
  lemma {:induction false} ClassEmpty<T>(s: seq<T>, x: T, lt: (T, T) -> bool)
    requires forall k :: 0 <= k < |s| ==> !Equiv(s[k], x, lt)
    ensures Class(s, x, lt) == []
  {
    if s != [] {
      assert forall k :: 1 <= k < |s| ==> s[k] == s[1..][k - 1];
      ClassEmpty(s[1..], x, lt);
    }
  }

  /** Inserting y into a sorted sequence puts it after every element equivalent to it. */
  lemma {:induction false} InsertStable<T(!new)>(y: T, s: seq<T>, x: T, lt: (T, T) -> bool)
    requires StrictWeakOrder(lt) && Sorted(s, lt)
    ensures Class(Insert(y, s, lt), x, lt) == Class(s, x, lt) + (if Equiv(y, x, lt) then [y] else [])
  {
    if s == [] {
    } else if lt(y, s[0]) {
      if Equiv(y, x, lt) {
        assert Class(s, x, lt) == [] by {
          forall k | 0 <= k < |s|
            ensures !Equiv(s[k], x, lt)
          {
            BeforeHeadNotEquiv(y, s, k, x, lt);
          }
          ClassEmpty(s, x, lt);
        }
      }
      InsertFrontClass(y, s, x, lt);
    } else {
      var tail := s[1..];
      assert Sorted(tail, lt) by {
        forall i, j | 0 <= i < j < |tail| ensures !lt(tail[j], tail[i]) {
          assert tail[i] == s[i + 1] && tail[j] == s[j + 1];
        }
      }
      InsertStable(y, tail, x, lt);
      InsertLaterClass(y, s, x, lt);
    }
  }

  /** Inserting y in front of s: its class gains y first, which is also last when s has none. */
  lemma InsertFrontClass<T>(y: T, s: seq<T>, x: T, lt: (T, T) -> bool)
    requires s != [] && lt(y, s[0])
    requires Equiv(y, x, lt) ==> Class(s, x, lt) == []
    ensures Class(Insert(y, s, lt), x, lt) == Class(s, x, lt) + (if Equiv(y, x, lt) then [y] else [])
  {
    assert Insert(y, s, lt) == [y] + s;
    assert ([y] + s)[1..] == s;
  }

  /** Inserting y past the head of s: the head's contribution stays in front. */
  lemma InsertLaterClass<T>(y: T, s: seq<T>, x: T, lt: (T, T) -> bool)
    requires s != [] && !lt(y, s[0])
    requires Class(Insert(y, s[1..], lt), x, lt) == Class(s[1..], x, lt) + (if Equiv(y, x, lt) then [y] else [])
    ensures Class(Insert(y, s, lt), x, lt) == Class(s, x, lt) + (if Equiv(y, x, lt) then [y] else [])
  {
    var rest := Insert(y, s[1..], lt);
    var head := if Equiv(s[0], x, lt) then [s[0]] else [];
    var last := if Equiv(y, x, lt) then [y] else [];
    assert Insert(y, s, lt) == [s[0]] + rest;
    assert ([s[0]] + rest)[1..] == rest;
    assert Class([s[0]] + rest, x, lt) == head + Class(rest, x, lt);
    assert Class(s, x, lt) == head + Class(s[1..], x, lt);
    ConcatAssoc(head, Class(s[1..], x, lt), last);
  }

  /** Concatenation is associative. */
  lemma ConcatAssoc<T>(a: seq<T>, b: seq<T>, c: seq<T>)
    ensures a + (b + c) == (a + b) + c
  {
  }

  /** What y strictly precedes the head of a sorted sequence, no element of it is equivalent to
      anything equivalent to y. */
  lemma BeforeHeadNotEquiv<T(!new)>(y: T, s: seq<T>, k: int, x: T, lt: (T, T) -> bool)
    requires StrictWeakOrder(lt) && Sorted(s, lt) && 0 <= k < |s|
    requires lt(y, s[0]) && Equiv(y, x, lt)
    ensures !Equiv(s[k], x, lt)
  {
    if k > 0 {
      assert !lt(s[k], s[0]);
    }
    assert lt(y, s[k]);
    assert lt(y, x) || lt(x, s[k]);
  }

  /** One step of Sort: inserting the last element into the sorted prefix. */
  lemma SortStep<T(!new)>(last: T, prefix: seq<T>, sorted: seq<T>, lt: (T, T) -> bool)
    requires StrictOrder(lt) ==> Sorted(sorted, lt)
    requires StrictWeakOrder(lt) ==> forall x :: Class(sorted, x, lt) == Class(prefix, x, lt)
    ensures StrictOrder(lt) ==> Sorted(Insert(last, sorted, lt), lt)
    ensures StrictWeakOrder(lt) ==> forall x :: Class(Insert(last, sorted, lt), x, lt) == Class(prefix + [last], x, lt)
  {
    if StrictOrder(lt) {
      InsertSorted(last, sorted, lt);
    }
    if StrictWeakOrder(lt) {
      forall x
        ensures Class(Insert(last, sorted, lt), x, lt) == Class(prefix + [last], x, lt)
      {
        InsertStable(last, sorted, x, lt);
        ClassConcat(prefix, [last], x, lt);
        assert Class([last], x, lt) == (if Equiv(last, x, lt) then [last] else []);
      }
    }
  }

  lemma {:induction false} InsertSorted<T(!new)>(x: T, s: seq<T>, lt: (T, T) -> bool)
    requires StrictOrder(lt) && Sorted(s, lt)
    ensures Sorted(Insert(x, s, lt), lt)
  {
    if s != [] {
      if lt(x, s[0]) {
        var r := [x] + s;
        forall i, j | 0 <= i < j < |r| ensures !lt(r[j], r[i]) {
          if i == 0 {
            assert r[j] == s[j - 1];
            assert !lt(s[j - 1], s[0]);
          } else {
            assert r[i] == s[i - 1] && r[j] == s[j - 1];
          }
        }
      } else {
        var tail := Insert(x, s[1..], lt);
        InsertSorted(x, s[1..], lt);
        var r := [s[0]] + tail;
        forall i, j | 0 <= i < j < |r| ensures !lt(r[j], r[i]) {
          if i == 0 {
            assert r[j] in multiset(tail);
            assert r[j] in multiset(s[1..]) + multiset{x};
            if r[j] != x {
              assert r[j] in s[1..];
              var k :| 0 <= k < |s[1..]| && s[1..][k] == r[j];
              assert s[k + 1] == r[j];
            }
          } else {
            assert r[i] == tail[i - 1] && r[j] == tail[j - 1];
          }
        }
      }
    }
  }
}

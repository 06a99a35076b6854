/** Facts about sorted sequences, subsequences and filters that several components share. */
module Sequences {

  ghost predicate StrictlyAscending(s: seq<int>) {
    forall i, j :: 0 <= i < j < |s| ==> s[i] < s[j]
  }

  ghost function Elements<T>(s: seq<T>): (r: set<T>)
  {
    set x | x in s
  }

  lemma Pick<T>(s: set<T>) returns (x: T)
    requires s != {}
    ensures x in s
  {
    x :| x in s;
  }

  lemma {:induction false} LeastExists(s: set<int>)
    requires s != {}
    ensures exists m :: m in s && forall x :: x in s ==> m <= x
  {
    var x := Pick(s);
    var rest := s - {x};
    if rest == {} {
      assert s == {x};
    } else {
      LeastExists(rest);
      var m :| m in rest && forall y :: y in rest ==> m <= y;
      var least := if x < m then x else m;
      assert forall y :: y in s ==> y == x || y in rest;
      assert least in s && forall y :: y in s ==> least <= y;
    }
  }

  ghost function Least(s: set<int>): (m: int)
    requires s != {}
    ensures m in s && forall x :: x in s ==> m <= x
  {
    LeastExists(s);
    var m :| m in s && forall x :: x in s ==> m <= x;
    m
  }

  /** The elements of a set in ascending order. */
  ghost function Sorted(s: set<int>): (r: seq<int>)
    ensures StrictlyAscending(r) && Elements(r) == s
  {
    if s == {} then []
    else
      var m := Least(s);
      var rest := Sorted(s - {m});
      assert forall x :: x in [m] + rest <==> x == m || x in Elements(rest);
      [m] + rest
  }

  lemma AscendingTail(a: seq<int>)
    requires StrictlyAscending(a) && a != []
    ensures StrictlyAscending(a[1..]) && Elements(a[1..]) == Elements(a) - {a[0]}
    ensures a[0] in Elements(a) && forall x :: x in Elements(a) ==> a[0] <= x
  {
    assert forall i :: 1 <= i < |a| ==> a[1..][i - 1] == a[i];
    assert a == [a[0]] + a[1..];
  }

  /** An ascending sequence is determined by its elements. */
  lemma {:induction false} AscendingIsUnique(a: seq<int>, b: seq<int>)
    requires StrictlyAscending(a) && StrictlyAscending(b) && Elements(a) == Elements(b)
    ensures a == b
  {
    assert forall i :: 0 <= i < |a| ==> a[i] in Elements(a);
    assert forall i :: 0 <= i < |b| ==> b[i] in Elements(b);
    if a != [] && b != [] {
      AscendingTail(a);
      AscendingTail(b);
      AscendingIsUnique(a[1..], b[1..]);
      assert a == [a[0]] + a[1..] && b == [b[0]] + b[1..];
    } else {
      assert a == [] <==> Elements(a) == {};
      assert b == [] <==> Elements(b) == {};
    }
  }

  function Front<T>(s: seq<T>): seq<T>
    requires s != []
  {
    s[..|s| - 1]
  }

  function Final<T>(s: seq<T>): T
    requires s != []
  {
    s[|s| - 1]
  }

  /** `a` is what is left of `b` when some elements are dropped. */
  ghost predicate Subsequence<T>(a: seq<T>, b: seq<T>)
    decreases b
  {
    || a == []
    || (b != [] && a != [] && Final(a) == Final(b) && Subsequence(Front(a), Front(b)))
    || (b != [] && Subsequence(a, Front(b)))
  }

  lemma SubsequenceAppend<T>(a: seq<T>, b: seq<T>, x: T)
    requires Subsequence(a, b)
    ensures Subsequence(a + [x], b + [x]) && Subsequence(a, b + [x])
  {
    assert Front(b + [x]) == b && Front(a + [x]) == a;
  }

  /** Dropping one more element keeps a subsequence. */
  lemma {:induction false} SubsequenceDrop<T>(front: seq<T>, x: T, back: seq<T>, b: seq<T>)
    requires Subsequence(front + [x] + back, b)
    ensures Subsequence(front + back, b)
    decreases b
  {
    var a := front + [x] + back;
    if b != [] {
      if Final(a) == Final(b) && Subsequence(Front(a), Front(b)) {
        if back == [] {
          assert Front(a) == front && front + back == front;
        } else {
          assert Front(a) == front + [x] + Front(back);
          SubsequenceDrop(front, x, Front(back), Front(b));
          assert front + back != [] && Front(front + back) == front + Front(back);
        }
      } else {
        SubsequenceDrop(front, x, back, Front(b));
      }
    }
  }

  ghost predicate Pairwise<T(!new)>(rel: (T, T) -> bool, s: seq<T>) {
    forall i, j :: 0 <= i < j < |s| ==> rel(s[i], s[j])
  }

  lemma {:induction false} SubsequenceMember<T>(a: seq<T>, b: seq<T>, x: T)
    requires Subsequence(a, b) && x in a
    ensures x in b
    decreases b
  {
    if Final(a) == Final(b) && Subsequence(Front(a), Front(b)) {
      if x != Final(a) {
        var i :| 0 <= i < |a| && a[i] == x;
        assert Front(a)[i] == x;
        SubsequenceMember(Front(a), Front(b), x);
      }
    } else {
      SubsequenceMember(a, Front(b), x);
    }
  }

  /** A relation between every earlier and later element survives dropping elements. */
  lemma {:induction false} SubsequencePairwise<T(!new)>(rel: (T, T) -> bool, a: seq<T>, b: seq<T>)
    requires Subsequence(a, b) && Pairwise(rel, b)
    ensures Pairwise(rel, a)
    decreases b
  {
    if a != [] {
      if Final(a) == Final(b) && Subsequence(Front(a), Front(b)) {
        SubsequencePairwise(rel, Front(a), Front(b));
        forall i, j | 0 <= i < j < |a|
          ensures rel(a[i], a[j])
        {
          if j == |a| - 1 {
            assert Front(a)[i] == a[i];
            SubsequenceMember(Front(a), Front(b), a[i]);
            var k :| 0 <= k < |Front(b)| && Front(b)[k] == a[i];
            assert rel(b[k], b[|b| - 1]);
          } else {
            assert rel(Front(a)[i], Front(a)[j]);
          }
        }
      } else {
        SubsequencePairwise(rel, a, Front(b));
      }
    }
  }
}

/** Small facts about sequences used by the host-ordering logic. */
module Lists {

  /** Number of occurrences of `x` in `s`. */
  function Count<T(==)>(s: seq<T>, x: T): nat
  {
    if s == [] then 0 else (if s[0] == x then 1 else 0) + Count(s[1..], x)
  }

  /** `s` with every entry equal to `x` dropped, the rest kept in order. */
  function Without<T(==)>(s: seq<T>, x: T): (r: seq<T>)
    ensures |r| <= |s|
    ensures forall i :: 0 <= i < |r| ==> r[i] != x
    ensures forall i :: 0 <= i < |r| ==> r[i] in s
  {
    if s == [] then []
    else (if s[0] == x then [] else [s[0]]) + Without(s[1..], x)
  }

  lemma {:induction false} CountAppend<T>(a: seq<T>, b: seq<T>, x: T)
    ensures Count(a + b, x) == Count(a, x) + Count(b, x)
  {
    if a == [] {
      assert a + b == b;
    } else {
      assert (a + b)[1..] == a[1..] + b;
      CountAppend(a[1..], b, x);
    }
  }

  /** Dropping `x` removes all its copies and keeps every other entry's multiplicity. */
  lemma {:induction false} CountWithout<T>(s: seq<T>, x: T, y: T)
    ensures Count(Without(s, x), y) == if y == x then 0 else Count(s, y)
  {
    if s != [] {
      var head := if s[0] == x then [] else [s[0]];
      CountAppend(head, Without(s[1..], x), y);
      CountWithout(s[1..], x, y);
    }
  }

  /** The number of entries `Without` keeps. */
  lemma {:induction false} WithoutLength<T>(s: seq<T>, x: T)
    ensures |Without(s, x)| == |s| - Count(s, x)
  {
    if s != [] {
      WithoutLength(s[1..], x);
    }
  }

  lemma {:induction false} CountAbsent<T>(s: seq<T>, x: T)
    requires x !in s
    ensures Count(s, x) == 0
  {
    if s != [] {
      CountAbsent(s[1..], x);
    }
  }

  /** An entry no other entry equals occurs exactly once. */
  lemma {:induction false} CountUnique<T>(s: seq<T>, k: nat)
    requires k < |s|
    requires forall j :: 0 <= j < |s| && j != k ==> s[j] != s[k]
    ensures Count(s, s[k]) == 1
  {
    if k == 0 {
      assert s[0] !in s[1..] by {
        forall j | 0 <= j < |s| - 1
          ensures s[1..][j] != s[0]
        {
          assert s[1..][j] == s[j + 1];
        }
      }
      CountAbsent(s[1..], s[0]);
    } else {
      assert s[1..][k - 1] == s[k];
      forall j | 0 <= j < |s| - 1 && j != k - 1
        ensures s[1..][j] != s[1..][k - 1]
      {
        assert s[1..][j] == s[j + 1];
      }
      CountUnique(s[1..], k - 1);
    }
  }
}

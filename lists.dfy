/**
 * The array idiom shared by the favourites list and the seat selection:
 * `list.includes(x) ? list.filter(y => y !== x) : [...list, x]`.
 */
module Lists {

  predicate NoDuplicates<T(==)>(s: seq<T>) {
    forall i, j :: 0 <= i < j < |s| ==> s[i] != s[j]
  }

  /** `s.filter(y => y !== x)`: every occurrence of `x` goes, everything else keeps its order. */
  function RemoveAll<T(==)>(s: seq<T>, x: T): (r: seq<T>)
    ensures x !in r
  {
    if s == [] then []
    else if s[0] == x then RemoveAll(s[1..], x)
    else [s[0]] + RemoveAll(s[1..], x)
  }

  /** The filter drops exactly the occurrences of `x`: every other value keeps its count. */
  lemma {:induction false} RemoveAllContents<T>(s: seq<T>, x: T)
    ensures multiset(RemoveAll(s, x)) == multiset(s)[x := 0]
  {
    if s != [] {
      RemoveAllContents(s[1..], x);
      assert s == [s[0]] + s[1..];
    }
  }

  /** `s.includes(x) ? s.filter(y => y !== x) : [...s, x]`. */
  function Toggle<T(==)>(s: seq<T>, x: T): (r: seq<T>)
    ensures x in r <==> x !in s
  {
    if x in s then RemoveAll(s, x) else s + [x]
  }

  /** Toggling changes the count of `x` only: to zero if present, to one if absent. */
  lemma ToggleContents<T>(s: seq<T>, x: T)
    ensures multiset(Toggle(s, x)) == if x in s then multiset(s)[x := 0] else multiset(s) + multiset{x}
  {
    if x in s {
      RemoveAllContents(s, x);
    }
  }

  /** Filtering out a value that is not there changes nothing. */
  lemma {:induction false} RemoveAllAbsent<T>(s: seq<T>, x: T)
    requires x !in s
    ensures RemoveAll(s, x) == s
  {
    if s != [] {
      RemoveAllAbsent(s[1..], x);
      assert s == [s[0]] + s[1..];
    }
  }

  lemma {:induction false} RemoveAllAppend<T>(a: seq<T>, b: seq<T>, x: T)
    ensures RemoveAll(a + b, x) == RemoveAll(a, x) + RemoveAll(b, x)
  {
    if a == [] {
      assert a + b == b;
    } else {
      RemoveAllAppend(a[1..], b, x);
      assert (a + b)[0] == a[0];
      assert (a + b)[1..] == a[1..] + b;
      if a[0] == x {
        calc {
          RemoveAll(a + b, x);
          RemoveAll(a[1..] + b, x);
          RemoveAll(a[1..], x) + RemoveAll(b, x);
          RemoveAll(a, x) + RemoveAll(b, x);
        }
      } else {
        calc {
          RemoveAll(a + b, x);
          [a[0]] + RemoveAll(a[1..] + b, x);
          [a[0]] + (RemoveAll(a[1..], x) + RemoveAll(b, x));
          ([a[0]] + RemoveAll(a[1..], x)) + RemoveAll(b, x);
          RemoveAll(a, x) + RemoveAll(b, x);
        }
      }
    }
  }

  /** Toggling a value that is not in the list twice gives the list back. */
  lemma ToggleTwiceAbsent<T>(s: seq<T>, x: T)
    requires x !in s
    ensures Toggle(s, x) == s + [x]
    ensures Toggle(Toggle(s, x), x) == s
  {
    RemoveAllAppend(s, [x], x);
    RemoveAllAbsent(s, x);
    assert RemoveAll([x], x) == [];
  }

  /** Filtering keeps a duplicate-free list duplicate-free. */
  lemma {:induction false} RemoveAllNoDuplicates<T>(s: seq<T>, x: T)
    requires NoDuplicates(s)
    ensures NoDuplicates(RemoveAll(s, x))
  {
    if s != [] {
      assert NoDuplicates(s[1..]) by {
        forall i, j | 0 <= i < j < |s[1..]| ensures s[1..][i] != s[1..][j] {
          assert s[1..][i] == s[i + 1] && s[1..][j] == s[j + 1];
        }
      }
      RemoveAllNoDuplicates(s[1..], x);
      if s[0] != x {
        assert s[0] !in s[1..] by {
          forall k | 0 <= k < |s[1..]| ensures s[1..][k] != s[0] {
            assert s[1..][k] == s[k + 1];
          }
        }
        var r := RemoveAll(s[1..], x);
        RemoveAllContents(s[1..], x);
        assert multiset(r)[s[0]] == 0;
        forall i, j | 0 <= i < j < |[s[0]] + r| ensures ([s[0]] + r)[i] != ([s[0]] + r)[j] {
          if i == 0 {
            assert ([s[0]] + r)[j] == r[j - 1];
          } else {
            assert ([s[0]] + r)[i] == r[i - 1] && ([s[0]] + r)[j] == r[j - 1];
          }
        }
      }
    }
  }

  /** Toggling keeps a duplicate-free list duplicate-free. */
  lemma ToggleNoDuplicates<T>(s: seq<T>, x: T)
    requires NoDuplicates(s)
    ensures NoDuplicates(Toggle(s, x))
  {
    if x in s {
      RemoveAllNoDuplicates(s, x);
    } else {
      var r := s + [x];
      forall i, j | 0 <= i < j < |r| ensures r[i] != r[j] {
        if j == |s| {
          assert r[i] == s[i];
        }
      }
    }
  }
}

/** The set-like list toggle that the dashboard uses for the feedback status
    and category filters and for the passage tags: a value already in the list
    is filtered out (every occurrence of it), a value not in the list is
    appended at the end. */
module Lists {

  /** No element occurs twice. */
  predicate NoDup<T(==)>(s: seq<T>) {
    forall i, j :: 0 <= i < j < |s| ==> s[i] != s[j]
  }

  /** `r` is obtained from `s` by deleting some elements, keeping the order of
      the rest. */
  predicate Subsequence<T(==)>(r: seq<T>, s: seq<T>)
    decreases |s|
  {
    if r == [] then true
    else if s == [] then false
    else if r[0] == s[0] then Subsequence(r[1..], s[1..])
    else Subsequence(r, s[1..])
  }

  lemma {:induction false} SubsequenceDropHead<T>(r: seq<T>, s: seq<T>)
    requires r != [] && Subsequence(r, s)
    ensures Subsequence(r[1..], s)
    decreases |s|, 0
  {
    if r[0] != s[0] {
      SubsequenceDropHead(r, s[1..]);
      SubsequencePrepend(r[1..], s[1..], s[0]);
      assert [s[0]] + s[1..] == s;
    } else {
      SubsequencePrepend(r[1..], s[1..], s[0]);
      assert [s[0]] + s[1..] == s;
    }
  }

  lemma {:induction false} SubsequencePrepend<T>(r: seq<T>, s: seq<T>, a: T)
    requires Subsequence(r, s)
    ensures Subsequence(r, [a] + s)
    decreases |s|, 1
  {
    var t := [a] + s;
    assert t[1..] == s;
    if r != [] && r[0] == a {
      SubsequenceDropHead(r, s);
    }
  }

  /** JavaScript `s.filter((y) => y !== x)`. */
  function Remove<T(==)>(s: seq<T>, x: T): (r: seq<T>)
  {
    if s == [] then []
    else if s[0] == x then Remove(s[1..], x)
    else [s[0]] + Remove(s[1..], x)
  }

  /** Remove deletes every occurrence of `x` and nothing else, and keeps the
      others in their order. */
  lemma {:induction false} RemoveSpec<T>(s: seq<T>, x: T)
    ensures multiset(Remove(s, x)) == multiset(s)[x := 0]
    ensures Subsequence(Remove(s, x), s)
    ensures x !in Remove(s, x)
    ensures forall y :: y != x ==> (y in Remove(s, x) <==> y in s)
  {
    if s != [] {
      RemoveSpec(s[1..], x);
      assert s == [s[0]] + s[1..];
      assert multiset(s) == multiset{s[0]} + multiset(s[1..]);
      if s[0] == x {
        SubsequencePrepend(Remove(s[1..], x), s[1..], s[0]);
      } else {
        var r := Remove(s, x);
        assert r[0] == s[0] && r[1..] == Remove(s[1..], x);
      }
    }
    var r := Remove(s, x);
    assert multiset(r)[x] == 0;
    forall y | y != x ensures y in r <==> y in s {
      assert multiset(r)[y] == multiset(s)[y];
    }
  }

  /** Removing a value that is not there changes nothing. */
  lemma {:induction false} RemoveAbsent<T>(s: seq<T>, x: T)
    requires x !in s
    ensures Remove(s, x) == s
  {
    if s != [] {
      RemoveAbsent(s[1..], x);
      assert s == [s[0]] + s[1..];
    }
  }

  /** Remove distributes over concatenation. */
  lemma {:induction false} RemoveAppend<T>(s: seq<T>, t: seq<T>, x: T)
    ensures Remove(s + t, x) == Remove(s, x) + Remove(t, x)
  {
    if s != [] {
      RemoveAppend(s[1..], t, x);
      assert (s + t)[1..] == s[1..] + t;
    } else {
      assert s + t == t;
    }
  }

  /** The toggle: filter `x` out when present, append it when absent. */
  function Toggle<T(==)>(s: seq<T>, x: T): (r: seq<T>)
    ensures x in r <==> x !in s
  {
    RemoveSpec(s, x);
    if x in s then Remove(s, x) else s + [x]
  }

  /** Toggling `x` flips the membership of `x` and of nothing else. */
  lemma ToggleMembership<T>(s: seq<T>, x: T)
    ensures forall y :: y != x ==> (y in Toggle(s, x) <==> y in s)
  {
    RemoveSpec(s, x);
  }

  /** Toggling a present value removes all its occurrences, keeps every other
      element with its multiplicity and keeps their order. */
  lemma TogglePresent<T>(s: seq<T>, x: T)
    requires x in s
    ensures multiset(Toggle(s, x)) == multiset(s)[x := 0]
    ensures Subsequence(Toggle(s, x), s)
  {
    RemoveSpec(s, x);
  }

  /** Toggling an absent value appends it and keeps the existing entries. */
  lemma ToggleAbsent<T>(s: seq<T>, x: T)
    requires x !in s
    ensures |Toggle(s, x)| == |s| + 1
    ensures Toggle(s, x)[..|s|] == s && Toggle(s, x)[|s|] == x
  {
  }

  /** A duplicate-free selection stays duplicate-free. */
  lemma ToggleKeepsNoDup<T>(s: seq<T>, x: T)
    requires NoDup(s)
    ensures NoDup(Toggle(s, x))
  {
    if x in s {
      RemoveSpec(s, x);
      NoDupCount(s);
      NoDupFromCount(Remove(s, x));
    }
  }

  /* NoDup means every multiplicity is at most one, and conversely. */
  lemma {:induction false} NoDupCount<T>(s: seq<T>)
    requires NoDup(s)
    ensures forall y :: multiset(s)[y] <= 1
  {
    if s != [] {
      assert s == [s[0]] + s[1..];
      assert NoDup(s[1..]) by {
        forall i, j | 0 <= i < j < |s[1..]| ensures s[1..][i] != s[1..][j] {
          assert s[1..][i] == s[i + 1] && s[1..][j] == s[j + 1];
        }
      }
      NoDupCount(s[1..]);
      assert s[0] !in s[1..] by {
        forall k | 0 <= k < |s[1..]| ensures s[1..][k] != s[0] {
          assert s[1..][k] == s[k + 1];
        }
      }
      assert multiset(s) == multiset{s[0]} + multiset(s[1..]);
    }
  }

  lemma {:induction false} NoDupFromCount<T>(s: seq<T>)
    requires forall y :: multiset(s)[y] <= 1
    ensures NoDup(s)
  {
    if s != [] {
      assert s == [s[0]] + s[1..];
      assert multiset(s) == multiset{s[0]} + multiset(s[1..]);
      forall y ensures multiset(s[1..])[y] <= 1 {
        assert multiset(s)[y] >= multiset(s[1..])[y];
      }
      NoDupFromCount(s[1..]);
      assert multiset(s)[s[0]] == 1 + multiset(s[1..])[s[0]];
      forall i, j | 0 <= i < j < |s| ensures s[i] != s[j] {
        if i == 0 {
          assert s[j] == s[1..][j - 1];
          assert s[j] in s[1..];
        } else {
          assert s[i] == s[1..][i - 1] && s[j] == s[1..][j - 1];
        }
      }
    }
  }

  /** Toggling an absent value twice gives back exactly the original list. */
  lemma ToggleTwiceAbsent<T>(s: seq<T>, x: T)
    requires x !in s
    ensures Toggle(Toggle(s, x), x) == s
  {
    RemoveAppend(s, [x], x);
    RemoveAbsent(s, x);
    assert Remove([x], x) == [];
  }

  /** Toggling a present value twice gives back the same elements (for a
      duplicate-free list, the same multiset), but `x` moves to the end. */
  lemma ToggleTwicePresent<T>(s: seq<T>, x: T)
    requires x in s && NoDup(s)
    ensures Toggle(Toggle(s, x), x) == Remove(s, x) + [x]
    ensures multiset(Toggle(Toggle(s, x), x)) == multiset(s)
  {
    RemoveSpec(s, x);
    NoDupCount(s);
    assert multiset(s)[x] == 1;
  }

  /** For a duplicate-free list holding `x`, toggling `x` twice restores the
      list exactly when `x` is its last element. */
  lemma ToggleTwiceRestoresIffLast<T>(s: seq<T>, x: T)
    requires x in s && NoDup(s)
    ensures Toggle(Toggle(s, x), x) == s <==> s[|s| - 1] == x
  {
    ToggleTwicePresent(s, x);
    if s[|s| - 1] == x {
      var init := s[..|s| - 1];
      assert s == init + [x];
      assert x !in init by {
        forall i | 0 <= i < |init| ensures init[i] != x {
          assert s[i] != s[|s| - 1];
        }
      }
      RemoveAppend(init, [x], x);
      RemoveAbsent(init, x);
      assert Remove([x], x) == [];
    }
  }

  /** So the second toggle does not restore the order in general. */
  lemma ToggleTwiceReorders()
    ensures Toggle(Toggle([1, 2], 1), 1) == [2, 1]
  {
    assert 1 in [1, 2];
    assert Remove([1, 2], 1) == [2] by {
      assert [1, 2][1..] == [2];
      assert [2][1..] == [];
    }
    assert 1 !in [2];
  }
}

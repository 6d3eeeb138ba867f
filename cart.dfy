/**
 The session cart (`session["carrinho"]`): an ordered list of book ids.
 These functions give the new list after each in-place update of the handlers
 `adicionar_carrinho` and `remover_carrinho`.
 */
module Cart {

  /** No id is listed twice. */
  predicate NoDuplicates(s: seq<int>) {
    forall i, j :: 0 <= i < j < |s| ==> s[i] != s[j]
  }

  /**
   The cart after `adicionar_carrinho(id)`: the id is appended at the end
   unless it is already listed; the catalog is not consulted.
   */
  function Add(cart: seq<int>, id: int): (r: seq<int>)
    ensures id in r
    ensures forall x :: x in r <==> x in cart || x == id
    ensures |r| == if id in cart then |cart| else |cart| + 1
    ensures r[..|cart|] == cart
    ensures NoDuplicates(cart) ==> NoDuplicates(r)
  {
    if id in cart then cart else cart + [id]
  }

  /** Adding the same id twice is the same as adding it once. */
  lemma AddIdempotent(cart: seq<int>, id: int)
    ensures Add(Add(cart, id), id) == Add(cart, id)
  {
  }

  /** A list headed by `h` is free of duplicates exactly when its tail is and does not list `h`. */
  lemma NoDuplicatesCons(h: int, t: seq<int>)
    ensures NoDuplicates([h] + t) <==> h !in t && NoDuplicates(t)
  {
    var s := [h] + t;
    assert forall i :: 0 <= i < |t| ==> s[i + 1] == t[i];
    if h !in t && NoDuplicates(t) {
      forall i, j | 0 <= i < j < |s| ensures s[i] != s[j] {
        assert s[j] == t[j - 1];
        if i > 0 {
          assert s[i] == t[i - 1];
        }
      }
    }
    if NoDuplicates(s) {
      forall i, j | 0 <= i < j < |t| ensures t[i] != t[j] {
        assert s[i + 1] == t[i] && s[j + 1] == t[j];
      }
      forall k | 0 <= k < |t| ensures t[k] != h {
        assert s[0] == h && s[k + 1] == t[k];
      }
    }
  }

  /** Adding 1, 2 and 1 again to an empty cart lists 1 and 2 once each. */
  lemma AddExamples()
    ensures Add([], 1) == [1] && Add([1], 2) == [1, 2] && Add([1, 2], 1) == [1, 2]
  {
  }

  /**
   Python's `list.remove(x)`, which `remover_carrinho` calls only when `x` is
   listed: the first occurrence of `x` goes, everything else stays.
   */
  function RemoveFirst(s: seq<int>, x: int): (r: seq<int>)
    ensures x !in s ==> r == s
    ensures x in s ==> |r| == |s| - 1
    ensures forall y :: y in r ==> y in s
    ensures forall y :: y != x ==> (y in r <==> y in s)
    ensures NoDuplicates(s) ==> NoDuplicates(r) && x !in r
  {
    if s == [] then []
    else
      assert s == [s[0]] + s[1..];
      NoDuplicatesCons(s[0], s[1..]);
      if s[0] == x then s[1..]
      else
        var rest := RemoveFirst(s[1..], x);
        NoDuplicatesCons(s[0], rest);
        [s[0]] + rest
  }

  /** Exactly one copy of a listed id goes; nothing else is lost or gained. */
  lemma {:induction false} RemoveFirstMultiset(s: seq<int>, x: int)
    ensures multiset(RemoveFirst(s, x)) == multiset(s) - multiset{x}
  {
    if s != [] {
      assert s == [s[0]] + s[1..];
      if s[0] != x {
        RemoveFirstMultiset(s[1..], x);
        assert RemoveFirst(s, x) == [s[0]] + RemoveFirst(s[1..], x);
      }
    }
  }

  /** In a duplicate-free list every listed id occurs exactly once. */
  lemma {:induction false} NoDuplicatesCount(s: seq<int>, x: int)
    requires NoDuplicates(s)
    ensures multiset(s)[x] == if x in s then 1 else 0
  {
    if s != [] {
      assert s == [s[0]] + s[1..];
      NoDuplicatesCons(s[0], s[1..]);
      NoDuplicatesCount(s[1..], x);
    }
  }

  /** Two duplicate-free lists with the same members are permutations of each other. */
  lemma SameMembersPermutation(a: seq<int>, b: seq<int>)
    requires NoDuplicates(a) && NoDuplicates(b)
    requires forall x :: x in a <==> x in b
    ensures multiset(a) == multiset(b)
  {
    forall x ensures multiset(a)[x] == multiset(b)[x] {
      NoDuplicatesCount(a, x);
      NoDuplicatesCount(b, x);
    }
  }

  /** The ids of `s` other than `x`, in their original order. */
  function Without(s: seq<int>, x: int): (r: seq<int>)
    ensures x !in r
    ensures forall y :: y in r <==> y in s && y != x
    ensures |r| <= |s|
  {
    if s == [] then []
    else if s[0] == x then Without(s[1..], x)
    else [s[0]] + Without(s[1..], x)
  }

  /**
   On a cart without duplicates, removal deletes the id and keeps every
   other id in its original relative order.
   */
  lemma {:induction false} RemoveFirstIsWithout(s: seq<int>, x: int)
    requires NoDuplicates(s)
    ensures RemoveFirst(s, x) == Without(s, x)
  {
    if s != [] {
      assert s == [s[0]] + s[1..];
      NoDuplicatesCons(s[0], s[1..]);
      if s[0] == x {
        WithoutAbsent(s[1..], x);
      } else {
        RemoveFirstIsWithout(s[1..], x);
      }
    }
  }

  /** Filtering out an absent id changes nothing. */
  lemma {:induction false} WithoutAbsent(s: seq<int>, x: int)
    requires x !in s
    ensures Without(s, x) == s
  {
    if s != [] {
      WithoutAbsent(s[1..], x);
    }
  }
}

/**
 * Order-preserving selection from a sequence: the shape of every
 * "loop over a list, append what passes a test" in the star index and the
 * star service.
 */
module Seqs {

  /** The elements of `s` that pass `keep`, in their original order. */
  function Select<T(!new)>(s: seq<T>, keep: T -> bool): (r: seq<T>)
    ensures |r| <= |s|
  {
    if s == [] then []
    else
      var init := s[..|s| - 1];
      var last := s[|s| - 1];
      assert s == init + [last];
      if keep(last) then Select(init, keep) + [last] else Select(init, keep)
  }

  /** An element is selected exactly when it occurs and passes. */
  lemma {:induction false} SelectMembers<T(!new)>(s: seq<T>, keep: T -> bool)
    ensures forall x :: x in Select(s, keep) <==> x in s && keep(x)
    decreases |s|
  {
    if s != [] {
      var init := s[..|s| - 1];
      assert s == init + [s[|s| - 1]];
      SelectMembers(init, keep);
    }
  }

  /** Each element is kept as often as it occurs, or dropped entirely. */
  lemma {:induction false} SelectMultiset<T(!new)>(s: seq<T>, keep: T -> bool)
    ensures forall x :: multiset(Select(s, keep))[x] == if keep(x) then multiset(s)[x] else 0
    decreases |s|
  {
    if s != [] {
      var init := s[..|s| - 1];
      assert s == init + [s[|s| - 1]];
      SelectMultiset(init, keep);
    }
  }

  /** Selecting from one more element extends the previous selection. */
  lemma SelectSnoc<T(!new)>(s: seq<T>, i: nat, keep: T -> bool)
    requires i < |s|
    ensures Select(s[..i + 1], keep) ==
            Select(s[..i], keep) + (if keep(s[i]) then [s[i]] else [])
  {
    assert s[..i + 1][..i] == s[..i];
  }

  /** Selection distributes over concatenation. */
  lemma {:induction false} SelectConcat<T(!new)>(a: seq<T>, b: seq<T>, keep: T -> bool)
    ensures Select(a + b, keep) == Select(a, keep) + Select(b, keep)
    decreases |b|
  {
    if b == [] {
      assert a + b == a;
    } else {
      var init := b[..|b| - 1];
      var last := b[|b| - 1];
      assert (a + b)[..|a + b| - 1] == a + init;
      assert (a + b)[|a + b| - 1] == last;
      SelectConcat(a, init, keep);
    }
  }

  /** Nothing is selected when no element passes. */
  lemma SelectNone<T(!new)>(s: seq<T>, keep: T -> bool)
    requires forall x :: x in s ==> !keep(x)
    ensures Select(s, keep) == []
  {
    SelectMembers(s, keep);
    if Select(s, keep) != [] {
      assert Select(s, keep)[0] in Select(s, keep);
    }
  }
}

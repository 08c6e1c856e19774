/**
 * Duplicate-free sequences, and the permission merge `[...new Set([...a, ...b])]`:
 * a JavaScript Set keeps its elements in first-insertion order, so spreading it
 * back into an array keeps the first occurrence of every element, in order.
 */
module UniqueSeq {

  /** A permission name, such as "read" or "write". */
  type Permission = string

  /** No element occurs twice. */
  ghost predicate NoDups(s: seq<Permission>) {
    forall i, j :: 0 <= i < j < |s| ==> s[i] != s[j]
  }

  /** `[...new Set(s)]`: the first occurrence of every element of `s`, in order. */
  function Dedup(s: seq<Permission>): (r: seq<Permission>)
    ensures NoDups(r)
    ensures forall x :: x in r <==> x in s
    ensures |r| <= |s|
  {
    if s == [] then []
    else
      var init, last := s[..|s| - 1], s[|s| - 1];
      assert s == init + [last];
      var d := Dedup(init);
      if last in d then d else d + [last]
  }

  /** The elements of `b` that do not occur in `a`, in their order in `b`. */
  function Without(b: seq<Permission>, a: seq<Permission>): (r: seq<Permission>)
    ensures forall x :: x in r <==> x in b && x !in a
    ensures |r| <= |b|
  {
    if b == [] then []
    else
      var init, last := b[..|b| - 1], b[|b| - 1];
      assert b == init + [last];
      var w := Without(init, a);
      if last in a then w else w + [last]
  }

  /**
   * The merge of a stored permission list `a` with a staged list `b`:
   * `[...new Set([...a, ...b])]`. Its result is duplicate-free and holds
   * exactly the elements of both lists.
   */
  function Union(a: seq<Permission>, b: seq<Permission>): (r: seq<Permission>)
    ensures NoDups(r)
    ensures forall x :: x in r <==> x in a || x in b
  {
    Dedup(a + b)
  }

  /** De-duplicating a list that has no duplicates gives it back unchanged. */
  lemma {:induction false} DedupOfNoDups(s: seq<Permission>)
    requires NoDups(s)
    ensures Dedup(s) == s
  {
    if s != [] {
      var init, last := s[..|s| - 1], s[|s| - 1];
      assert NoDups(init) by {
        forall i, j | 0 <= i < j < |init| ensures init[i] != init[j] {
          assert init[i] == s[i] && init[j] == s[j];
        }
      }
      DedupOfNoDups(init);
      assert last !in init by {
        forall i | 0 <= i < |init| ensures init[i] != last {
          assert init[i] == s[i] && last == s[|s| - 1];
        }
      }
      assert init + [last] == s;
    }
  }

  /** Unfolds `Dedup` at its last element. */
  lemma DedupSnoc(s: seq<Permission>, x: Permission)
    ensures Dedup(s + [x]) == if x in Dedup(s) then Dedup(s) else Dedup(s) + [x]
  {
    assert (s + [x])[..|s|] == s;
  }

  /** Unfolds `Without` at the last element of its first argument. */
  lemma WithoutSnoc(b: seq<Permission>, x: Permission, a: seq<Permission>)
    ensures Without(b + [x], a) == if x in a then Without(b, a) else Without(b, a) + [x]
  {
    assert (b + [x])[..|b|] == b;
  }

  /**
   * De-duplicating a concatenation: the de-duplicated first part, followed by
   * the de-duplicated elements of the second part that the first lacks.
   */
  lemma {:induction false} DedupAppend(a: seq<Permission>, b: seq<Permission>)
    ensures Dedup(a + b) == Dedup(a) + Dedup(Without(b, a))
  {
    if b == [] {
      assert a + b == a;
    } else {
      var init, last := b[..|b| - 1], b[|b| - 1];
      assert b == init + [last];
      assert a + b == (a + init) + [last];
      var d, w := Dedup(a + init), Without(init, a);
      DedupAppend(a, init);
      assert d == Dedup(a) + Dedup(w);
      DedupSnoc(a + init, last);
      assert Dedup(a + b) == if last in d then d else d + [last];
      WithoutSnoc(init, last, a);
      if last in a {
        assert Without(b, a) == w;
        assert last in d;
      } else {
        assert Without(b, a) == w + [last];
        DedupSnoc(w, last);
        assert last in d <==> last in Dedup(w);
      }
    }
  }

  /** Nothing is left of a list whose elements all occur in `a`. */
  lemma {:induction false} WithoutCovered(b: seq<Permission>, a: seq<Permission>)
    requires forall x :: x in b ==> x in a
    ensures Without(b, a) == []
  {
    if b != [] {
      var init, last := b[..|b| - 1], b[|b| - 1];
      assert b == init + [last];
      WithoutCovered(init, a);
      WithoutSnoc(init, last, a);
    }
  }

  /**
   * Merging into a duplicate-free list keeps that list as a prefix, in its
   * order, and appends the staged elements it did not have, once each.
   */
  lemma UnionKeepsExisting(a: seq<Permission>, b: seq<Permission>)
    requires NoDups(a)
    ensures Union(a, b) == a + Dedup(Without(b, a))
    ensures Union(a, b)[..|a|] == a
  {
    DedupAppend(a, b);
    DedupOfNoDups(a);
  }

  /** Merging a list whose elements are all present already changes nothing. */
  lemma UnionAbsorbs(a: seq<Permission>, b: seq<Permission>)
    requires NoDups(a)
    requires forall x :: x in b ==> x in a
    ensures Union(a, b) == a
  {
    UnionKeepsExisting(a, b);
    WithoutCovered(b, a);
  }
}

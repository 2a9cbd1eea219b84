/**
 * A JavaScript `Set` as the reactive cell uses it for its subscribers: a
 * sequence without duplicates, kept in insertion order (the order in which
 * `for ... of` visits the elements).
 */
module OrderedSet {

  /** No element occurs twice. */
  ghost predicate Distinct<T>(s: seq<T>)
  {
    forall i, j :: 0 <= i < j < |s| ==> s[i] != s[j]
  }

  /** `Set.prototype.add`: a new element goes last; an element already present keeps its place. */
  function Add<T(==)>(s: seq<T>, x: T): (r: seq<T>)
    ensures x in r
    ensures forall y :: y in s ==> y in r
    ensures forall y :: y in r ==> y in s || y == x
    ensures x in s ==> r == s
    ensures |s| <= |r| <= |s| + 1 && r[..|s|] == s
    ensures Distinct(s) ==> Distinct(r)
  {
    if x in s then s else s + [x]
  }

  /** `Set.prototype.delete`: removes `x` and keeps every other element, in order. */
  function Delete<T(==)>(s: seq<T>, x: T): (r: seq<T>)
    ensures x !in r
    ensures forall y :: y in r ==> y in s
    ensures forall y :: y in s && y != x ==> y in r
    ensures x !in s ==> r == s
    ensures |r| <= |s|
    ensures Distinct(s) ==> Distinct(r)
    ensures Distinct(s) && x in s ==> |r| == |s| - 1
  {
    if s == [] then []
    else if s[0] == x then Delete(s[1..], x)
    else
      var rest := Delete(s[1..], x);
      assert Distinct(s) ==> s[0] !in rest && Distinct(s[1..]) by {
        if Distinct(s) {
          forall i | 1 <= i < |s| ensures s[i] != s[0] { }
          assert s[0] !in s[1..];
        }
      }
      [s[0]] + rest
  }

  /** Deleting the element at position `i` of a duplicate-free sequence closes the gap and moves nothing else. */
  lemma {:induction false} DeleteAt<T>(s: seq<T>, i: nat)
    requires Distinct(s) && i < |s|
    ensures Delete(s, s[i]) == s[..i] + s[i + 1..]
  {
    if i > 0 {
      assert s[1..][i - 1] == s[i];
      DeleteAt(s[1..], i - 1);
      assert s[1..][..i - 1] + s[1..][i..] == s[1..i] + s[i + 1..];
      assert [s[0]] + s[1..i] == s[..i];
    } else {
      assert s[0] !in s[1..];
    }
  }

  /** Deleting twice is deleting once: a second unsubscribe changes nothing. */
  lemma DeleteIdempotent<T>(s: seq<T>, x: T)
    ensures Delete(Delete(s, x), x) == Delete(s, x)
  {
  }

  /** Removing an element that was just added restores the set exactly, order included. */
  lemma {:induction false} DeleteUndoesAdd<T>(s: seq<T>, x: T)
    requires x !in s
    ensures Delete(Add(s, x), x) == s
  {
    if s != [] {
      assert (s + [x])[1..] == s[1..] + [x];
      DeleteUndoesAdd(s[1..], x);
    }
  }

  /** Adding or deleting `x` does not change the position of any other element relative to the rest: deleting `y` commutes with adding `x`. */
  lemma {:induction false} DeleteOtherAfterAdd<T>(s: seq<T>, x: T, y: T)
    requires x != y
    ensures Delete(Add(s, x), y) == Add(Delete(s, y), x)
  {
    if x !in s {
      DeleteAppend(s, [x], y);
    }
  }

  /** Deletion distributes over concatenation. */
  lemma {:induction false} DeleteAppend<T>(s: seq<T>, t: seq<T>, x: T)
    ensures Delete(s + t, x) == Delete(s, x) + Delete(t, x)
  {
    if s != [] {
      assert (s + t)[0] == s[0];
      assert (s + t)[1..] == s[1..] + t;
      DeleteAppend(s[1..], t, x);
    } else {
      assert s + t == t;
    }
  }
}

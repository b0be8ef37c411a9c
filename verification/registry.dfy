/**
 * The child-coordinator registry of the main coordinator, as a value.
 *
 * The registry is an ordered list compared by identity. In Dafny, `==` on a
 * class type is reference identity, so instantiating `T` with a class gives
 * exactly the `===` comparison the registry uses; the functions here are
 * generic so that they say nothing about what the entries are.
 */
module Registry {

  /** No entry occurs twice: the registry is an ordered set. */
  predicate NoDuplicates<T(==)>(s: seq<T>)
  {
    forall i, j | 0 <= i < j < |s| :: s[i] != s[j]
  }

  /**
   * The registry after adding `c`: when `c` is already present nothing
   * happens, otherwise `c` goes at the end.
   */
  function Added<T(==)>(s: seq<T>, c: T): (r: seq<T>)
    ensures c in r
    ensures s <= r && |r| <= |s| + 1
    ensures forall i | 0 <= i < |r| :: r[i] in s || r[i] == c
    ensures r == s <==> c in s
  {
    if c in s then s else s + [c]
  }

  /**
   * The registry after removing `c`: every entry identical to `c` is
   * deleted, the others stay in their order.
   */
  function RemoveAll<T(==)>(s: seq<T>, c: T): (r: seq<T>)
    ensures c !in r
    ensures forall i | 0 <= i < |r| :: r[i] in s
    ensures forall i | 0 <= i < |s| :: s[i] != c ==> s[i] in r
    ensures |r| <= |s|
    ensures r == s <==> c !in s
  {
    if s == [] then []
    else if s[0] == c then RemoveAll(s[1..], c)
    else [s[0]] + RemoveAll(s[1..], c)
  }

  /** The registry after adding each of `cs` in turn, starting from `s`. */
  function AddEach<T(==)>(s: seq<T>, cs: seq<T>): (r: seq<T>)
    ensures s <= r
    ensures forall i | 0 <= i < |cs| :: cs[i] in r
    ensures forall i | 0 <= i < |r| :: r[i] in s || r[i] in cs
    decreases cs
  {
    if cs == [] then s else AddEach(Added(s, cs[0]), cs[1..])
  }

  /** Adding keeps the registry free of duplicates. */
  lemma AddedNoDuplicates<T>(s: seq<T>, c: T)
    requires NoDuplicates(s)
    ensures NoDuplicates(Added(s, c))
  {
  }

  /**
   * A registry that only ever grows through adding never holds the same
   * entry twice.
   */
  lemma {:induction false} AddEachNoDuplicates<T>(s: seq<T>, cs: seq<T>)
    requires NoDuplicates(s)
    ensures NoDuplicates(AddEach(s, cs))
    decreases cs
  {
    if cs != [] {
      AddedNoDuplicates(s, cs[0]);
      AddEachNoDuplicates(Added(s, cs[0]), cs[1..]);
    }
  }

  /** Removing keeps the registry free of duplicates. */
  lemma {:induction false} RemoveAllNoDuplicates<T>(s: seq<T>, c: T)
    requires NoDuplicates(s)
    ensures NoDuplicates(RemoveAll(s, c))
  {
    if s != [] {
      var tail := s[1..];
      assert NoDuplicates(tail) by {
        forall i, j | 0 <= i < j < |tail| ensures tail[i] != tail[j] {
          assert tail[i] == s[i + 1] && tail[j] == s[j + 1];
        }
      }
      RemoveAllNoDuplicates(tail, c);
      if s[0] != c {
        var rest := RemoveAll(tail, c);
        var r := [s[0]] + rest;
        assert s[0] !in tail by {
          forall j | 0 <= j < |tail| ensures tail[j] != s[0] {
            assert tail[j] == s[j + 1];
          }
        }
        forall i, j | 0 <= i < j < |r| ensures r[i] != r[j] {
          assert r[j] == rest[j - 1];
          if i > 0 {
            assert r[i] == rest[i - 1];
          }
        }
      }
    }
  }

  /**
   * Removal works entry by entry: removing from a concatenation is the
   * concatenation of the removals, so the surviving entries keep their order.
   */
  lemma {:induction false} RemoveAllDistributes<T>(a: seq<T>, b: seq<T>, c: T)
    ensures RemoveAll(a + b, c) == RemoveAll(a, c) + RemoveAll(b, c)
  {
    if a != [] {
      assert (a + b)[1..] == a[1..] + b;
      RemoveAllDistributes(a[1..], b, c);
    } else {
      assert a + b == b;
    }
  }

  /**
   * Removal deletes exactly the occurrences of `c`: every other entry keeps
   * its number of occurrences.
   */
  lemma {:induction false} RemoveAllCounts<T>(s: seq<T>, c: T)
    ensures multiset(RemoveAll(s, c)) == multiset(s)[c := 0]
  {
    if s != [] {
      RemoveAllCounts(s[1..], c);
      assert s == [s[0]] + s[1..];
      assert multiset(s) == multiset{s[0]} + multiset(s[1..]);
    }
  }

  /**
   * Add-then-remove with a new entry that was not registered: the net effect
   * is the removal followed by appending the new entry, whether or not the
   * removed entry was registered.
   */
  lemma {:induction false} AddThenRemove<T>(s: seq<T>, outgoing: T, incoming: T)
    requires incoming !in s && incoming != outgoing
    ensures RemoveAll(Added(s, incoming), outgoing) == RemoveAll(s, outgoing) + [incoming]
  {
    RemoveAllDistributes(s, [incoming], outgoing);
    assert RemoveAll([incoming], outgoing) == [incoming] + RemoveAll([], outgoing);
  }
}

/** The Python list operations the service applies to its stored key lists and name lists. */
module Lists {

  /** No element occurs twice. */
  predicate NoDup<T(==)>(s: seq<T>)
  {
    forall i, j :: 0 <= i < j < |s| ==> s[i] != s[j]
  }

  /** Python's `s.remove(x)`: drops the first occurrence of `x`. It raises when `x` is absent;
      `deleteSessionInWishlist` and `_conferenceRegistration` check `x in s` before calling it. */
  function RemoveFirst<T(==)>(s: seq<T>, x: T): (r: seq<T>)
    requires x in s
    ensures |r| == |s| - 1
  {
    if s[0] == x then s[1..] else [s[0]] + RemoveFirst(s[1..], x)
  }

  /** Position of the first occurrence of `x`, the one `list.remove` deletes. */
  function FirstIndex<T(==)>(s: seq<T>, x: T): (i: nat)
    requires x in s
    ensures i < |s| && s[i] == x && x !in s[..i]
  {
    if s[0] == x then 0 else 1 + FirstIndex(s[1..], x)
  }

  /** `list.remove` keeps the elements before the first occurrence in place and shifts the ones
      after it down by one. */
  lemma {:induction false} RemoveFirstAt<T>(s: seq<T>, x: T)
    requires x in s
    ensures forall k :: 0 <= k < FirstIndex(s, x) ==> RemoveFirst(s, x)[k] == s[k]
    ensures forall k :: FirstIndex(s, x) <= k < |s| - 1 ==> RemoveFirst(s, x)[k] == s[k + 1]
  {
    if s[0] != x {
      var t := s[1..];
      RemoveFirstAt(t, x);
      var r := RemoveFirst(s, x);
      assert forall k :: 1 <= k < |r| ==> r[k] == RemoveFirst(t, x)[k - 1];
    }
  }

  /** `list.remove` cuts the list at the first occurrence and closes the gap. */
  lemma RemoveFirstSplits<T>(s: seq<T>, x: T)
    requires x in s
    ensures RemoveFirst(s, x) == s[..FirstIndex(s, x)] + s[FirstIndex(s, x) + 1..]
  {
    RemoveFirstAt(s, x);
    var i := FirstIndex(s, x);
    var r, q := RemoveFirst(s, x), s[..i] + s[i + 1..];
    assert |q| == |r|;
    forall k | 0 <= k < |r| ensures r[k] == q[k] {
      if k < i {
        assert q[k] == s[k];
      } else {
        assert q[k] == s[k + 1];
      }
    }
  }

  /** Removing drops exactly one copy of `x` and keeps every other element. */
  lemma {:induction false} RemoveFirstMultiset<T>(s: seq<T>, x: T)
    requires x in s
    ensures multiset(RemoveFirst(s, x)) == multiset(s) - multiset{x}
  {
    assert s == [s[0]] + s[1..];
    if s[0] != x {
      RemoveFirstMultiset(s[1..], x);
    }
  }

  /** On a duplicate-free list, removal keeps it duplicate-free and leaves no copy of `x`. */
  lemma RemoveFirstNoDup<T>(s: seq<T>, x: T)
    requires x in s && NoDup(s)
    ensures NoDup(RemoveFirst(s, x)) && x !in RemoveFirst(s, x)
  {
    RemoveFirstAt(s, x);
    var i := FirstIndex(s, x);
    var r := RemoveFirst(s, x);
    forall a, b | 0 <= a < b < |r| ensures r[a] != r[b] {
      var a' := if a < i then a else a + 1;
      var b' := if b < i then b else b + 1;
      assert r[a] == s[a'] && r[b] == s[b'];
    }
    forall k | 0 <= k < |r| ensures r[k] != x {
      var k' := if k < i then k else k + 1;
      assert r[k] == s[k'];
    }
  }

  /** Appending a key that was absent and then removing it gives the original list back. */
  lemma {:induction false} RemoveFirstAfterAppend<T>(s: seq<T>, x: T)
    requires x !in s
    ensures RemoveFirst(s + [x], x) == s
  {
    if s != [] {
      assert (s + [x])[1..] == s[1..] + [x];
      RemoveFirstAfterAppend(s[1..], x);
      assert s == [s[0]] + s[1..];
    }
  }

  /** Python's `sep.join(parts)`. */
  function Join(parts: seq<string>, sep: string): (r: string)
    ensures |parts| == 1 ==> r == parts[0]
  {
    if |parts| == 0 then ""
    else if |parts| == 1 then parts[0]
    else parts[0] + sep + Join(parts[1..], sep)
  }
}

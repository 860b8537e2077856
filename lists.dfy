/**
 * The C# List<T> operations the game code relies on, as functions on
 * sequences: RemoveAt, Remove (first occurrence) and the absence of repeats.
 */
module Lists {
  /** List.RemoveAt(i): the list without its i-th entry, the rest in order. */
  function RemoveAt<T>(s: seq<T>, i: nat): (r: seq<T>)
    requires i < |s|
    ensures |r| == |s| - 1
  {
    assert forall j :: 0 <= j < i ==> s[j] == (s[..i] + s[i + 1..])[j];
    assert forall j :: i < j < |s| ==> s[j] == (s[..i] + s[i + 1..])[j - 1];
    s[..i] + s[i + 1..]
  }

  /** List.Remove(x): drop the first occurrence of x, if any. */
  function RemoveFirst<T(==)>(s: seq<T>, x: T): (r: seq<T>)
    ensures x in s ==> |r| == |s| - 1
    ensures x !in s ==> r == s
    ensures forall q :: q in r ==> q in s
    ensures forall q :: q in s && q != x ==> q in r
  {
    if s == [] then []
    else if s[0] == x then s[1..]
    else [s[0]] + RemoveFirst(s[1..], x)
  }

  /** The index of the first occurrence of x. */
  function FirstIndex<T(==)>(s: seq<T>, x: T): (i: nat)
    requires x in s
    ensures i < |s| && s[i] == x && x !in s[..i]
  {
    if s[0] == x then 0
    else
      assert x in s[1..] by {
        var k :| 0 <= k < |s| && s[k] == x;
        assert s[1..][k - 1] == x;
      }
      var j := FirstIndex(s[1..], x);
      assert s[..j + 1] == [s[0]] + s[1..][..j];
      j + 1
  }

  /**
   * What List.Remove keeps: the entry dropped is the first occurrence of x,
   * and the entries before and after it stay in order.
   */
  lemma {:induction false} RemoveFirstSplit<T>(s: seq<T>, x: T)
    requires x in s
    ensures RemoveFirst(s, x) == s[..FirstIndex(s, x)] + s[FirstIndex(s, x) + 1..]
  {
    if s[0] == x {
      assert FirstIndex(s, x) == 0 && s[..0] + s[0 + 1..] == s[1..];
    } else {
      var t := s[1..];
      var j := FirstIndex(t, x);
      RemoveFirstSplit(t, x);
      assert FirstIndex(s, x) == j + 1;
      assert RemoveFirst(s, x) == [s[0]] + RemoveFirst(t, x);
      assert s == [s[0]] + t;
      ConsSplit(s[0], t, j);
    }
  }

  /** Splitting round index j + 1 of a + t is splitting t round j with a in front. */
  lemma ConsSplit<T>(a: T, t: seq<T>, j: nat)
    requires j < |t|
    ensures [a] + (t[..j] + t[j + 1..]) == ([a] + t)[..j + 1] + ([a] + t)[j + 2..]
  {
    assert ([a] + t)[..j + 1] == [a] + t[..j];
    assert ([a] + t)[j + 2..] == t[j + 1..];
  }

  /** No entry occurs twice. */
  predicate Distinct<T(==)>(s: seq<T>)
  {
    forall i, j :: 0 <= i < j < |s| ==> s[i] != s[j]
  }

  /** What remains after RemoveAt was in the list: every entry but the i-th, in order. */
  lemma RemoveAtEntries<T>(s: seq<T>, i: nat)
    requires i < |s|
    ensures forall j :: 0 <= j < |RemoveAt(s, i)| ==> RemoveAt(s, i)[j] == s[if j < i then j else j + 1]
    ensures forall q :: q in RemoveAt(s, i) ==> q in s
  {
  }

  /** Removing an entry from a list without repeats leaves a list without repeats, without that entry. */
  lemma {:induction false} RemoveAtDistinct<T>(s: seq<T>, i: nat)
    requires i < |s| && Distinct(s)
    ensures Distinct(RemoveAt(s, i)) && s[i] !in RemoveAt(s, i)
  {
    var r := RemoveAt(s, i);
    assert r == s[..i] + s[i + 1..];
    forall a | 0 <= a < |r| ensures r[a] == s[if a < i then a else a + 1] {
    }
  }

  /** Removing the first occurrence from a list without repeats removes the element entirely. */
  lemma {:induction false} RemoveFirstGone<T>(s: seq<T>, x: T)
    requires Distinct(s)
    ensures x !in RemoveFirst(s, x)
    ensures Distinct(RemoveFirst(s, x))
  {
    if s != [] && s[0] != x {
      assert Distinct(s[1..]);
      RemoveFirstGone(s[1..], x);
      assert s[0] !in s[1..];
    }
  }
}

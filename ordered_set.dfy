/** Insertion-ordered sets, as JavaScript's `Set` behaves: `add` of a new element
    appends it, `add` of a present element changes nothing, `delete` removes the
    element wherever it is, and iteration visits elements in insertion order. */
module OrderedSet {

  /** No element occurs twice. */
  predicate NoDup<T(==)>(s: seq<T>) {
    forall i, j :: 0 <= i < j < |s| ==> s[i] != s[j]
  }

  /** `set.add(x)`. */
  function Add<T(==,!new)>(s: seq<T>, x: T): (r: seq<T>)
    ensures NoDup(s) ==> NoDup(r)
    ensures forall y :: y in r <==> y in s || y == x
    ensures x in s ==> r == s
    ensures x !in s ==> r == s + [x]
  {
    if x in s then s else s + [x]
  }

  /** `set.delete(x)`. */
  function Delete<T(==,!new)>(s: seq<T>, x: T): (r: seq<T>)
    ensures x !in r
    ensures forall y :: y != x ==> (y in r <==> y in s)
    ensures |r| <= |s|
    ensures NoDup(s) ==> NoDup(r)
  {
    if s == [] then []
    else if s[0] == x then Delete(s[1..], x)
    else
      var t := Delete(s[1..], x);
      assert forall y :: y in t ==> y in s[1..];
      assert NoDup(s) ==> s[0] !in t by {
        if NoDup(s) {
          forall y | y in t ensures y != s[0] {
            var k :| 0 <= k < |s[1..]| && s[1..][k] == y;
            assert s[k + 1] == y;
          }
        }
      }
      [s[0]] + t
  }

  /** Deleting an absent element changes nothing. */
  lemma {:induction false} DeleteAbsent<T(!new)>(s: seq<T>, x: T)
    requires x !in s
    ensures Delete(s, x) == s
  {
    if s != [] {
      assert s[0] in s;
      DeleteAbsent(s[1..], x);
      assert [s[0]] + s[1..] == s;
    }
  }

  /** Deleting a present element of a duplicate-free sequence removes it at its position
      and keeps the others in their order. */
  lemma {:induction false} DeletePresent<T(!new)>(s: seq<T>, x: T) returns (i: nat)
    requires NoDup(s) && x in s
    ensures i < |s| && s[i] == x
    ensures Delete(s, x) == s[..i] + s[i + 1..]
  {
    var t := s[1..];
    NoDupTail(s);
    if s[0] == x {
      i := 0;
      DeleteAbsent(t, x);
      assert s[..0] + s[1..] == t;
    } else {
      assert x in t by { assert s == [s[0]] + t; }
      var j := DeletePresent(t, x);
      i := j + 1;
      assert Delete(s, x) == [s[0]] + Delete(t, x);
      assert s[..i] == [s[0]] + t[..j];
      assert s[i + 1..] == t[j + 1..];
    }
  }

  /** The tail of a duplicate-free sequence is duplicate-free and misses the head. */
  lemma NoDupTail<T>(s: seq<T>)
    requires NoDup(s) && s != []
    ensures NoDup(s[1..]) && s[0] !in s[1..]
  {
    var t := s[1..];
    forall a, b | 0 <= a < b < |t| ensures t[a] != t[b] {
      assert t[a] == s[a + 1] && t[b] == s[b + 1];
    }
    forall k | 0 <= k < |t| ensures t[k] != s[0] {
      assert t[k] == s[k + 1];
    }
  }

  /** Adding an element twice keeps one copy; adding and then deleting it is the same as
      deleting it. */
  lemma AddIdempotent<T(!new)>(s: seq<T>, x: T)
    ensures Add(Add(s, x), x) == Add(s, x)
  {
  }

  lemma {:induction false} DeleteAfterAdd<T(!new)>(s: seq<T>, x: T)
    ensures Delete(Add(s, x), x) == Delete(s, x)
  {
    if x !in s {
      DeleteAbsent(s, x);
      DeleteAppended(s, x);
    }
  }

  lemma {:induction false} DeleteAppended<T(!new)>(s: seq<T>, x: T)
    requires x !in s
    ensures Delete(s + [x], x) == s
  {
    if s == [] {
      assert Delete([x], x) == Delete([x][1..], x);
    } else {
      assert s[0] in s;
      assert (s + [x])[0] == s[0] && (s + [x])[1..] == s[1..] + [x];
      DeleteAppended(s[1..], x);
      assert [s[0]] + s[1..] == s;
    }
  }
}

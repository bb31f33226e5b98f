/** Flow identifiers and the few sequence operations shared by every component. */
module Flows {

  /** A byte of a UTF-8 string or of a response body. */
  newtype byte = x: int | 0 <= x < 256

  /** A flow identifier: the UTF-8 bytes of the string the source wraps. */
  type FlowId = seq<byte>

  datatype Option<+T> = None | Some(value: T)

  ghost predicate NoDup<T>(s: seq<T>) {
    forall i, j :: 0 <= i < j < |s| ==> s[i] != s[j]
  }

  /** `retain(|id| id != x)`. */
  function Without<T(==,!new)>(s: seq<T>, x: T): (r: seq<T>)
    ensures forall y :: y in r <==> y in s && y != x
    ensures |r| <= |s|
  {
    if s == [] then []
    else if s[0] == x then Without(s[1..], x)
    else [s[0]] + Without(s[1..], x)
  }

  lemma {:induction false} WithoutAbsent<T(!new)>(s: seq<T>, x: T)
    requires x !in s
    ensures Without(s, x) == s
  {
    if s != [] {
      assert s[0] in s;
      WithoutAbsent(s[1..], x);
    }
  }

  /** In a duplicate-free listing, dropping an entry closes the gap and keeps the order. */
  lemma {:induction false} WithoutAt<T(!new)>(s: seq<T>, i: nat)
    requires NoDup(s) && i < |s|
    ensures Without(s, s[i]) == s[..i] + s[i + 1..]
  {
    if i == 0 {
      WithoutAbsent(s[1..], s[0]);
    } else {
      assert s[1..][i - 1] == s[i] && s[0] != s[i];
      WithoutAt(s[1..], i - 1);
      assert s[..i] == [s[0]] + s[1..][..i - 1];
      assert s[1..][i - 1 + 1..] == s[i + 1..];
    }
  }

  lemma WithoutNoDup<T(!new)>(s: seq<T>, x: T)
    requires NoDup(s)
    ensures NoDup(Without(s, x))
  {
    if x in s {
      var i :| 0 <= i < |s| && s[i] == x;
      WithoutAt(s, i);
    } else {
      WithoutAbsent(s, x);
    }
  }

  /** The position of an entry that is present. */
  function IndexOf<T(==,!new)>(s: seq<T>, x: T): (i: nat)
    requires x in s
    ensures i < |s| && s[i] == x && x !in s[..i]
  {
    if s[0] == x then 0
    else
      var j := IndexOf(s[1..], x);
      assert s[..j + 1] == [s[0]] + s[1..][..j];
      j + 1
  }

  lemma IndexOfUnique<T(!new)>(s: seq<T>, i: nat)
    requires NoDup(s) && i < |s|
    ensures IndexOf(s, s[i]) == i
  {
    var j := IndexOf(s, s[i]);
    assert s[j] == s[i];
  }
}

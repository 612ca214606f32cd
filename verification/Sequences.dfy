/** Facts about duplicate-free sequences, the model of the `std::vector` members the server keeps. */
module Sequences {

  datatype Option<+T> = None | Some(value: T)

  ghost predicate NoDup<T>(s: seq<T>) {
    forall i, j :: 0 <= i < j < |s| ==> s[i] != s[j]
  }

  /** `find` followed by `erase`: the sequence without the first occurrence of `x`. */
  function Erase<T(==)>(s: seq<T>, x: T): (r: seq<T>)
    ensures x !in s ==> r == s
    ensures x in s ==> |r| == |s| - 1
    ensures forall y :: y in r ==> y in s
    ensures forall y :: y in s && y != x ==> y in r
  {
    if s == [] then []
    else if s[0] == x then s[1..]
    else
      assert s == [s[0]] + s[1..];
      [s[0]] + Erase(s[1..], x)
  }

  /** The rest stays in order. */
  lemma {:induction false} EraseCuts<T>(s: seq<T>, x: T, i: nat)
    requires i < |s| && s[i] == x && x !in s[..i]
    ensures Erase(s, x) == s[..i] + s[i + 1..]
  {
    if i > 0 {
      assert s[0] in s[..i] && forall y :: y in s[1..][..i - 1] ==> y in s[..i];
      EraseCuts(s[1..], x, i - 1);
      assert s[..i] == [s[0]] + s[1..][..i - 1];
    }
  }

  lemma {:induction false} EraseNoDup<T>(s: seq<T>, x: T)
    requires NoDup(s)
    ensures NoDup(Erase(s, x)) && x !in Erase(s, x)
  {
    if s != [] {
      EraseNoDup(s[1..], x);
      assert s[0] !in s[1..];
    }
  }
}

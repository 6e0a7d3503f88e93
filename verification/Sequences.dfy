/** Removal from a list: one position, or everything with a key. */
module Sequences {

  function RemoveAt<T>(s: seq<T>, i: nat): (r: seq<T>)
    requires i < |s|
    ensures |r| == |s| - 1
  {
    s[..i] + s[i + 1..]
  }

  function WithoutKey<T>(s: seq<T>, key: T -> nat, k: nat): seq<T> {
    if s == [] then []
    else if key(s[0]) == k then WithoutKey(s[1..], key, k)
    else [s[0]] + WithoutKey(s[1..], key, k)
  }

  lemma {:induction false} WithoutKeyMembers<T>(s: seq<T>, key: T -> nat, k: nat)
    ensures forall x :: x in WithoutKey(s, key, k) <==> x in s && key(x) != k
  {
    if s == [] {
    } else {
      WithoutKeyMembers(s[1..], key, k);
      assert s == [s[0]] + s[1..];
    }
  }

  lemma {:induction false} WithoutAbsentKey<T>(s: seq<T>, key: T -> nat, k: nat)
    requires forall x | x in s :: key(x) != k
    ensures WithoutKey(s, key, k) == s
  {
    if s == [] {
    } else {
      assert s[0] in s;
      WithoutAbsentKey(s[1..], key, k);
    }
  }

  lemma {:induction false} WithoutKeyAppend<T>(a: seq<T>, b: seq<T>, key: T -> nat, k: nat)
    ensures WithoutKey(a + b, key, k) == WithoutKey(a, key, k) + WithoutKey(b, key, k)
  {
    if a == [] {
      assert a + b == b;
    } else {
      assert (a + b)[1..] == a[1..] + b;
      WithoutKeyAppend(a[1..], b, key, k);
    }
  }
}

/**
 How many elements of a sequence have a property.
 */
module Counting {
  import opened Basics

  function CountIf<T>(s: seq<T>, p: T -> bool): nat {
    if s == [] then 0 else One(p(s[0])) + CountIf(s[1..], p)
  }

  lemma {:induction false} CountUpdate<T>(s: seq<T>, i: nat, x: T, p: T -> bool)
    requires i < |s|
    ensures CountIf(s[i := x], p) == CountIf(s, p) - One(p(s[i])) + One(p(x))
    ensures p(s[i]) ==> CountIf(s, p) >= 1
    decreases |s|
  {
    if i == 0 {
      assert s[i := x][1..] == s[1..];
    } else {
      assert s[i := x][1..] == s[1..][i - 1 := x];
      CountUpdate(s[1..], i - 1, x, p);
    }
  }

  lemma {:induction false} CountSame<T>(one: seq<T>, two: seq<T>, p: T -> bool)
    requires |one| == |two|
    requires forall i :: 0 <= i < |one| ==> p(one[i]) == p(two[i])
    ensures CountIf(one, p) == CountIf(two, p)
    decreases |one|
  {
    if one != [] {
      assert p(one[0]) == p(two[0]);
      CountSame(one[1..], two[1..], p);
    }
  }

  lemma {:induction false} CountNone<T>(s: seq<T>, p: T -> bool)
    requires forall i :: 0 <= i < |s| ==> !p(s[i])
    ensures CountIf(s, p) == 0
    decreases |s|
  {
    if s != [] { CountNone(s[1..], p); }
  }

  lemma {:induction false} CountWitness<T>(s: seq<T>, p: T -> bool) returns (i: nat)
    requires CountIf(s, p) >= 1
    ensures i < |s| && p(s[i])
    decreases |s|
  {
    if p(s[0]) {
      i := 0;
    } else {
      i := CountWitness(s[1..], p);
      i := i + 1;
    }
  }

  lemma {:induction false} CountTwo<T>(s: seq<T>, i: nat, j: nat, p: T -> bool)
    requires i < |s| && j < |s| && i != j && p(s[i]) && p(s[j])
    ensures CountIf(s, p) >= 2
    decreases |s|
  {
    if i == 0 || j == 0 {
      var k := if i == 0 then j else i;
      CountUpdate(s[1..], k - 1, s[k], p);
    } else {
      CountTwo(s[1..], i - 1, j - 1, p);
    }
  }
}

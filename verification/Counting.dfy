/** Counting the occurrences of a value in a sequence. */
module Counting {

  function One(b: bool): nat { if b then 1 else 0 }

  function Occ<T(==)>(s: seq<T>, x: T): nat {
    if s == [] then 0 else One(s[0] == x) + Occ(s[1..], x)
  }

  lemma {:induction false} OccConcat<T>(a: seq<T>, b: seq<T>, x: T)
    ensures Occ(a + b, x) == Occ(a, x) + Occ(b, x)
  {
    if a == [] {
      assert a + b == b;
    } else {
      OccConcat(a[1..], b, x);
      assert (a + b)[1..] == a[1..] + b;
    }
  }

  lemma {:induction false} OccUpdate<T>(s: seq<T>, i: nat, v: T, x: T)
    requires i < |s|
    ensures Occ(s[i := v], x) + One(s[i] == x) == Occ(s, x) + One(v == x)
  {
    if i > 0 {
      OccUpdate(s[1..], i - 1, v, x);
      assert s[i := v][1..] == s[1..][i - 1 := v];
    } else {
      assert s[i := v][1..] == s[1..];
    }
  }

  lemma {:induction false} OccMember<T>(s: seq<T>, x: T)
    ensures Occ(s, x) > 0 <==> x in s
  {
    if s != [] {
      OccMember(s[1..], x);
      assert s == [s[0]] + s[1..];
    }
  }

  lemma OccSingle<T>(y: T, x: T)
    ensures Occ([y], x) == One(y == x)
  {
  }

  lemma OccFirst<T>(s: seq<T>, x: T)
    requires s != []
    ensures Occ(s, x) == One(s[0] == x) + Occ(s[1..], x)
  {
  }
}

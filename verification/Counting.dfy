// Sums and counts over sequences, for ledgers kept by concurrent tasks.

module Counting {

  function Sum<T>(s: seq<T>, f: T -> nat): nat {
    if s == [] then 0 else f(s[0]) + Sum(s[1..], f)
  }

  lemma {:induction false} SumChange<T>(s: seq<T>, k: nat, x: T, f: T -> nat)
    requires k < |s|
    ensures Sum(s[k := x], f) == Sum(s, f) - f(s[k]) + f(x)
  {
    if k == 0 {
      assert s[0 := x][1..] == s[1..];
    } else {
      SumChange(s[1..], k - 1, x, f);
      assert s[k := x][1..] == s[1..][k - 1 := x];
    }
  }

  lemma {:induction false} SumMore<T>(s: seq<T>, x: T, f: T -> nat)
    ensures Sum(s + [x], f) == Sum(s, f) + f(x)
  {
    if s == [] {
      assert [x][1..] == [];
    } else {
      SumMore(s[1..], x, f);
      assert (s + [x])[1..] == s[1..] + [x];
    }
  }

  lemma {:induction false} SumIsZero<T>(s: seq<T>, f: T -> nat)
    ensures Sum(s, f) == 0 <==> forall x :: x in s ==> f(x) == 0
  {
    if s != [] {
      SumIsZero(s[1..], f);
      assert s == [s[0]] + s[1..];
    }
  }

  lemma {:induction false} SumAtMost<T>(s: seq<T>, f: T -> nat, g: T -> nat)
    requires forall x :: x in s ==> f(x) <= g(x)
    ensures Sum(s, f) <= Sum(s, g)
  {
    if s != [] {
      SumAtMost(s[1..], f, g);
    }
  }

  // ----- how many elements are of a kind -----

  function One<T>(x: T, kind: T -> bool): nat {
    if kind(x) then 1 else 0
  }

  function Ones<T>(kind: T -> bool): T -> nat {
    (x: T) => One(x, kind)
  }

  function Tally<T>(s: seq<T>, kind: T -> bool): nat {
    Sum(s, Ones(kind))
  }

  lemma TallyChange<T>(s: seq<T>, k: nat, x: T, kind: T -> bool)
    requires k < |s|
    ensures Tally(s[k := x], kind) == Tally(s, kind) - One(s[k], kind) + One(x, kind)
  {
    SumChange(s, k, x, Ones(kind));
  }

  lemma TallyMore<T>(s: seq<T>, x: T, kind: T -> bool)
    ensures Tally(s + [x], kind) == Tally(s, kind) + One(x, kind)
  {
    SumMore(s, x, Ones(kind));
  }

  lemma TallyAtMost<T>(s: seq<T>, kind: T -> bool, wider: T -> bool)
    requires forall x :: kind(x) ==> wider(x)
    ensures Tally(s, kind) <= Tally(s, wider)
  {
    SumAtMost(s, Ones(kind), Ones(wider));
  }

  lemma NoneOfKind<T>(s: seq<T>, kind: T -> bool)
    ensures Tally(s, kind) == 0 <==> forall x :: x in s ==> !kind(x)
  {
    SumIsZero(s, Ones(kind));
    forall x ensures Ones(kind)(x) == 0 <==> !kind(x) { }
  }
}

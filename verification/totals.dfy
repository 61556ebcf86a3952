/** Adding something up over the workers of a pool. */
module Totals {

  function Total<A>(f: A -> nat, s: seq<A>): nat {
    if s == [] then 0 else Total(f, s[..|s| - 1]) + f(s[|s| - 1])
  }

  lemma {:induction false} TotalUpdate<A>(f: A -> nat, s: seq<A>, i: nat, x: A)
    requires i < |s|
    ensures Total(f, s[i := x]) + f(s[i]) == Total(f, s) + f(x)
  {
    var t := s[i := x];
    if i == |s| - 1 {
      assert t[..|s| - 1] == s[..|s| - 1];
    } else {
      TotalUpdate(f, s[..|s| - 1], i, x);
      assert t[..|s| - 1] == s[..|s| - 1][i := x];
    }
  }

  lemma {:induction false} TotalSame<A>(f: A -> nat, s: seq<A>, t: seq<A>)
    requires |s| == |t| && forall i :: 0 <= i < |s| ==> f(s[i]) == f(t[i])
    ensures Total(f, s) == Total(f, t)
  {
    if s != [] {
      TotalSame(f, s[..|s| - 1], t[..|t| - 1]);
    }
  }

  /** Everything the elements of `s` hold. */
  function Gather<A, B>(f: A -> multiset<B>, s: seq<A>): multiset<B> {
    if s == [] then multiset{} else Gather(f, s[..|s| - 1]) + f(s[|s| - 1])
  }

  lemma {:induction false} GatherUpdate<A, B>(f: A -> multiset<B>, s: seq<A>, i: nat, x: A)
    requires i < |s|
    ensures Gather(f, s[i := x]) + f(s[i]) == Gather(f, s) + f(x)
  {
    var t := s[i := x];
    if i == |s| - 1 {
      assert t[..|s| - 1] == s[..|s| - 1];
    } else {
      GatherUpdate(f, s[..|s| - 1], i, x);
      assert t[..|s| - 1] == s[..|s| - 1][i := x];
      var rest, rest', last := Gather(f, s[..|s| - 1]), Gather(f, t[..|s| - 1]), f(s[|s| - 1]);
      assert rest' + last + f(s[i]) == rest' + f(s[i]) + last == rest + f(x) + last == rest + last + f(x);
    }
  }

  lemma {:induction false} GatherNothing<A, B>(f: A -> multiset<B>, s: seq<A>)
    requires forall i :: 0 <= i < |s| ==> f(s[i]) == multiset{}
    ensures Gather(f, s) == multiset{}
  {
    if s != [] {
      GatherNothing(f, s[..|s| - 1]);
    }
  }

  lemma Cancelled<B>(a: multiset<B>, b: multiset<B>, c: multiset<B>)
    requires a + c == b + c
    ensures a == b
  {
    forall y ensures a[y] == b[y] {
      assert (a + c)[y] == (b + c)[y];
    }
  }

  lemma GatherKeeps<A, B>(f: A -> multiset<B>, s: seq<A>, i: nat, x: A)
    requires i < |s| && f(x) == f(s[i])
    ensures Gather(f, s[i := x]) == Gather(f, s)
  {
    GatherUpdate(f, s, i, x);
    Cancelled(Gather(f, s[i := x]), Gather(f, s), f(x));
  }

  lemma GatherGains<A, B>(f: A -> multiset<B>, s: seq<A>, i: nat, x: A)
    requires i < |s| && f(s[i]) == multiset{}
    ensures Gather(f, s[i := x]) == Gather(f, s) + f(x)
  {
    GatherUpdate(f, s, i, x);
    assert Gather(f, s[i := x]) + multiset{} == Gather(f, s[i := x]);
  }

  lemma GatherLoses<A, B>(f: A -> multiset<B>, s: seq<A>, i: nat, x: A)
    requires i < |s| && f(x) == multiset{}
    ensures Gather(f, s) == Gather(f, s[i := x]) + f(s[i])
  {
    GatherUpdate(f, s, i, x);
    assert Gather(f, s) + multiset{} == Gather(f, s);
  }

  lemma MoveLast<B>(a: multiset<B>, b: multiset<B>, c: multiset<B>)
    ensures a + b + c == a + c + b
  {
  }
}

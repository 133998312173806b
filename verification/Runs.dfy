/** Runs of a transition system given by its step relation. */
module Runs {
  /** `r` follows from `s` by `n` steps. */
  ghost predicate Leads<S(!new)>(next: (S, S) -> bool, s: S, r: S, n: nat)
    decreases n
  {
    if n == 0 then r == s else exists m :: Leads(next, s, m, n - 1) && next(m, r)
  }

  ghost predicate Follows<S(!new)>(next: (S, S) -> bool, s: S, r: S) {
    exists n :: Leads(next, s, r, n)
  }

  ghost predicate Inductive<S(!new)>(next: (S, S) -> bool, inv: S -> bool) {
    forall s, r :: inv(s) && next(s, r) ==> inv(r)
  }

  /** What every step keeps, every run keeps. */
  lemma {:induction false} LeadsKeeps<S(!new)>(next: (S, S) -> bool, inv: S -> bool, s: S, r: S, n: nat)
    requires inv(s) && Inductive(next, inv) && Leads(next, s, r, n)
    ensures inv(r)
    decreases n
  {
    if n > 0 {
      var m :| Leads(next, s, m, n - 1) && next(m, r);
      LeadsKeeps(next, inv, s, m, n - 1);
    }
  }

  lemma FollowsKeeps<S(!new)>(next: (S, S) -> bool, inv: S -> bool, s: S, r: S)
    requires inv(s) && Inductive(next, inv) && Follows(next, s, r)
    ensures inv(r)
  {
    var n :| Leads(next, s, r, n);
    LeadsKeeps(next, inv, s, r, n);
  }

  /** A run goes on where another ended. */
  lemma {:induction false} LeadsOn<S(!new)>(next: (S, S) -> bool, s: S, m: S, r: S, a: nat, b: nat)
    requires Leads(next, s, m, a) && Leads(next, m, r, b)
    ensures Leads(next, s, r, a + b)
    decreases b
  {
    if b > 0 {
      var t :| Leads(next, m, t, b - 1) && next(t, r);
      LeadsOn(next, s, m, t, a, b - 1);
    }
  }

  lemma FollowsOn<S(!new)>(next: (S, S) -> bool, s: S, m: S, r: S)
    requires Follows(next, s, m) && Follows(next, m, r)
    ensures Follows(next, s, r)
  {
    var a :| Leads(next, s, m, a);
    var b :| Leads(next, m, r, b);
    LeadsOn(next, s, m, r, a, b);
  }

  lemma FollowsOne<S(!new)>(next: (S, S) -> bool, s: S, r: S)
    requires next(s, r)
    ensures Follows(next, s, r)
  {
    assert Leads(next, s, s, 0);
    assert Leads(next, s, r, 1);
  }
}

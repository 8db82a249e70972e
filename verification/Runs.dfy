/** Runs of a machine: events, and the states before, between and after them. */
module Runs {
  ghost predicate IsPath<S, E>(next: (S, E, S) -> bool, es: seq<E>, ss: seq<S>) {
    |ss| == |es| + 1 && forall i :: 0 <= i < |es| ==> next(ss[i], es[i], ss[i + 1])
  }

  ghost predicate Leads<S, E>(next: (S, E, S) -> bool, es: seq<E>, ss: seq<S>, s: S, t: S) {
    IsPath(next, es, ss) && ss[0] == s && ss[|es|] == t
  }

  lemma Stay<S, E>(next: (S, E, S) -> bool, s: S) returns (es: seq<E>, ss: seq<S>)
    ensures Leads(next, es, ss, s, s)
  {
    es, ss := [], [s];
  }

  lemma Then<S, E>(next: (S, E, S) -> bool, es: seq<E>, ss: seq<S>, s: S, t: S, e: E, u: S)
    returns (es': seq<E>, ss': seq<S>)
    requires Leads(next, es, ss, s, t) && next(t, e, u)
    ensures Leads(next, es', ss', s, u)
  {
    es', ss' := es + [e], ss + [u];
  }

  lemma OfThree<S, E>(next: (S, E, S) -> bool, s: S, a: E, s1: S, b: E, s2: S, c: E, s3: S)
    returns (es: seq<E>, ss: seq<S>)
    requires next(s, a, s1) && next(s1, b, s2) && next(s2, c, s3)
    ensures Leads(next, es, ss, s, s3)
  {
    es, ss := [a, b, c], [s, s1, s2, s3];
  }

  lemma Append<S, E>(next: (S, E, S) -> bool, es: seq<E>, ss: seq<S>, s: S, t: S, fs: seq<E>, ts: seq<S>, u: S)
    returns (es': seq<E>, ss': seq<S>)
    requires Leads(next, es, ss, s, t) && Leads(next, fs, ts, t, u)
    ensures Leads(next, es', ss', s, u)
  {
    es', ss' := es + fs, ss + ts[1..];
    forall i | 0 <= i < |es'|
      ensures next(ss'[i], es'[i], ss'[i + 1])
    {
      if i < |es| {
        assert next(ss[i], es[i], ss[i + 1]);
      } else {
        assert next(ts[i - |es|], fs[i - |es|], ts[i - |es| + 1]);
      }
    }
  }

  /** What every step keeps holds throughout. */
  lemma {:induction false} Kept<S(!new), E(!new)>(next: (S, E, S) -> bool, inv: S -> bool,
                                                  es: seq<E>, ss: seq<S>, i: nat)
    requires IsPath(next, es, ss) && inv(ss[0]) && i <= |es|
    requires forall s, e, t :: inv(s) && next(s, e, t) ==> inv(t)
    ensures inv(ss[i])
  {
    if i > 0 {
      Kept(next, inv, es, ss, i - 1);
      assert next(ss[i - 1], es[i - 1], ss[i]);
    }
  }
}

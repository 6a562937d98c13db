/**
 Runs of a labelled transition system given by a total step function.  A system
 whose events can be disabled makes a disabled event a stutter, so that every
 sequence of events is a run.
 */
module Runs {

  ghost function Run<S, E>(step: (S, E) -> S, s: S, events: seq<E>): S {
    if events == [] then s else Run(step, step(s, events[0]), events[1..])
  }

  /** Every event is allowed by `ok` in the state in which it happens. */
  ghost predicate Allowed<S, E>(step: (S, E) -> S, ok: (S, E) -> bool, s: S, events: seq<E>) {
    events == [] || (ok(s, events[0]) && Allowed(step, ok, step(s, events[0]), events[1..]))
  }

  lemma {:induction false} RunAppend<S, E>(step: (S, E) -> S, s: S, a: seq<E>, b: seq<E>)
    ensures Run(step, s, a + b) == Run(step, Run(step, s, a), b)
  {
    if a == [] {
      assert a + b == b;
    } else {
      RunAppend(step, step(s, a[0]), a[1..], b);
      assert (a + b)[0] == a[0] && (a + b)[1..] == a[1..] + b;
    }
  }

  lemma RunSnoc<S, E>(step: (S, E) -> S, s: S, a: seq<E>, e: E)
    ensures Run(step, s, a + [e]) == step(Run(step, s, a), e)
  {
    RunAppend(step, s, a, [e]);
    assert [e][1..] == [];
    assert Run(step, step(Run(step, s, a), e), []) == step(Run(step, s, a), e);
  }

  /** What every allowed step keeps holds after every allowed run. */
  lemma {:induction false} Preserved<S(!new), E(!new)>(
    step: (S, E) -> S, ok: (S, E) -> bool, inv: S -> bool, s: S, events: seq<E>)
    requires inv(s)
    requires forall t, e :: inv(t) && ok(t, e) ==> inv(step(t, e))
    requires Allowed(step, ok, s, events)
    ensures inv(Run(step, s, events))
  {
    if events != [] {
      Preserved(step, ok, inv, step(s, events[0]), events[1..]);
    }
  }

  lemma {:induction false} AllAllowed<S(!new), E(!new)>(step: (S, E) -> S, ok: (S, E) -> bool, s: S, events: seq<E>)
    requires forall t, e :: ok(t, e)
    ensures Allowed(step, ok, s, events)
  {
    if events != [] {
      AllAllowed(step, ok, step(s, events[0]), events[1..]);
    }
  }

  lemma {:induction false} AllowedAppend<S, E>(
    step: (S, E) -> S, ok: (S, E) -> bool, s: S, a: seq<E>, b: seq<E>)
    requires Allowed(step, ok, s, a) && Allowed(step, ok, Run(step, s, a), b)
    ensures Allowed(step, ok, s, a + b)
  {
    if a == [] {
      assert a + b == b;
    } else {
      AllowedAppend(step, ok, step(s, a[0]), a[1..], b);
      assert (a + b)[0] == a[0] && (a + b)[1..] == a[1..] + b;
    }
  }

  lemma {:induction false} AllowedSnoc<S, E>(step: (S, E) -> S, ok: (S, E) -> bool, s: S, a: seq<E>, e: E)
    requires Allowed(step, ok, s, a) && ok(Run(step, s, a), e)
    ensures Allowed(step, ok, s, a + [e])
  {
    if a == [] {
      assert (a + [e])[1..] == [];
    } else {
      AllowedSnoc(step, ok, step(s, a[0]), a[1..], e);
      assert (a + [e])[0] == a[0] && (a + [e])[1..] == a[1..] + [e];
    }
  }
}

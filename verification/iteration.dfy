/** Repeating one step a fixed number of times, as the relaxation loop does
    with its body. The step is a parameter here, so the facts about counting
    steps are proved once and independently of what a step computes. */
module Iteration {

  /** `n` applications of `step`, starting at `s`. */
  function Iterate<S>(step: S -> S, s: S, n: nat): S
    decreases n
  {
    if n == 0 then s else Iterate(step, step(s), n - 1)
  }

  /** Taking `a + b` steps is taking `a` steps and then `b` more. */
  lemma {:induction false} IterateSplit<S>(step: S -> S, s: S, a: nat, b: nat)
    ensures Iterate(step, s, a + b) == Iterate(step, Iterate(step, s, a), b)
    decreases a
  {
    if a > 0 {
      IterateSplit(step, step(s), a - 1, b);
      assert a + b - 1 == (a - 1) + b;
    }
  }

  /** The last of `n + 1` steps is applied to the state after `n`. */
  lemma IterateLast<S>(step: S -> S, s: S, n: nat)
    ensures Iterate(step, s, n + 1) == step(Iterate(step, s, n))
  {
    IterateSplit(step, s, n, 1);
  }

  /** Every one of the `n` states from which a step is taken, `s` itself
      and the next `n - 1`, satisfies `ok`. */
  predicate Along<S>(ok: S -> bool, step: S -> S, s: S, n: nat)
    decreases n
  {
    n == 0 || (ok(s) && Along(ok, step, step(s), n - 1))
  }

  /** `ok` holds after each of the first `n` step counts. */
  predicate Every<S>(ok: S -> bool, step: S -> S, s: S, n: nat) {
    forall k :: 0 <= k < n ==> ok(Iterate(step, s, k))
  }

  /** `Along` holds exactly when `ok` holds after each of the first `n`
      step counts. */
  lemma {:induction false} AlongEvery<S>(ok: S -> bool, step: S -> S, s: S, n: nat)
    ensures Along(ok, step, s, n) <==> Every(ok, step, s, n)
    decreases n
  {
    if n > 0 {
      AlongEvery(ok, step, step(s), n - 1);
      assert Iterate(step, s, 0) == s;
      if Every(ok, step, s, n) {
        forall k | 0 <= k < n - 1
          ensures ok(Iterate(step, step(s), k))
        {
          assert Iterate(step, s, k + 1) == Iterate(step, step(s), k);
        }
      } else {
        var m :| 0 <= m < n && !ok(Iterate(step, s, m));
        if m > 0 {
          assert Iterate(step, s, m) == Iterate(step, step(s), m - 1);
        }
      }
    }
  }

  /** `ok` along `a + b` steps is `ok` along the first `a` and then along
      the `b` that follow. */
  lemma {:induction false} AlongSplit<S>(ok: S -> bool, step: S -> S, s: S, a: nat, b: nat)
    ensures Along(ok, step, s, a + b) <==> Along(ok, step, s, a) && Along(ok, step, Iterate(step, s, a), b)
    decreases a
  {
    if a > 0 {
      AlongSplit(ok, step, step(s), a - 1, b);
      assert a + b - 1 == (a - 1) + b;
    }
  }

  /** A state the step leaves unchanged stays put for any number of steps,
      and `ok` then holds along the way as soon as it holds there. */
  lemma {:induction false} FixedPoint<S>(ok: S -> bool, step: S -> S, s: S, n: nat)
    requires step(s) == s
    ensures Iterate(step, s, n) == s
    ensures ok(s) ==> Along(ok, step, s, n)
    decreases n
  {
    if n > 0 {
      FixedPoint(ok, step, s, n - 1);
    }
  }

  /** A property that every step preserves holds after any number of steps. */
  lemma {:induction false} Invariant<S>(inv: S -> bool, step: S -> S, s: S, n: nat)
    requires inv(s)
    requires forall x :: inv(x) ==> inv(step(x))
    ensures inv(Iterate(step, s, n))
    decreases n
  {
    if n > 0 {
      Invariant(inv, step, step(s), n - 1);
    }
  }
}

/** Following builder functions (`_resolve_frontend_path` in scripts/verify_rust_api_parity.py):
    the recursion and its guard, whatever the reading of one expression gives. */
module BuilderCalls {
  import opened Options

  /** What an expression comes down to: a final answer, a shorter expression inside it, or
      the body of a builder function. */
  datatype Next = Answer(path: Option<string>) | Through(expression: string) | Call(name: string)

  ghost predicate Shrinks(step: string -> Next) {
    forall e :: step(e).Through? ==> |step(e).expression| < |e|
  }

  /** How one expression is read; inside itself it can only lead to a shorter one. */
  type Step = step: string -> Next | Shrinks(step) witness (e => Answer(None))

  function Resolved(expression: string, builders: map<string, string>, step: Step, seen: set<string>): Option<string>
    decreases builders.Keys - seen, |expression|
  {
    match step(expression)
    case Answer(path) => path
    case Through(inner) => Resolved(inner, builders, step, seen)
    case Call(name) =>
      if name in seen || name !in builders then None
      else
        assert name in builders.Keys - seen;
        Resolved(builders[name], builders, step, seen + {name})
  }

  // ----- the guard against cycles -----

  /** Resolution without the set of names, for at most `calls` nested builder calls. */
  function Unguarded(expression: string, builders: map<string, string>, step: Step, calls: nat): Option<string>
    decreases calls, |expression|
  {
    match step(expression)
    case Answer(path) => path
    case Through(inner) => Unguarded(inner, builders, step, calls)
    case Call(name) =>
      if calls == 0 || name !in builders then None else Unguarded(builders[name], builders, step, calls - 1)
  }

  lemma {:induction false} MoreCallsKeepPath(expression: string, builders: map<string, string>, step: Step, m: nat, n: nat)
    requires m <= n && Unguarded(expression, builders, step, m).Some?
    ensures Unguarded(expression, builders, step, n) == Unguarded(expression, builders, step, m)
    decreases m, |expression|
  {
    match step(expression)
    case Answer(_) =>
    case Through(inner) =>
      MoreCallsKeepPath(inner, builders, step, m, n);
    case Call(name) =>
      MoreCallsKeepPath(builders[name], builders, step, m - 1, n - 1);
  }

  /** The fewest calls that give a path. */
  lemma {:induction false} FewestCalls(expression: string, builders: map<string, string>, step: Step, n: nat) returns (m: nat)
    requires Unguarded(expression, builders, step, n).Some?
    ensures m <= n && Unguarded(expression, builders, step, m) == Unguarded(expression, builders, step, n)
    ensures m > 0 ==> Unguarded(expression, builders, step, m - 1).None?
  {
    if n == 0 || Unguarded(expression, builders, step, n - 1).None? {
      m := n;
    } else {
      MoreCallsKeepPath(expression, builders, step, n - 1, n);
      m := FewestCalls(expression, builders, step, n - 1);
    }
  }

  /** The builders being resolved all need at least `calls` further calls themselves. */
  ghost predicate StillOpen(seen: set<string>, builders: map<string, string>, step: Step, calls: nat) {
    calls > 0 ==> forall g :: g in seen && g in builders ==> Unguarded(builders[g], builders, step, calls - 1).None?
  }

  /** A path found without the guard is found with it: its builder calls are all different. */
  lemma {:induction false} GuardKeepsPath(expression: string, builders: map<string, string>, step: Step,
                                          seen: set<string>, calls: nat)
    requires Unguarded(expression, builders, step, calls).Some? && StillOpen(seen, builders, step, calls)
    ensures Resolved(expression, builders, step, seen) == Unguarded(expression, builders, step, calls)
    decreases calls, |expression|
  {
    match step(expression)
    case Answer(_) =>
    case Through(inner) =>
      GuardKeepsPath(inner, builders, step, seen, calls);
    case Call(name) =>
      assert name !in seen;
      var m := FewestCalls(builders[name], builders, step, calls - 1);
      if m > 0 {
        forall g | g in seen + {name} && g in builders
          ensures Unguarded(builders[g], builders, step, m - 1).None?
        {
          if g != name && Unguarded(builders[g], builders, step, m - 1).Some? {
            MoreCallsKeepPath(builders[g], builders, step, m - 1, calls - 1);
            assert false;
          }
        }
      }
      GuardKeepsPath(builders[name], builders, step, seen + {name}, m);
  }

  lemma {:induction false} GuardInventsNothing(expression: string, builders: map<string, string>, step: Step, seen: set<string>)
    requires Resolved(expression, builders, step, seen).Some?
    ensures Unguarded(expression, builders, step, |builders.Keys - seen|) == Resolved(expression, builders, step, seen)
    decreases builders.Keys - seen, |expression|
  {
    match step(expression)
    case Answer(_) =>
    case Through(inner) =>
      GuardInventsNothing(inner, builders, step, seen);
    case Call(name) =>
      assert name in builders.Keys - seen;
      assert builders.Keys - (seen + {name}) == (builders.Keys - seen) - {name};
      GuardInventsNothing(builders[name], builders, step, seen + {name});
  }

  /** The guard only cuts off cycles: on every builder table the guarded resolution finds a
      path if and only if following the calls without a guard ever would, and the same one. */
  lemma GuardCutsOnlyCycles(expression: string, builders: map<string, string>, step: Step, path: string)
    ensures Resolved(expression, builders, step, {}) == Some(path)
       <==> exists calls: nat :: Unguarded(expression, builders, step, calls) == Some(path)
  {
    if Resolved(expression, builders, step, {}) == Some(path) {
      GuardInventsNothing(expression, builders, step, {});
    }
    if calls: nat :| Unguarded(expression, builders, step, calls) == Some(path) {
      GuardKeepsPath(expression, builders, step, {}, calls);
    }
  }
}

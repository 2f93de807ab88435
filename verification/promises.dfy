/** What each statement of a program comes to, said in terms of the statements before it alone. */
module Promises {
  import opened Bytes
  import opened CallRecords
  import opened Contracts
  import opened Patterns
  import opened Programs
  import opened Scripts
  import opened SlotHistories
  import Got
  import Lifetimes
  import Machine

  /** Statement `k` defines a contract of mock `m` whose pattern accepts the arguments. */
  predicate DefinesFor(ps: seq<Statement>, k: nat, m: nat, args: seq<int>, env: Env)
    requires k < |ps|
  {
    && ps[k].Do? && ps[k].op.Define? && ps[k].op.mock == m
    && Accepts(Collect(ps[k].op.evaluated), ps[k].op.args, args, env)
  }

  lemma {:induction false} OutcomeAt(start: Progress, ps: seq<Statement>, i: nat)
    requires i < |ps|
    ensures Outcomes(start, ps)[i] == OutcomeOf(After(start, ps[..i]), ps[i])
  {
    hide OutcomeOf, After;
    var n := |ps| - 1;
    if i < n {
      OutcomeAt(start, ps[..n], i);
      assert ps[..n][..i] == ps[..i];
    }
  }

  /** Only statements on mocks count as what was defined, checked or called so far. */
  lemma OpsAfter(start: Progress, ps: seq<Statement>)
    requires ps != []
    ensures var n := |ps| - 1;
      After(start, ps).ops == After(start, ps[..n]).ops + if ps[n].Do? then [ps[n].op] else []
  {
  }

  lemma DefinesInPrefix(ps: seq<Statement>, n: nat, m: nat, args: seq<int>, env: Env)
    requires n <= |ps|
    ensures forall k | 0 <= k < n :: DefinesFor(ps[..n], k, m, args, env) == DefinesFor(ps, k, m, args, env)
  {
    hide Accepts, Collect;
  }

  lemma {:induction false} DefinitionBefore(start: Progress, ps: seq<Statement>, m: nat, args: seq<int>, env: Env,
                                            j: nat)
    requires j < |ps| && DefinesFor(ps, j, m, args, env)
    requires forall k | j < k < |ps| :: !DefinesFor(ps, k, m, args, env)
    ensures CallEffect(DefsIn(After(start, ps).ops, m), args, env) == Promised(ps[j].op.result, env)
  {
    hide *;
    var n := |ps| - 1;
    var before := After(start, ps[..n]).ops;
    OpsAfter(start, ps);
    DefinesInPrefix(ps, n, m, args, env);
    if j < n {
      DefinitionBefore(start, ps[..n], m, args, env, j);
    }
    LastOp(before, ps, m, args, env);
  }

  lemma {:induction false} NoDefinitionBefore(start: Progress, ps: seq<Statement>, m: nat, args: seq<int>, env: Env)
    requires start.ops == [] && forall k | 0 <= k < |ps| :: !DefinesFor(ps, k, m, args, env)
    ensures CallEffect(DefsIn(After(start, ps).ops, m), args, env) == NOTHING
  {
    if ps == [] {
      assert DefsIn([], m) == [];
    } else {
      hide *;
      var n := |ps| - 1;
      OpsAfter(start, ps);
      DefinesInPrefix(ps, n, m, args, env);
      NoDefinitionBefore(start, ps[..n], m, args, env);
      LastOp(After(start, ps[..n]).ops, ps, m, args, env);
    }
  }

  lemma LastOp(before: seq<Op>, ps: seq<Statement>, m: nat, args: seq<int>, env: Env)
    requires ps != []
    ensures var n := |ps| - 1;
      CallEffect(DefsIn(before + if ps[n].Do? then [ps[n].op] else [], m), args, env)
         == if DefinesFor(ps, n, m, args, env) then Promised(ps[n].op.result, env)
            else CallEffect(DefsIn(before, m), args, env)
  {
    hide Accepts, Promised, CallEffect, Collect;
    var n := |ps| - 1;
    if ps[n].Do? {
      OneMoreOp(before, ps[n].op, m, args, env);
    } else {
      assert before + [] == before;
    }
  }

  lemma OneMoreOp(before: seq<Op>, op: Op, m: nat, args: seq<int>, env: Env)
    ensures CallEffect(DefsIn(before + [op], m), args, env)
         == if op.Define? && op.mock == m && Accepts(Collect(op.evaluated), op.args, args, env)
            then Promised(op.result, env) else CallEffect(DefsIn(before, m), args, env)
  {
    assert (before + [op])[..|before|] == before;
    hide CallEffect, Promised, Accepts;
    if op.Define? && op.mock == m {
      NewContractOverrides(DefsIn(before, m), ContractOf(op), args, env);
    } else {
      assert DefsIn(before, m) + [] == DefsIn(before, m);
    }
  }

  /** The statements of `ps` that call mock `m` with arguments of the pattern. */
  function FittingCalls(ps: seq<Statement>, m: nat, ms: seq<Spec>, refs: seq<int>, env: Env): set<nat> {
    set k: nat | k < |ps| && ps[k].Do? && ps[k].op.Invoke? && ps[k].op.mock == m
                 && Accepts(ms, refs, ps[k].op.args, env)
  }

  lemma {:induction false} CallsBefore(start: Progress, ps: seq<Statement>, m: nat, ms: seq<Spec>, refs: seq<int>,
                                       env: Env)
    requires start.ops == []
    ensures CountAccepted(CallsIn(After(start, ps).ops, m), ms, refs, env) == |FittingCalls(ps, m, ms, refs, env)|
  {
    if ps != [] {
      var n := |ps| - 1;
      OpsAfter(start, ps);
      CallsBefore(start, ps[..n], m, ms, refs, env);
      hide After, Accepts;
      var before := After(start, ps[..n]).ops;
      LastCallFits(ps, m, ms, refs, env);
      if ps[n].Do? {
        assert (before + [ps[n].op])[..|before|] == before;
        assert CallsIn(before, m) + [] == CallsIn(before, m);
        assert (CallsIn(before, m) + [ps[n].op.args])[..|CallsIn(before, m)|] == CallsIn(before, m);
      }
    }
  }

  lemma LastCallFits(ps: seq<Statement>, m: nat, ms: seq<Spec>, refs: seq<int>, env: Env)
    requires ps != []
    ensures var n := |ps| - 1;
      && n !in FittingCalls(ps[..n], m, ms, refs, env)
      && |FittingCalls(ps, m, ms, refs, env)| == |FittingCalls(ps[..n], m, ms, refs, env)|
           + (if ps[n].Do? && ps[n].op.Invoke? && ps[n].op.mock == m
                 && Accepts(ms, refs, ps[n].op.args, env) then 1 else 0)
  {
    hide Accepts;
    var n := |ps| - 1;
    var before, last := FittingCalls(ps[..n], m, ms, refs, env), FittingCalls(ps, m, ms, refs, env);
    assert forall k: nat :: k in last <==> k in before || (k == n && n in last);
    assert last == before + if n in last then {n} else {};
  }

  lemma FittingInPrefix(ps: seq<Statement>, i: nat, m: nat, ms: seq<Spec>, refs: seq<int>, env: Env)
    requires i <= |ps|
    ensures FittingCalls(ps[..i], m, ms, refs, env)
         == set k | 0 <= k < i && ps[k].Do? && ps[k].op.Invoke? && ps[k].op.mock == m
                    && Accepts(ms, refs, ps[k].op.args, env)
  {
    hide Accepts;
  }

  // ---- which mocks live ----

  lemma LivesNext(sys: Machine.System, s: Progress, p: Statement)
    requires Sound(s) && Allowed(sys, s, p, 1)
    ensures var t := Next(s, p);
      && (p.Create? ==> t.live.Keys == s.live.Keys + if |p.setup.scope.places| > 0 then {|s.setups|} else {})
      && (p.Do? ==> t.live == s.live)
      && (p.Reset? ==> p.mock < |s.setups| && p.mock in s.live && t.live.Keys == s.live.Keys - {p.mock})
  {
    if p.Create? {
      NextCreation(sys, s, p.setup, 1);
    } else if p.Reset? {
      assert p.mock in s.live;
      assert HooksMatch(s, p.mock);
      NextReset(s, p.mock, p.reach);
    }
  }

  lemma LastSetup(ps: seq<Statement>)
    requires ps != []
    ensures var n := |ps| - 1;
      SetupsIn(ps) == SetupsIn(ps[..n]) + if ps[n].Create? then [ps[n].setup] else []
  {
  }

  lemma LastIsNext(start: Progress, ps: seq<Statement>)
    requires ps != []
    ensures After(start, ps) == Next(After(start, ps[..|ps| - 1]), ps[|ps| - 1])
  {
  }

  predicate IsReset(ps: seq<Statement>, k: nat) {
    exists j | 0 <= j < |ps| :: ps[j].Reset? && ps[j].mock == k
  }

  lemma ResetLast(ps: seq<Statement>, k: nat)
    requires ps != []
    ensures var n := |ps| - 1; IsReset(ps, k) <==> IsReset(ps[..n], k) || (ps[n].Reset? && ps[n].mock == k)
  {
    var n := |ps| - 1;
    if j :| 0 <= j < |ps| && ps[j].Reset? && ps[j].mock == k {
      assert j < n ==> ps[..n][j] == ps[j];
    }
  }

  lemma LivesStill(before: set<nat>, after: set<nat>, cs: seq<Lifetimes.Setup>, ds: seq<Lifetimes.Setup>,
                   ps: seq<Statement>, k: nat)
    requires ps != []
    requires var n := |ps| - 1;
      && (ps[n].Create? ==> after == before + if |ps[n].setup.scope.places| > 0 then {|cs|} else {})
      && (ps[n].Do? ==> after == before)
      && (ps[n].Reset? ==> ps[n].mock < |cs| && after == before - {ps[n].mock})
      && ds == cs + (if ps[n].Create? then [ps[n].setup] else [])
      && (IsReset(ps, k) <==> IsReset(ps[..n], k) || (ps[n].Reset? && ps[n].mock == k))
      && (IsReset(ps[..n], k) ==> k < |cs|)
      && (k in before <==> k < |cs| && |cs[k].scope.places| > 0 && !IsReset(ps[..n], k))
    ensures IsReset(ps, k) ==> k < |ds|
    ensures k in after <==> k < |ds| && |ds[k].scope.places| > 0 && !IsReset(ps, k)
  {
    hide IsReset;
  }

  /** The mocks that live are those whose lookup found a place and that no statement has reset. */
  lemma {:induction false} WhoLives(sys: Machine.System, table: seq<Got.Fn>, words: set<int>, ps: seq<Statement>,
                                    k: nat)
    requires Legal(sys, Start(table, words), ps)
    ensures IsReset(ps, k) ==> k < |SetupsIn(ps)|
    ensures k in After(Start(table, words), ps).live
      <==> k < |SetupsIn(ps)| && |SetupsIn(ps)[k].scope.places| > 0 && !IsReset(ps, k)
  {
    if ps != [] {
      hide *;
      var n := |ps| - 1;
      var before := After(Start(table, words), ps[..n]);
      ResetLast(ps, k);
      LastStep(sys, table, words, ps);
      WhoLives(sys, table, words, ps[..n], k);
      SetupsKnown(sys, table, words, ps[..n]);
      LastSetup(ps);
      LivesNext(sys, before, ps[n]);
      LastIsNext(Start(table, words), ps);
      LivesStill(before.live.Keys, After(Start(table, words), ps).live.Keys, SetupsIn(ps[..n]), SetupsIn(ps), ps, k);
    }
  }

  // ---- the answers of a program ----

  lemma CheckAnswer(start: Progress, ps: seq<Statement>, i: nat)
    requires i < |ps| && ps[i].Do? && ps[i].op.Check?
    ensures var op, before := ps[i].op, After(start, ps[..i]);
      OutcomeOf(before, ps[i])
        == Done(Checked(Verdict(op.expected, CountAccepted(CallsIn(before.ops, op.mock), Collect(op.evaluated), op.args,
                                                           op.env))))
  {
    hide After, Verdict, CountAccepted, CallsIn, Collect;
  }

  /**
   A check answers whether the number of earlier calls to its mock with arguments of its pattern is what was expected:
   `.never` decides alone, else the bounds, else the user's function, else `.times`.
   */
  lemma ChecksAnswer(table: seq<Got.Fn>, words: set<int>, ps: seq<Statement>, i: nat)
    requires i < |ps| && ps[i].Do? && ps[i].op.Check?
    ensures var op, out := ps[i].op, Outcomes(Start(table, words), ps)[i];
      && out.Done? && out.output.Checked?
      && var ok, e := out.output.ok, op.expected;
         var n := |set k | 0 <= k < i && ps[k].Do? && ps[k].op.Invoke? && ps[k].op.mock == op.mock
                           && Accepts(Collect(op.evaluated), op.args, ps[k].op.args, op.env)|;
         && (e.never ==> (ok <==> n == 0))
         && (!e.never && e.atLeast + e.atMost > 0 ==>
               (ok <==> n >= e.atLeast && !(e.atMost > 0 && n > e.atMost)))
         && (!e.never && e.atLeast + e.atMost == 0 && e.meets.Some? ==> (ok <==> e.meets.value(n)))
         && (!e.never && e.atLeast + e.atMost == 0 && e.meets.None? && e.times > 0 ==> (ok <==> n == e.times))
         && (!e.never && e.atLeast + e.atMost == 0 && e.meets.None? && e.times == 0 ==> ok)
  {
    var start, op := Start(table, words), ps[i].op;
    CheckAnswer(start, ps, i);
    hide *;
    OutcomeAt(start, ps, i);
    CallsBefore(start, ps[..i], op.mock, Collect(op.evaluated), op.args, op.env);
    FittingInPrefix(ps, i, op.mock, Collect(op.evaluated), op.args, op.env);
    VerdictDecides(op.expected, |FittingCalls(ps[..i], op.mock, Collect(op.evaluated), op.args, op.env)|);
  }

  /** A call does what the latest earlier definition for it says, setting by setting; a value to return overrides. */
  lemma CallsAnswer(table: seq<Got.Fn>, words: set<int>, ps: seq<Statement>, i: nat, j: nat)
    requires j < i < |ps| && ps[i].Do? && ps[i].op.Invoke?
    requires DefinesFor(ps, j, ps[i].op.mock, ps[i].op.args, ps[i].op.env)
    requires forall k | j < k < i :: !DefinesFor(ps, k, ps[i].op.mock, ps[i].op.args, ps[i].op.env)
    ensures var out := Outcomes(Start(table, words), ps)[i];
      && out.Done? && out.output.Returned?
      && var e, r, env := out.output.effect, ps[j].op.result, ps[i].op.env;
         && (e.errno.Some? <==> r.thenErrno != 0) && (e.errno.Some? ==> e.errno.value == r.thenErrno)
         && e.called == r.thenCall
         && (r.thenReturn.Some? ==> e.returned == Pointee(env.deref(r.thenReturn.value)))
         && (r.thenReturn.None? && r.thenCall.Some? ==> e.returned == OfCall(r.thenCall.value))
         && (r.thenReturn.None? && r.thenCall.None? ==> e.returned == Zero)
  {
    var start, op := Start(table, words), ps[i].op;
    hide Accepts, After, CallEffect, Outcomes, Collect, DefsIn, DefinesFor;
    OutcomeAt(start, ps, i);
    DefinesInPrefix(ps, i, op.mock, op.args, op.env);
    DefinitionBefore(start, ps[..i], op.mock, op.args, op.env, j);
  }

  /** A call for which nothing has been defined sets no errno, calls nothing and returns zero. */
  lemma UndefinedCallsAnswer(table: seq<Got.Fn>, words: set<int>, ps: seq<Statement>, i: nat)
    requires i < |ps| && ps[i].Do? && ps[i].op.Invoke?
    requires forall k | 0 <= k < i :: !DefinesFor(ps, k, ps[i].op.mock, ps[i].op.args, ps[i].op.env)
    ensures Outcomes(Start(table, words), ps)[i] == Done(Returned(Effect(None, None, Zero)))
  {
    var start, op := Start(table, words), ps[i].op;
    hide Accepts, After, CallEffect, Outcomes, Collect, DefsIn, DefinesFor;
    OutcomeAt(start, ps, i);
    DefinesInPrefix(ps, i, op.mock, op.args, op.env);
    NoDefinitionBefore(start, ps[..i], op.mock, op.args, op.env);
  }

  /** A creation yields a mock exactly when the lookup found a place; definitions and resets are done quietly. */
  lemma OthersAnswer(start: Progress, ps: seq<Statement>, i: nat)
    requires i < |ps| && (ps[i].Do? ==> ps[i].op.Define?)
    ensures var out := Outcomes(start, ps)[i];
      && (ps[i].Create? ==> out.Created? && (out.valid <==> |ps[i].setup.scope.places| > 0))
      && (ps[i].Do? ==> out == Done(Defined)) && (ps[i].Reset? ==> out == Gone)
  {
    OutcomeAt(start, ps, i);
    hide After;
  }
}

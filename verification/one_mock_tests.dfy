/** Tests with a single mock: which ones are possible, and one of them from its first statement to its last. */
module OneMockTests {
  import opened Bytes
  import opened Contracts
  import opened Lifetimes
  import opened Machine
  import opened ParamStructs
  import opened Patterns
  import opened Programs
  import opened Promises
  import opened Resets
  import opened Scripts
  import opened Stubs
  import opened WholeTests
  import CallLogs
  import Got
  import Targets

  /** A statement on the mock with the given parameters, through the mock's handle. */
  predicate Usable(sys: System, l: Layout, op: Op, r: Reach) {
    && op.mock == 0 && r.way == Handle && ValidCaller(sys, r.caller) && r.caller.afterAsked.upper == 0
    && ArgsFit(l, op.args) && (op.Invoke? ==> |op.garbage| == l.size)
  }

  function TestOf(c: Setup, us: seq<(Op, Reach)>, r: Reach): seq<Statement> {
    [Create(c)] + Uses(us) + [Reset(0, r)]
  }

  /** Definitions, checks and calls change neither who lives nor who was created. */
  lemma {:induction false} WhileUsed(start: Progress, ps: seq<Statement>)
    requires forall i | 0 <= i < |ps| :: ps[i].Do?
    ensures After(start, ps).live == start.live && After(start, ps).setups == start.setups
  {
    if ps != [] {
      WhileUsed(start, ps[..|ps| - 1]);
    }
  }

  /** After the creation and some uses, the mock lives and is reached through its handle. */
  lemma Lives(table: seq<Got.Fn>, words: set<int>, sys: System, c: Setup, us: seq<Statement>, n: nat)
    requires Allowed(sys, Start(table, words), Create(c), n) && c.scope.places != []
    requires forall i | 0 <= i < |us| :: us[i].Do?
    ensures var s := After(Start(table, words), [Create(c)] + us); LeadsThere(s, 0, Handle) && s.setups == [c]
  {
    var start := Start(table, words);
    NextCreation(sys, start, c, n);
    AfterParts(start, [Create(c)], us);
    assert [Create(c)][..0] == [];
    assert After(start, [Create(c)]) == Next(start, Create(c));
    hide After, Allowed, Next;
    WhileUsed(Next(start, Create(c)), us);
  }

  /** A mock that can be created can be used through its handle in any way there is room for, and then be reset. */
  lemma UsesAreLegal(sys: System, table: seq<Got.Fn>, words: set<int>, c: Setup, us: seq<(Op, Reach)>, r: Reach)
    requires Allowed(sys, Start(table, words), Create(c), |us| + 2) && c.scope.places != []
    requires forall i | 0 <= i < |us| :: Usable(sys, c.layout, us[i].0, us[i].1)
    requires r.way == Handle && ValidCaller(sys, r.caller)
    ensures Legal(sys, Start(table, words), TestOf(c, us, r))
  {
    var start, ps := Start(table, words), TestOf(c, us, r);
    hide After, LeadsThere, ValidCaller, Creatable, ArgsFit, RoomFor;
    forall i | 0 <= i < |ps|
      ensures Allowed(sys, After(start, ps[..i]), ps[i], |ps| - i)
    {
      if i == 0 {
        assert ps[..0] == [] && After(start, []) == start by {
          NothingRun(start, ps);
        }
      } else {
        assert ps[..i] == [Create(c)] + Uses(us)[..i - 1];
        Lives(table, words, sys, c, Uses(us)[..i - 1], |us| + 2);
        assert i < |ps| - 1 ==>
          ps[i] == Do(us[i - 1].0, us[i - 1].1) && Usable(sys, c.layout, us[i - 1].0, us[i - 1].1);
      }
    }
  }

  // ---- a test ----

  /** "f", which takes an int and is called through one slot of the main executable. */
  const TARGET: Setup :=
    Setup("f", Layout([Field(24, 4, true)], 32), Site([0], 0x10000, 0x20000), Site([], 0, 0), 5, 0x30000, false)

  const REACH: Reach := Reach(Handle, CALLER)

  lemma TargetIsAllowed()
    ensures Allowed(SYSTEM, Start([7], {}), Create(TARGET), 5)
  {
    assert FreshSite(SYSTEM, {}, TARGET.scope);
    assert '@' !in TARGET.target;
    Targets.TargetWithoutScope(TARGET.target);
    assert CallLogs.Needed(5, 40) == CallLogs.Needed(3, 40) + 80;
    assert CallLogs.Needed(3, 40) == CallLogs.Needed(1, 40) + 80;
    assert CallLogs.Needed(1, 40) == CallLogs.Needed(0, 40) + 40;
    hide FreshSite, Targets.Unreadable, Targets.SelfOnly;
  }

  /**
   The mock sets errno to 7 and returns a value when it is called with 5. A call does so, and a check that there has
   been one such call passes.
   */
  lemma OneTest(env: Env, garbage: seq<byte>)
    requires |garbage| == 32
    ensures var define := Define(0, [], [5], Result(7, None, Some(1)));
      var invoke, check := Invoke(0, [5], garbage, env), Check(0, [], [5], Expected(false, 0, 0, 1, None), env);
      var ps := TestOf(TARGET, [(define, REACH), (invoke, REACH), (check, REACH)], REACH);
      && Legal(SYSTEM, Start([7], {}), ps)
      && Outcomes(Start([7], {}), ps)
         == [Created(true), Done(Defined), Done(Output.Returned(Effect(Some(7), None, Pointee(env.deref(1))))),
             Done(Checked(true)), Gone]
  {
    var define := Define(0, [], [5], Result(7, None, Some(1)));
    var invoke, check := Invoke(0, [5], garbage, env), Check(0, [], [5], Expected(false, 0, 0, 1, None), env);
    var us := [(define, REACH), (invoke, REACH), (check, REACH)];
    var ps := TestOf(TARGET, us, REACH);
    hide Outcomes, Legal, After, Allowed, Start, ValidCaller;
    TargetIsAllowed();
    CallerIsValid();
    UsesAreLegal(SYSTEM, [7], {}, TARGET, us, REACH);
    OneTestAnswers(ps, define, invoke, check);
  }

  lemma CallerIsValid()
    ensures ValidCaller(SYSTEM, CALLER)
  {
  }

  lemma OneTestAnswers(ps: seq<Statement>, define: Op, invoke: Op, check: Op)
    requires define.Define? && define.mock == 0 && define.evaluated == [] && define.args == [5]
    requires define.result == Result(7, None, Some(1))
    requires invoke.Invoke? && invoke.mock == 0 && invoke.args == [5]
    requires check.Check? && check.mock == 0 && check.evaluated == [] && check.args == [5]
    requires check.expected == Expected(false, 0, 0, 1, None)
    requires ps == [Create(TARGET), Do(define, REACH), Do(invoke, REACH), Do(check, REACH), Reset(0, REACH)]
    ensures Outcomes(Start([7], {}), ps)
         == [Created(true), Done(Defined), Done(Output.Returned(Effect(Some(7), None, Pointee(invoke.env.deref(1))))),
             Done(Checked(true)), Gone]
  {
    assert Collect([]) == [];
    hide Outcomes, After, Start, Collect;
    OthersAnswer(Start([7], {}), ps, 0);
    OthersAnswer(Start([7], {}), ps, 1);
    OthersAnswer(Start([7], {}), ps, 4);
    NoMatchersIsEquality([5], [5], invoke.env);
    CallsAnswer([7], {}, ps, 2, 1);
    NoMatchersIsEquality([5], [5], check.env);
    ChecksAnswer([7], {}, ps, 3);
    assert (set k | 0 <= k < 3 && ps[k].Do? && ps[k].op.Invoke? && ps[k].op.mock == 0
                    && Accepts(Collect([]), [5], ps[k].op.args, check.env)) == {2};
  }
}

/** What the documentation promises about a whole test: a script of contracts, verifications and ordinary calls. */
module Scripts {
  import opened Bytes
  import opened Patterns
  import opened CallRecords
  import opened Contracts

  /** One statement of a test, on the mock with the given number. */
  datatype Op =
    | Define(mock: nat, evaluated: seq<Spec>, args: seq<int>, result: Result)
    | Check(mock: nat, evaluated: seq<Spec>, args: seq<int>, expected: Expected, env: Env)
    | Invoke(mock: nat, args: seq<int>, garbage: seq<byte>, env: Env)

  datatype Output = Defined | Checked(ok: bool) | Returned(effect: Effect)

  /** The contracts that the definitions in `ops` give mock `m`, in order. */
  function DefsIn(ops: seq<Op>, m: nat): seq<Contract> {
    if ops == [] then []
    else
      var last := ops[|ops| - 1];
      DefsIn(ops[..|ops| - 1], m)
      + if last.Define? && last.mock == m then [ContractOf(last)] else []
  }

  function ContractOf(op: Op): Contract
    requires op.Define?
  {
    Contract(op.result, Collect(op.evaluated), op.args)
  }

  /** The ordinary calls in `ops` to mock `m`, in order. */
  function CallsIn(ops: seq<Op>, m: nat): seq<seq<int>> {
    if ops == [] then []
    else
      var last := ops[|ops| - 1];
      CallsIn(ops[..|ops| - 1], m)
      + if last.Invoke? && last.mock == m then [last.args] else []
  }

  /** The answer to `op` after the statements `before`. */
  function Answer(before: seq<Op>, op: Op): Output {
    match op
    case Define(_, _, _, _) => Defined
    case Check(m, evaluated, refs, expected, env) =>
      Checked(Verdict(expected, CountAccepted(CallsIn(before, m), Collect(evaluated), refs, env)))
    case Invoke(m, args, _, env) => Returned(CallEffect(DefsIn(before, m), args, env))
  }

  predicate DefinitionCovers(op: Op, m: nat, args: seq<int>, env: Env) {
    op.Define? && op.mock == m && Covers(ContractOf(op), args, env)
  }

  predicate CallFits(op: Op, m: nat, ms: seq<Spec>, refs: seq<int>, env: Env) {
    op.Invoke? && op.mock == m && Accepts(ms, refs, op.args, env)
  }

  /** The latest definition that covers a call decides it, whatever was defined, checked or called besides. */
  lemma {:induction false} LatestDefinitionWins(before: seq<Op>, m: nat, args: seq<int>, env: Env, j: nat)
    requires j < |before| && DefinitionCovers(before[j], m, args, env)
    requires forall k | j < k < |before| :: !DefinitionCovers(before[k], m, args, env)
    ensures CallEffect(DefsIn(before, m), args, env) == Promised(before[j].result, env)
    ensures var e, r := CallEffect(DefsIn(before, m), args, env), before[j].result;
      && (e.errno.Some? <==> r.thenErrno != 0) && (e.errno.Some? ==> e.errno.value == r.thenErrno)
      && e.called == r.thenCall
      && (r.thenReturn.Some? ==> e.returned == Pointee(env.deref(r.thenReturn.value)))
      && (r.thenReturn.None? && r.thenCall.Some? ==> e.returned == OfCall(r.thenCall.value))
      && (r.thenReturn.None? && r.thenCall.None? ==> e.returned == Zero)
  {
    var n := |before| - 1;
    var last := before[n];
    if last.Define? && last.mock == m {
      NewContractOverrides(DefsIn(before[..n], m), ContractOf(last), args, env);
    }
    if j < n {
      LatestDefinitionWins(before[..n], m, args, env, j);
      assert DefsIn(before[..n], m) + [] == DefsIn(before[..n], m);
    }
  }

  /** A call that no definition covers has no effect and returns zero. */
  lemma {:induction false} UncoveredCallReturnsZero(before: seq<Op>, m: nat, args: seq<int>, env: Env)
    requires forall k | 0 <= k < |before| :: !DefinitionCovers(before[k], m, args, env)
    ensures CallEffect(DefsIn(before, m), args, env) == NOTHING
  {
    if before != [] {
      var n := |before| - 1;
      var last := before[n];
      UncoveredCallReturnsZero(before[..n], m, args, env);
      if last.Define? && last.mock == m {
        NewContractOverrides(DefsIn(before[..n], m), ContractOf(last), args, env);
      } else {
        assert DefsIn(before[..n], m) + [] == DefsIn(before[..n], m);
      }
    }
  }

  /** A verification counts exactly the statements before it that called its mock with arguments of its pattern. */
  lemma {:induction false} VerifyCountsStatements(before: seq<Op>, m: nat, ms: seq<Spec>, refs: seq<int>, env: Env)
    ensures CountAccepted(CallsIn(before, m), ms, refs, env)
         == CountWhere(before, op => CallFits(op, m, ms, refs, env))
  {
    if before != [] {
      var n := |before| - 1;
      var last := before[n];
      VerifyCountsStatements(before[..n], m, ms, refs, env);
      var calls := CallsIn(before[..n], m);
      if last.Invoke? && last.mock == m {
        assert (calls + [last.args])[..|calls|] == calls;
      } else {
        assert calls + [] == calls;
      }
    }
  }
}

/** What contracts mean: which one a call falls under, and what the call then does. */
module Contracts {
  import opened Bytes
  import opened Patterns
  import opened CallRecords

  /** The `.then_...` settings: an errno (0 for none), a function to call, and a pointer to the value to return. */
  datatype Result = Result(thenErrno: int, thenCall: Option<nat>, thenReturn: Option<nat>)

  datatype Contract = Contract(result: Result, matchers: seq<Spec>, refs: seq<int>)

  /** The value a mocked call returns: zero, what a pointer points at, or what a called function returned. */
  datatype Returned = Zero | Pointee(value: int) | OfCall(fn: nat)

  /** Everything the caller of a mocked function can see: errno set, a function run with the arguments, a value. */
  datatype Effect = Effect(errno: Option<int>, called: Option<nat>, returned: Returned)

  const NOTHING: Effect := Effect(None, None, Zero)

  /** What a contract promises: both the errno and the call happen, and a return value overrides the call's. */
  function Promised(r: Result, env: Env): Effect {
    Effect(if r.thenErrno != 0 then Some(r.thenErrno) else None,
           r.thenCall,
           if r.thenReturn.Some? then Pointee(env.deref(r.thenReturn.value))
           else if r.thenCall.Some? then OfCall(r.thenCall.value)
           else Zero)
  }

  predicate Covers(c: Contract, args: seq<int>, env: Env) {
    Accepts(c.matchers, c.refs, args, env)
  }

  /** The most recently defined contract, `defs` being in order of definition, that covers the arguments. */
  function Latest(defs: seq<Contract>, args: seq<int>, env: Env): (r: Option<nat>)
    ensures r.Some? ==> r.value < |defs| && Covers(defs[r.value], args, env)
    ensures r.Some? ==> forall k | r.value < k < |defs| :: !Covers(defs[k], args, env)
    ensures r.None? ==> forall k | 0 <= k < |defs| :: !Covers(defs[k], args, env)
  {
    if defs == [] then None
    else if Covers(defs[|defs| - 1], args, env) then Some(|defs| - 1)
    else Latest(defs[..|defs| - 1], args, env)
  }

  function CallEffect(defs: seq<Contract>, args: seq<int>, env: Env): Effect {
    match Latest(defs, args, env)
    case None => NOTHING
    case Some(k) => Promised(defs[k].result, env)
  }

  /** How many of the calls the pattern accepts. */
  function CountAccepted(calls: seq<seq<int>>, matchers: seq<Spec>, refs: seq<int>, env: Env): nat {
    CountWhere(calls, args => Accepts(matchers, refs, args, env))
  }

  /** Contract `k` is the latest one that accepts the call. */
  predicate IsLatest(defs: seq<Contract>, args: seq<int>, env: Env, k: nat)
    requires k < |defs|
  {
    && Accepts(defs[k].matchers, defs[k].refs, args, env)
    && forall j | k < j < |defs| :: !Accepts(defs[j].matchers, defs[j].refs, args, env)
  }

  /** Setting by setting: what a call does that falls under contract `k`. */
  lemma LatestContractDecides(defs: seq<Contract>, args: seq<int>, env: Env, k: nat)
    requires k < |defs| && IsLatest(defs, args, env, k)
    ensures var e, r := CallEffect(defs, args, env), defs[k].result;
      && (e.errno.Some? <==> r.thenErrno != 0) && (e.errno.Some? ==> e.errno.value == r.thenErrno)
      && e.called == r.thenCall
      && (r.thenReturn.Some? ==> e.returned == Pointee(env.deref(r.thenReturn.value)))
      && (r.thenReturn.None? && r.thenCall.Some? ==> e.returned == OfCall(r.thenCall.value))
      && (r.thenReturn.None? && r.thenCall.None? ==> e.returned == Zero)
  {
    assert Covers(defs[k], args, env);
  }

  /** A call that no contract accepts sets nothing, calls nothing and returns zero. */
  lemma NoContractNoEffect(defs: seq<Contract>, args: seq<int>, env: Env)
    requires forall j | 0 <= j < |defs| :: !Accepts(defs[j].matchers, defs[j].refs, args, env)
    ensures CallEffect(defs, args, env) == Effect(None, None, Zero)
  {
  }

  /** The count, without looking at the calls one after the other. */
  lemma {:induction false} CountAcceptedIsSize(calls: seq<seq<int>>, ms: seq<Spec>, refs: seq<int>, env: Env)
    ensures CountAccepted(calls, ms, refs, env) == |set i | 0 <= i < |calls| && Accepts(ms, refs, calls[i], env)|
  {
    if calls != [] {
      var n := |calls| - 1;
      CountAcceptedIsSize(calls[..n], ms, refs, env);
      var before := set i | 0 <= i < n && Accepts(ms, refs, calls[..n][i], env);
      var all := set i | 0 <= i < |calls| && Accepts(ms, refs, calls[i], env);
      assert all == before + if Accepts(ms, refs, calls[n], env) then {n} else {};
    }
  }

  /** The return sequence of the stub body, one branch after the other. */
  method Perform(r: Result, env: Env) returns (e: Effect)
    ensures e == Promised(r, env)
    ensures (e.errno.Some? <==> r.thenErrno != 0) && (e.errno.Some? ==> e.errno.value == r.thenErrno)
    ensures e.called == r.thenCall
    ensures r.thenReturn.Some? ==> e.returned == Pointee(env.deref(r.thenReturn.value))
    ensures r.thenReturn.None? && r.thenCall.Some? ==> e.returned == OfCall(r.thenCall.value)
    ensures r.thenReturn.None? && r.thenCall.None? ==> e.returned == Zero
  {
    var errno := None;
    if r.thenErrno != 0 {
      errno := Some(r.thenErrno);
    }
    if r.thenCall.Some? && r.thenReturn.None? {
      return Effect(errno, r.thenCall, OfCall(r.thenCall.value));
    }
    if r.thenCall.Some? && r.thenReturn.Some? {
      return Effect(errno, r.thenCall, Pointee(env.deref(r.thenReturn.value)));
    }
    if r.thenReturn.Some? {
      return Effect(errno, None, Pointee(env.deref(r.thenReturn.value)));
    }
    return Effect(errno, None, Zero);
  }

  /** A new contract takes precedence on the calls it covers and changes nothing for the others. */
  lemma NewContractOverrides(defs: seq<Contract>, c: Contract, args: seq<int>, env: Env)
    ensures CallEffect(defs + [c], args, env)
         == if Covers(c, args, env) then Promised(c.result, env) else CallEffect(defs, args, env)
  {
    assert (defs + [c])[..|defs|] == defs;
  }

  // ---- verdicts ----

  /** The `mmk_verify` settings; `meets` is the user's `.matching` function. */
  datatype Expected = Expected(never: bool, atLeast: nat, atMost: nat, times: nat, meets: Option<nat -> bool>)

  function Verdict(e: Expected, t: nat): bool {
    if e.never then t == 0
    else if e.atLeast != 0 || e.atMost != 0 then e.atLeast <= t && t <= (if e.atMost != 0 then e.atMost else t)
    else if e.meets.Some? then e.meets.value(t)
    else if e.times > 0 then e.times == t
    else true
  }

  /** Which settings count, and what they ask. */
  lemma VerdictDecides(e: Expected, t: nat)
    ensures var ok := Verdict(e, t);
      && (e.never ==> (ok <==> t == 0))
      && (!e.never && e.atLeast + e.atMost > 0 ==> (ok <==> t >= e.atLeast && !(e.atMost > 0 && t > e.atMost)))
      && (!e.never && e.atLeast + e.atMost == 0 && e.meets.Some? ==> (ok <==> e.meets.value(t)))
      && (!e.never && e.atLeast + e.atMost == 0 && e.meets.None? && e.times > 0 ==> (ok <==> t == e.times))
      && (!e.never && e.atLeast + e.atMost == 0 && e.meets.None? && e.times == 0 ==> ok)
  {
  }

  method VerifyTimes(e: Expected, t: nat) returns (ok: bool)
    ensures ok == Verdict(e, t)
  {
    if e.never {
      return t == 0;
    }
    if e.atLeast != 0 || e.atMost != 0 {
      var most := if e.atMost != 0 then e.atMost else t;
      return t >= e.atLeast && t <= most;
    }
    if e.meets.Some? {
      return e.meets.value(t);
    }
    if e.times > 0 {
      return e.times == t;
    }
    return true;
  }

  /** What a user may write between the braces; None is a setting not given. */
  datatype Settings = Settings(never: bool, atLeast: Option<nat>, atMost: Option<nat>, times: Option<nat>,
                               matching: Option<nat -> bool>)

  /** What the documentation says these settings ask of the count. */
  predicate Documented(s: Settings, t: nat) {
    && (s.never ==> t == 0)
    && (s.atLeast.Some? ==> t >= s.atLeast.value)
    && (s.atMost.Some? ==> t <= s.atMost.value)
    && (s.times.Some? ==> t == s.times.value)
    && (s.matching.Some? ==> s.matching.value(t))
  }

  function Given(setting: Option<nat>): nat {
    if setting.Some? then setting.value else 0
  }

  /** The struct the initializers make: a field without one is zero. */
  function Passed(s: Settings): Expected {
    Expected(s.never, Given(s.atLeast), Given(s.atMost), Given(s.times), s.matching)
  }

  const NO_SETTINGS := Settings(false, None, None, None, None)

  /**
   Each setting on its own, and the two bounds together. A count of zero cannot be told from a setting not given:
   `.times` keeps its documented meaning unless it is zero and there were calls, and the bounds keep theirs unless
   `.at_most` is zero and there were calls that the lower bound allows. The others always keep theirs.
   */
  lemma VerdictMeetsDocumentation(t: nat, times: nat, atLeast: Option<nat>, atMost: Option<nat>, f: nat -> bool)
    ensures var s := NO_SETTINGS.(never := true); Verdict(Passed(s), t) == Documented(s, t)
    ensures var s := NO_SETTINGS.(matching := Some(f)); Verdict(Passed(s), t) == Documented(s, t)
    ensures var s := NO_SETTINGS.(times := Some(times));
      Verdict(Passed(s), t) == Documented(s, t) <==> times > 0 || t == 0
    ensures var s := NO_SETTINGS.(atLeast := atLeast, atMost := atMost);
      Verdict(Passed(s), t) == Documented(s, t) <==> !(atMost == Some(0) && t > 0 && t >= Given(atLeast))
  {
  }

  /** A bound of zero asks for nothing. */
  function Bound(setting: Option<nat>): Option<nat> {
    if setting == Some(0) then None else setting
  }

  /** The settings looked at: `.never`, else the bounds, else `.matching`, else `.times`; zeros are not given. */
  function Decisive(s: Settings): Settings {
    if s.never then NO_SETTINGS.(never := true)
    else if Bound(s.atLeast).Some? || Bound(s.atMost).Some? then
      NO_SETTINGS.(atLeast := Bound(s.atLeast), atMost := Bound(s.atMost))
    else if s.matching.Some? then NO_SETTINGS.(matching := s.matching)
    else NO_SETTINGS.(times := Bound(s.times))
  }

  /**
   Any combination of settings: the verdict is the documented meaning of those that are looked at. So a count that meets
   all settings is accepted, and one that fails some is accepted exactly if it fails only others.
   */
  lemma DecisiveSettingsDecide(s: Settings, t: nat)
    ensures Verdict(Passed(s), t) <==> Documented(Decisive(s), t)
    ensures Documented(s, t) ==> Verdict(Passed(s), t)
  {
  }
}

/** What a call pattern means: matcher kinds as bit masks, and when arguments satisfy a list of matchers. */
module Patterns {

  const BIT_CMP: bv32 := 1 << 30
  const BIT_EQ: bv32 := 1 << 1
  const BIT_LT: bv32 := 1 << 2
  const BIT_GT: bv32 := 1 << 3

  datatype Kind = Any | That | Eq | Neq | Lt | Leq | Gt | Geq

  /** The value of the enumeration constant. */
  function Mask(kind: Kind): bv32 {
    match kind
    case Any => 0
    case That => 1
    case Eq => BIT_CMP | BIT_EQ
    case Neq => BIT_CMP | BIT_LT | BIT_GT
    case Lt => BIT_CMP | BIT_LT
    case Leq => BIT_CMP | BIT_EQ | BIT_LT
    case Gt => BIT_CMP | BIT_GT
    case Geq => BIT_CMP | BIT_EQ | BIT_GT
  }

  /** One matcher: its kind, its position in the source text, and the predicate it carries when the kind is That. */
  datatype Spec = Spec(kind: Kind, prio: nat, predicate_: nat)

  /** What user code contributes to one call: how its predicates judge values, and what its result pointers point at. */
  datatype Env = Env(holds: (nat, int) -> bool, deref: nat -> int)

  /** Whether `v` satisfies the matcher written with reference value `ref`. */
  predicate Satisfies(m: Spec, ref: int, v: int, env: Env) {
    match m.kind
    case Any => true
    case That => env.holds(m.predicate_, v)
    case Eq => v == ref
    case Neq => v != ref
    case Lt => v < ref
    case Leq => v <= ref
    case Gt => v > ref
    case Geq => v >= ref
  }

  /** Parameter `n` of a pattern: the n-th matcher when there is one, equality with the reference value when not. */
  predicate AcceptsParam(ms: seq<Spec>, refs: seq<int>, args: seq<int>, env: Env, n: nat)
    requires n < |refs| == |args|
  {
    if n < |ms| then Satisfies(ms[n], refs[n], args[n], env) else args[n] == refs[n]
  }

  /** Whether a call with `args` fits the pattern of a session made with `refs` and the matchers `ms`. */
  predicate Accepts(ms: seq<Spec>, refs: seq<int>, args: seq<int>, env: Env) {
    |args| == |refs| && forall n | 0 <= n < |args| :: AcceptsParam(ms, refs, args, env, n)
  }

  /** What a pattern asks of a call, kind by kind. */
  lemma PatternAsks(ms: seq<Spec>, refs: seq<int>, args: seq<int>, env: Env)
    ensures Accepts(ms, refs, args, env) <==>
      && |args| == |refs|
      && (forall n | |ms| <= n < |args| :: args[n] == refs[n])
      && (forall n | 0 <= n < |ms| && n < |args| ::
            && (ms[n].kind == That ==> env.holds(ms[n].predicate_, args[n]))
            && (ms[n].kind == Eq ==> args[n] == refs[n])
            && (ms[n].kind == Neq ==> args[n] < refs[n] || refs[n] < args[n])
            && (ms[n].kind == Lt ==> args[n] < refs[n])
            && (ms[n].kind == Leq ==> !(refs[n] < args[n]))
            && (ms[n].kind == Gt ==> refs[n] < args[n])
            && (ms[n].kind == Geq ==> !(args[n] < refs[n])))
  {
    if |args| == |refs| {
      forall n | 0 <= n < |args|
        ensures n < |ms| ==> (AcceptsParam(ms, refs, args, env, n) <==> Satisfies(ms[n], refs[n], args[n], env))
        ensures n >= |ms| ==> (AcceptsParam(ms, refs, args, env, n) <==> args[n] == refs[n])
      {
      }
    }
  }

  /** Without matchers a pattern is a list of values, and only those values fit. */
  lemma NoMatchersIsEquality(refs: seq<int>, args: seq<int>, env: Env)
    ensures Accepts([], refs, args, env) <==> args == refs
  {
    if Accepts([], refs, args, env) {
      forall n | 0 <= n < |args|
        ensures args[n] == refs[n]
      {
        assert AcceptsParam([], refs, args, env, n);
      }
    }
  }

  // ---- the order of matchers ----

  predicate SortedByPrio(ms: seq<Spec>) {
    forall i, j | 0 <= i < j < |ms| :: ms[i].prio < ms[j].prio
  }

  /** In front of the first matcher that does not come earlier in the source text. */
  function Insert(ms: seq<Spec>, m: Spec): (r: seq<Spec>)
    ensures |r| == |ms| + 1
  {
    if ms == [] || ms[0].prio >= m.prio then [m] + ms else [ms[0]] + Insert(ms[1..], m)
  }

  /** The matchers collected while the arguments of a call are evaluated in the order of `evaluated`. */
  function Collect(evaluated: seq<Spec>): seq<Spec> {
    if evaluated == [] then []
    else Insert(Collect(evaluated[..|evaluated| - 1]), evaluated[|evaluated| - 1])
  }

  predicate DistinctPrios(ms: seq<Spec>) {
    forall i, j | 0 <= i < j < |ms| :: ms[i].prio != ms[j].prio
  }

  /** `s` with `x` in front of what was at position `at`. */
  function Splice<T>(s: seq<T>, at: nat, x: T): (r: seq<T>)
    requires at <= |s|
    ensures |r| == |s| + 1 && r[at] == x
    ensures forall i | 0 <= i < at :: r[i] == s[i]
    ensures forall i | at < i < |r| :: r[i] == s[i - 1]
  {
    s[..at] + [x] + s[at..]
  }

  /** The place at which Insert puts a matcher. */
  lemma {:induction false} InsertAt(ms: seq<Spec>, m: Spec, at: nat)
    requires at <= |ms|
    requires forall i | 0 <= i < at :: ms[i].prio < m.prio
    requires at < |ms| ==> m.prio <= ms[at].prio
    ensures Insert(ms, m) == Splice(ms, at, m)
  {
    if at > 0 {
      InsertAt(ms[1..], m, at - 1);
    }
  }

  lemma {:induction false} InsertKeepsContents(ms: seq<Spec>, m: Spec)
    ensures multiset(Insert(ms, m)) == multiset(ms) + multiset{m}
  {
    if ms == [] || ms[0].prio >= m.prio {
    } else {
      InsertKeepsContents(ms[1..], m);
      assert ms == [ms[0]] + ms[1..];
    }
  }

  lemma {:induction false} InsertKeepsOrder(ms: seq<Spec>, m: Spec)
    requires SortedByPrio(ms) && forall i | 0 <= i < |ms| :: ms[i].prio != m.prio
    ensures SortedByPrio(Insert(ms, m))
  {
    var at := 0;
    while at < |ms| && ms[at].prio < m.prio
      invariant at <= |ms| && forall i | 0 <= i < at :: ms[i].prio < m.prio
    {
      at := at + 1;
    }
    InsertAt(ms, m, at);
  }

  /** What is collected is exactly what was evaluated, in source order. */
  lemma {:induction false} CollectSorts(evaluated: seq<Spec>)
    requires DistinctPrios(evaluated)
    ensures multiset(Collect(evaluated)) == multiset(evaluated)
    ensures SortedByPrio(Collect(evaluated))
  {
    if evaluated != [] {
      var before, m := evaluated[..|evaluated| - 1], evaluated[|evaluated| - 1];
      assert evaluated == before + [m];
      CollectSorts(before);
      var ms := Collect(before);
      InsertKeepsContents(ms, m);
      forall i | 0 <= i < |ms|
        ensures ms[i].prio != m.prio
      {
        assert ms[i] in multiset(ms);
        assert ms[i] in before;
      }
      InsertKeepsOrder(ms, m);
    }
  }

  lemma SameLeast(a: seq<Spec>, b: seq<Spec>)
    requires a != [] && b != [] && SortedByPrio(a) && SortedByPrio(b)
    requires a[0] in b && b[0] in a
    ensures a[0] == b[0]
  {
    var i :| 0 <= i < |b| && b[i] == a[0];
    var j :| 0 <= j < |a| && a[j] == b[0];
    assert a[0].prio <= a[j].prio == b[0].prio <= b[i].prio;
    assert i == 0;
  }

  lemma WithoutFirst(a: seq<Spec>)
    requires a != []
    ensures multiset(a[1..]) == multiset(a) - multiset{a[0]}
  {
    assert a == [a[0]] + a[1..];
  }

  lemma {:induction false} SortedIsUnique(a: seq<Spec>, b: seq<Spec>)
    requires SortedByPrio(a) && SortedByPrio(b) && multiset(a) == multiset(b)
    ensures a == b
  {
    assert |a| == |multiset(a)| == |b|;
    if a != [] {
      assert a[0] in multiset(b) && b[0] in multiset(a);
      SameLeast(a, b);
      WithoutFirst(a);
      WithoutFirst(b);
      SortedIsUnique(a[1..], b[1..]);
    }
  }

  /** The collected list does not depend on the order in which the compiler evaluates the arguments. */
  lemma EvaluationOrderIsIrrelevant(one: seq<Spec>, other: seq<Spec>)
    requires DistinctPrios(one) && multiset(one) == multiset(other)
    ensures Collect(one) == Collect(other)
  {
    PermutedPrios(one, other);
    CollectSorts(one);
    CollectSorts(other);
    SortedIsUnique(Collect(one), Collect(other));
  }

  /**
   The matchers of a call, written left to right with increasing counters, reach the parameters in that order
   whatever the evaluation order was.
   */
  lemma MatcherMeetsItsParameter(written: seq<Spec>, evaluated: seq<Spec>)
    requires SortedByPrio(written) && multiset(written) == multiset(evaluated)
    ensures Collect(evaluated) == written
  {
    EvaluationOrderIsIrrelevant(written, evaluated);
    CollectSorts(written);
    SortedIsUnique(Collect(written), written);
  }

  lemma PermutedPrios(one: seq<Spec>, other: seq<Spec>)
    requires DistinctPrios(one) && multiset(one) == multiset(other)
    ensures DistinctPrios(other)
  {
    forall i, j | 0 <= i < j < |other|
      ensures other[i].prio != other[j].prio
    {
      if other[i] == other[j] {
        TwiceInSeq(other, i, j);
        TwiceMeansTwoPlaces(one, other[i]);
      } else {
        assert other[i] in multiset(one) && other[j] in multiset(one);
        var k :| 0 <= k < |one| && one[k] == other[i];
        var l :| 0 <= l < |one| && one[l] == other[j];
        assert k != l;
      }
    }
  }

  lemma TwiceInSeq(s: seq<Spec>, i: nat, j: nat)
    requires i < j < |s| && s[i] == s[j]
    ensures multiset(s)[s[i]] >= 2
  {
    assert s == s[..j] + [s[j]] + s[j + 1..];
    assert s[..j] == s[..i] + [s[i]] + s[i + 1..j];
  }

  lemma {:induction false} TwiceMeansTwoPlaces(s: seq<Spec>, m: Spec)
    requires multiset(s)[m] >= 2
    ensures exists i, j | 0 <= i < j < |s| :: s[i] == m && s[j] == m
  {
    assert s == [s[0]] + s[1..];
    if s[0] == m {
      assert m in multiset(s[1..]);
      var j :| 0 <= j < |s[1..]| && s[1..][j] == m;
      assert s[j + 1] == m;
    } else {
      TwiceMeansTwoPlaces(s[1..], m);
      var i, j :| 0 <= i < j < |s[1..]| && s[1..][i] == m && s[1..][j] == m;
      assert s[i + 1] == m && s[j + 1] == m;
    }
  }
}

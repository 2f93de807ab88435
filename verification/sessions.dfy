/** The thread's state, the body that every stub of a mock runs, and the mmk_when and mmk_verify sessions. */
module Sessions {
  import opened Bytes
  import opened CHeap
  import opened CallLogs
  import opened Patterns
  import opened Matchers
  import opened ParamStructs
  import opened Contracts
  import opened Freeing
  import opened MockContexts
  import Got
  import Machine
  import Resets
  import Transparency

  const WHEN: bv32 := 0
  const VERIFY: bv32 := 1

  /** The range of an `unsigned`. */
  const UINT_LIMIT: nat := 0x1_0000_0000

  type Unsigned = n: int | 0 <= n < UINT_LIMIT

  lemma UnsignedHasFourBytes()
    ensures UINT_LIMIT == Pow256(4)
  {
    assert Pow256(2) == 0x1_0000;
  }

  /** The library's thread-local variables. */
  class Thread {
    var mockCalled: Unsigned
    var matcherCtx: Matcher?
    var curResult: Option<Result>
    var times: nat

    /** The list that hangs off matcherCtx while a session is open. */
    ghost var chain: seq<Matcher>

    constructor ()
      ensures Idle()
    {
      mockCalled := 0;
      matcherCtx := null;
      curResult := None;
      times := 0;
      chain := [];
    }

    /** Between sessions. */
    predicate Idle()
      reads this
    {
      mockCalled == 0 && matcherCtx == null
    }

    /** A session of the given kind is open, its list is allocated and apart from the mock. */
    ghost predicate Open(heap: Heap, kind: bv32, mock: Mock)
      reads this, heap, chain, mock
    {
      && MatcherList(matcherCtx, chain) && chain[0].kind == kind
      && ChainSet(chain) <= heap.live && ChainSet(chain) !! mock.Repr
    }

    method ReportCall()
      modifies this`mockCalled
      ensures mockCalled == (old(mockCalled) + 1) % UINT_LIMIT
    {
      mockCalled := (mockCalled + 1) % UINT_LIMIT;
    }

    /** Panics unless exactly one call was reported since the last reset, as far as the counter can tell. */
    method ResetCall() returns (panicked: bool)
      modifies this`mockCalled
      ensures panicked <==> old(mockCalled) != 1
      ensures !panicked ==> mockCalled == 0
    {
      var val := mockCalled;
      if val == 0 {
        return true;
      }
      if val > 1 {
        return true;
      }
      mockCalled := 0;
      return false;
    }

    method MatcherInit(heap: Heap, kind: bv32)
      modifies this`matcherCtx, this`chain, heap
      ensures matcherCtx != null && fresh(matcherCtx) && chain == [matcherCtx] && matcherCtx.kind == kind
      ensures ChainSet(chain) == {matcherCtx}
      ensures MatcherList(matcherCtx, chain) && Specs(chain) == []
      ensures heap.live == old(heap.live) + {matcherCtx}
    {
      var ctx := new Matcher(kind, 0, 0, Spec(Any, 0, 0));
      heap.Allocated(ctx);
      matcherCtx := ctx;
      chain := [ctx];
      assert chain[0] == ctx;
    }

    /** One matcher argument. */
    method AddMatcher(heap: Heap, m: Spec) returns (ghost out: Matcher)
      requires MatcherList(matcherCtx, chain) && ChainSet(chain) <= heap.live
      modifies this`chain, heap, chain`next
      ensures fresh(out) && heap.live == old(heap.live) + {out}
      ensures MatcherList(matcherCtx, chain) && chain[0] == old(chain[0])
      ensures ChainSet(chain) == old(ChainSet(chain)) + {out}
      ensures Specs(chain) == Insert(old(Specs(chain)), m)
    {
      ghost var at;
      out, at := AddData(heap, matcherCtx, m.kind, m.prio, m.predicate_, chain);
      SpliceSet(chain, at, out);
      chain := Splice(chain, at, out);
    }

    lemma ListIsOpen()
      requires MatcherList(matcherCtx, chain)
      ensures chain != [] && matcherCtx != null && forall k | 0 <= k < |chain| :: chain[k] in ChainSet(chain)
    {
    }

    /** The matchers of the call's arguments, in the order in which the compiler evaluates them. */
    method Evaluate(heap: Heap, evaluated: seq<Spec>) returns (ghost added: set<Matcher>)
      requires MatcherList(matcherCtx, chain) && ChainSet(chain) <= heap.live && Specs(chain) == []
      modifies this`chain, heap, ChainSet(chain)`next
      ensures MatcherList(matcherCtx, chain) && chain[0] == old(chain[0])
      ensures Specs(chain) == Collect(evaluated)
      ensures fresh(added) && ChainSet(chain) == old(ChainSet(chain)) + added
      ensures heap.live == old(heap.live) + added
    {
      hide MatcherList, Specs, Insert, ChainSet;
      ListIsOpen();
      added := {};
      var i := 0;
      while i < |evaluated|
        invariant i <= |evaluated| && chain != [] && matcherCtx != null
        invariant MatcherList(matcherCtx, chain) && chain[0] == old(chain[0])
        invariant Specs(chain) == Collect(evaluated[..i])
        invariant fresh(added) && ChainSet(chain) == old(ChainSet(chain)) + added
        invariant heap.live == old(heap.live) + added
      {
        assert evaluated[..i + 1][..i] == evaluated[..i];
        ListIsOpen();
        ghost var out := AddMatcher(heap, evaluated[i]);
        ListIsOpen();
        added := added + {out};
        i := i + 1;
      }
      assert evaluated[..i] == evaluated;
    }

    /** The first steps of both macros: a new list head, then the matchers of the call's arguments. */
    method OpenSession(heap: Heap, kind: bv32, evaluated: seq<Spec>, ghost mock: Mock)
      requires Idle() && mock.Valid() && heap !in mock.Repr && this !in mock.Repr
      modifies this`matcherCtx, this`chain, heap
      ensures Open(heap, kind, mock) && Specs(chain) == Collect(evaluated)
      ensures fresh(ChainSet(chain)) && heap.live == old(heap.live) + ChainSet(chain)
      ensures mock.Valid() && mock.Contracts() == old(mock.Contracts()) && mock.Calls() == old(mock.Calls())
    {
      hide Mock.Valid, Mock.Contracts, Mock.Calls, MatcherList, Collect, Specs;
      MatcherInit(heap, kind);
      ghost var added := Evaluate(heap, evaluated);
    }

    /** The stub body while a when session is open: a new contract. */
    method Define(heap: Heap, mock: Mock, args: seq<int>)
      requires mock.Valid() && heap !in mock.Repr && this !in mock.Repr && mock.Owned() <= heap.live
      requires Open(heap, WHEN, mock) && curResult.Some? && |args| == |mock.layout.fields|
      modifies heap, mock.contracts, mock`Repr
      ensures mock.Valid() && heap !in mock.Repr && this !in mock.Repr && mock.Calls() == old(mock.Calls())
      ensures mock.Contracts() == old(mock.Contracts()) + [Contract(curResult.value, old(Specs(chain)), args)]
      ensures mock.Repr >= old(mock.Repr) && fresh(mock.Repr - old(mock.Repr) - ChainSet(chain))
      ensures heap.live == old(heap.live - ChainSet(chain) - mock.Owned()) + mock.Owned()
    {
      hide Mock.Valid, Mock.Owned, Mock.Contracts, Mock.Calls, Specs;
      ghost var live, owned, nodes := heap.live, mock.Owned(), ChainSet(chain);
      ghost var bind := mock.AddContract(heap, matcherCtx, curResult.value, args, chain);
      HandOver(live, owned, nodes, bind);
    }

    /** The stub body while a verify session is open: the calls that fit are counted, and the list is freed. */
    method Tally(heap: Heap, mock: Mock, refs: seq<int>, env: Env)
      requires mock.Valid() && heap !in mock.Repr && this !in mock.Repr && mock.Owned() <= heap.live
      requires Open(heap, VERIFY, mock) && |refs| == |mock.layout.fields|
      modifies this`times, heap
      ensures times == CountAccepted(old(mock.Calls()), old(Specs(chain)), refs, env)
      ensures heap.live == old(heap.live) - ChainSet(chain)
      ensures mock.Valid() && mock.Contracts() == old(mock.Contracts()) && mock.Calls() == old(mock.Calls())
    {
      hide Mock.Valid, Mock.Owned, Mock.Contracts, Mock.Calls, Specs, CountAccepted;
      var count := mock.Count(heap, matcherCtx, refs, env, chain);
      FreeMatchers(heap, matcherCtx, chain);
      times := count;
    }

    /** Counts the call; session and mock are as before. */
    method Report(heap: Heap, kind: bv32, mock: Mock)
      requires mock.Valid() && this !in mock.Repr && Open(heap, kind, mock)
      modifies this`mockCalled
      ensures mockCalled == (old(mockCalled) + 1) % UINT_LIMIT
      ensures mock.Valid() && mock.Contracts() == old(mock.Contracts()) && mock.Calls() == old(mock.Calls())
      ensures Open(heap, kind, mock) && Specs(chain) == old(Specs(chain))
    {
      ReportCall();
    }

    /** The stub body with a when session open. */
    method InWhen(heap: Heap, mock: Mock, args: seq<int>)
      requires mock.Valid() && heap !in mock.Repr && this !in mock.Repr && mock.Owned() <= heap.live
      requires Open(heap, WHEN, mock) && curResult.Some? && |args| == |mock.layout.fields|
      modifies this`mockCalled, heap, mock.contracts, mock`Repr
      ensures mockCalled == (old(mockCalled) + 1) % UINT_LIMIT
      ensures mock.Valid() && heap !in mock.Repr && this !in mock.Repr && mock.Calls() == old(mock.Calls())
      ensures mock.Contracts() == old(mock.Contracts()) + [Contract(curResult.value, old(Specs(chain)), args)]
      ensures fresh(mock.Repr - old(mock.Repr) - ChainSet(chain))
      ensures heap.live == old(heap.live - ChainSet(chain) - mock.Owned()) + mock.Owned()
    {
      hide Mock.Valid, Mock.Owned, Mock.Contracts, Mock.Calls;
      Report(heap, WHEN, mock);
      Define(heap, mock, args);
    }

    /** The stub body with a verify session open. */
    method InVerify(heap: Heap, mock: Mock, refs: seq<int>, env: Env)
      requires mock.Valid() && heap !in mock.Repr && this !in mock.Repr && mock.Owned() <= heap.live
      requires Open(heap, VERIFY, mock) && |refs| == |mock.layout.fields|
      modifies this`mockCalled, this`times, heap
      ensures mockCalled == (old(mockCalled) + 1) % UINT_LIMIT
      ensures times == CountAccepted(old(mock.Calls()), old(Specs(chain)), refs, env)
      ensures heap.live == old(heap.live) - ChainSet(chain) && matcherCtx != null && matcherCtx !in heap.live
      ensures mock.Valid() && mock.Contracts() == old(mock.Contracts()) && mock.Calls() == old(mock.Calls())
    {
      hide Mock.Valid, Mock.Owned, Mock.Contracts, Mock.Calls;
      Report(heap, VERIFY, mock);
      Tally(heap, mock, refs, env);
      assert chain[0] in ChainSet(chain);
    }

    /**
     The body of every stub. With a session open the call belongs to the session and yields zero; otherwise it is an
     ordinary call: it is logged, and then the contracts decide.
     */
    method StubBody(heap: Heap, mock: Mock, args: seq<int>, garbage: seq<byte>, env: Env) returns (e: Effect)
      requires mock.Valid() && heap !in mock.Repr && this !in mock.Repr && mock.Owned() <= heap.live
      requires matcherCtx != null ==> Open(heap, WHEN, mock) || Open(heap, VERIFY, mock)
      requires matcherCtx != null && matcherCtx.kind == WHEN ==> curResult.Some?
      requires ArgsFit(mock.layout, args) && |garbage| == mock.layout.size
      requires mock.log.Room(1)
      modifies this`mockCalled, this`times, heap, mock.contracts, mock.log, mock.log.callData, mock`Repr
      ensures mock.Valid() && heap !in mock.Repr && this !in mock.Repr
      ensures matcherCtx != null ==> e == NOTHING && mockCalled == (old(mockCalled) + 1) % UINT_LIMIT
      ensures matcherCtx != null ==> mock.Calls() == old(mock.Calls())
      ensures old(matcherCtx != null && matcherCtx.kind == WHEN) ==>
        && mock.Contracts() == old(mock.Contracts()) + [Contract(curResult.value, old(Specs(chain)), args)]
        && heap.live == old(heap.live - ChainSet(chain) - mock.Owned()) + mock.Owned()
      ensures old(matcherCtx != null && matcherCtx.kind == VERIFY) ==>
        && times == CountAccepted(old(mock.Calls()), old(Specs(chain)), args, env)
        && mock.Contracts() == old(mock.Contracts()) && heap.live == old(heap.live) - ChainSet(chain)
      ensures matcherCtx == null ==>
        && e == CallEffect(old(mock.Contracts()), args, env)
        && mock.Contracts() == old(mock.Contracts()) && mock.Calls() == old(mock.Calls()) + [args]
        && mockCalled == old(mockCalled)
        && fresh(mock.Repr - old(mock.Repr)) && heap.live == old(heap.live - mock.Owned()) + mock.Owned()
        && |mock.log.history| == old(|mock.log.history|) + 1
        && mock.log.callDataTop <= old(mock.log.callDataTop) + mock.layout.size + WORD
    {
      hide Mock.Valid, Mock.Owned, Mock.Contracts, Mock.Calls, CallEffect, CountAccepted;
      if matcherCtx != null {
        assert matcherCtx in ChainSet(chain);
        heap.Use(matcherCtx);
        if matcherCtx.kind == WHEN {
          InWhen(heap, mock, args);
        } else if matcherCtx.kind == VERIFY {
          InVerify(heap, mock, args, env);
        }
        return NOTHING;
      }
      e := mock.Call(heap, args, garbage, env);
    }

    /**
     Further mocked calls in the same expression each look at the head of the session's list and count. `stale`: the
     head was no longer allocated.
     */
    method CountRest(heap: Heap, calls: nat, mock: Mock) returns (ghost stale: bool)
      requires mock.Valid() && this !in mock.Repr && matcherCtx != null
      modifies this`mockCalled
      ensures mockCalled == (old(mockCalled) + calls) % UINT_LIMIT && (stale <==> calls > 0 && matcherCtx !in heap.live)
      ensures mock.Valid() && mock.Contracts() == old(mock.Contracts()) && mock.Calls() == old(mock.Calls())
    {
      hide Mock.Valid, Mock.Contracts, Mock.Calls;
      stale := false;
      for i := 0 to calls
        invariant mockCalled == (old(mockCalled) + i) % UINT_LIMIT && (stale <==> i > 0 && matcherCtx !in heap.live)
      {
        stale := stale || matcherCtx !in heap.live;
        CounterStep(old(mockCalled), i);
        ReportCall();
      }
    }

    /**
     mmk_when: the expression evaluates its matchers and makes `calls` mocked calls, the first of them with `args`. It
     ends in panic unless the counter has come to one; one call adds one contract.
     */
    method When(heap: Heap, slots: array<Got.Fn>, m: Machine.Processor, line: Resets.Line, ghost mock: Mock,
                evaluated: seq<Spec>, calls: nat, args: seq<int>, result: Result)
      returns (panicked: bool)
      requires Idle() && mock.Valid() && heap !in mock.Repr && this !in mock.Repr && mock.Owned() <= heap.live
      requires |args| == |mock.layout.fields| && m !in mock.Repr
      requires Resets.Connected(line, slots[..], m.mem, mock) && m.tls.asked == 0
      modifies this, heap, mock.contracts, mock`Repr
      modifies m`gpr, m`xmm, m`high, m`zero, m`mem, m`tls, m`trace, m`pc, m`exit
      ensures panicked <==> calls % UINT_LIMIT != 1
      ensures calls == 1 ==>
        && Idle() && mock.Valid() && heap !in mock.Repr && this !in mock.Repr
        && mock.Calls() == old(mock.Calls())
        && mock.Contracts() == old(mock.Contracts()) + [Contract(result, Collect(evaluated), args)]
        && heap.live == old(heap.live - mock.Owned()) + mock.Owned()
        && fresh(mock.Repr - old(mock.Repr))
      ensures (calls > 0 ==> Transparency.OnlyStack(line.sys, old(m.mem), m.mem)) && m.tls.asked == 0
    {
      hide Mock.Valid, Mock.Owned, Mock.Contracts, Mock.Calls, Open, Specs, Collect, Resets.Connected,
           Transparency.OnlyStack;
      ghost var live, owned := heap.live, mock.Owned();
      BeginWhen(heap, mock, evaluated, result);
      if calls > 0 {
        ghost var nodes := ChainSet(chain);
        var found := Resets.Ring(heap, slots, m, line, mock);
        CallInWhen(heap, found, calls, args);
        NodesMovedIn(live, nodes, owned, mock.Owned());
      }
      panicked := CloseWhen(mock);
    }

    method CallInWhen(heap: Heap, mock: Mock, calls: nat, args: seq<int>)
      requires mock.Valid() && heap !in mock.Repr && this !in mock.Repr && mock.Owned() <= heap.live && calls > 0
      requires Open(heap, WHEN, mock) && curResult.Some? && |args| == |mock.layout.fields|
      modifies this`mockCalled, heap, mock.contracts, mock`Repr
      ensures mockCalled == (old(mockCalled) + calls) % UINT_LIMIT
      ensures mock.Valid() && heap !in mock.Repr && this !in mock.Repr && mock.Calls() == old(mock.Calls())
      ensures mock.Contracts() == old(mock.Contracts()) + [Contract(curResult.value, old(Specs(chain)), args)]
      ensures fresh(mock.Repr - old(mock.Repr) - ChainSet(chain))
      ensures heap.live == old(heap.live - ChainSet(chain) - mock.Owned()) + mock.Owned()
    {
      hide Mock.Valid, Mock.Owned, Mock.Contracts, Mock.Calls;
      InWhen(heap, mock, args);
      ghost var stale := CountRest(heap, calls - 1, mock);
    }

    method BeginWhen(heap: Heap, ghost mock: Mock, evaluated: seq<Spec>, result: Result)
      requires Idle() && mock.Valid() && heap !in mock.Repr && this !in mock.Repr
      modifies this`matcherCtx, this`chain, this`curResult, heap
      ensures Open(heap, WHEN, mock) && Specs(chain) == Collect(evaluated) && curResult == Some(result)
      ensures fresh(ChainSet(chain)) && heap.live == old(heap.live) + ChainSet(chain)
      ensures mock.Valid() && mock.Contracts() == old(mock.Contracts()) && mock.Calls() == old(mock.Calls())
    {
      OpenSession(heap, WHEN, evaluated, mock);
      curResult := Some(result);
    }

    /**
     mmk_verify: as for mmk_when; with exactly one mocked call the verdict is about the calls its pattern accepts, and
     neither log nor contracts nor heap blocks change. Every further call reads the list the first one has freed.
     */
    method Verify(heap: Heap, slots: array<Got.Fn>, m: Machine.Processor, line: Resets.Line, ghost mock: Mock,
                  evaluated: seq<Spec>, calls: nat, refs: seq<int>, expected: Expected, env: Env)
      returns (panicked: bool, ok: bool, ghost stale: bool)
      requires Idle() && mock.Valid() && heap !in mock.Repr && this !in mock.Repr && mock.Owned() <= heap.live
      requires |refs| == |mock.layout.fields| && m !in mock.Repr
      requires Resets.Connected(line, slots[..], m.mem, mock) && m.tls.asked == 0
      modifies this, heap, m`gpr, m`xmm, m`high, m`zero, m`mem, m`tls, m`trace, m`pc, m`exit
      ensures (panicked <==> calls % UINT_LIMIT != 1) && (stale <==> calls > 1)
      ensures calls == 1 ==>
        && ok == Verdict(expected, CountAccepted(old(mock.Calls()), Collect(evaluated), refs, env))
        && Idle() && heap.live == old(heap.live)
        && mock.Valid() && mock.Contracts() == old(mock.Contracts()) && mock.Calls() == old(mock.Calls())
      ensures (calls > 0 ==> Transparency.OnlyStack(line.sys, old(m.mem), m.mem)) && m.tls.asked == 0
    {
      hide Mock.Valid, Mock.Owned, Mock.Contracts, Mock.Calls, Open, Specs, Collect, Resets.Connected,
           Transparency.OnlyStack;
      OpenSession(heap, VERIFY, evaluated, mock);
      stale := false;
      if calls > 0 {
        var found := Resets.Ring(heap, slots, m, line, mock);
        InVerify(heap, found, refs, env);
        stale := CountRest(heap, calls - 1, found);
      }
      panicked, ok := CloseVerify(mock, expected);
    }

    method CloseVerify(ghost mock: Mock, expected: Expected) returns (panicked: bool, ok: bool)
      requires mock.Valid() && this !in mock.Repr
      modifies this`mockCalled, this`matcherCtx, this`chain
      ensures panicked <==> old(mockCalled) != 1
      ensures !panicked ==> Idle() && ok == Verdict(expected, times)
      ensures mock.Valid() && mock.Contracts() == old(mock.Contracts()) && mock.Calls() == old(mock.Calls())
    {
      hide Mock.Valid, Mock.Owned, Mock.Contracts, Mock.Calls;
      matcherCtx := null;
      chain := [];
      panicked := ResetCall();
      ok := false;
      if !panicked {
        ok := VerifyTimes(expected, times);
      }
    }

    method CloseWhen(ghost mock: Mock) returns (panicked: bool)
      requires mock.Valid() && this !in mock.Repr
      modifies this`mockCalled, this`matcherCtx, this`chain
      ensures panicked <==> old(mockCalled) != 1
      ensures !panicked ==> Idle()
      ensures mock.Valid() && mock.Contracts() == old(mock.Contracts()) && mock.Calls() == old(mock.Calls())
    {
      hide Mock.Valid, Mock.Owned, Mock.Contracts, Mock.Calls;
      panicked := ResetCall();
      if !panicked {
        matcherCtx := null;
        chain := [];
      }
    }
  }

  /** The counter wraps around. */
  lemma CounterStep(n: nat, i: nat)
    ensures ((n + i) % UINT_LIMIT + 1) % UINT_LIMIT == (n + i + 1) % UINT_LIMIT
  {
  }

  lemma HandOver(live: set<object>, owned: set<object>, nodes: set<object>, bind: object)
    requires owned <= live && nodes <= live
    ensures live + {bind} == live - nodes - owned + (owned + nodes + {bind})
  {
  }

  lemma NodesMovedIn(live: set<object>, nodes: set<object>, before: set<object>, after: set<object>)
    requires nodes !! live
    ensures live + nodes - nodes - before + after == live - before + after
  {
  }

  lemma SpliceSet(chain: seq<Matcher>, at: nat, out: Matcher)
    requires at <= |chain|
    ensures ChainSet(Splice(chain, at, out)) == ChainSet(chain) + {out}
  {
    var after := Splice(chain, at, out);
    forall m | m in ChainSet(chain) + {out}
      ensures m in ChainSet(after)
    {
      if m != out {
        var i :| 0 <= i < |chain| && chain[i] == m;
        assert after[if i < at then i else i + 1] == m;
      }
    }
  }
}

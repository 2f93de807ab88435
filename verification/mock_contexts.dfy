/** A mock: its contracts, its call log and its stubs, and what the stub body does with them. */
module MockContexts {
  import opened Bytes
  import opened CHeap
  import opened CallRecords
  import opened CallLogs
  import opened Patterns
  import opened Matchers
  import opened ParamStructs
  import opened Contracts
  import opened Mocks
  import opened Freeing
  import opened ContractLists
  import opened Stubs
  import opened Context
  import opened Machine
  import Got

  // ---- a log as calls ----

  /** The calls a log stands for, as argument lists. */
  ghost function CallsOf(l: Layout, history: seq<Key>): (calls: seq<seq<int>>)
    requires ValidLayout(l) && forall i | 0 <= i < |history| :: WORD + |history[i]| == l.size
    ensures |calls| == |history|
  {
    seq(|history|, i requires 0 <= i < |history| => KeyParams(l, history[i]))
  }

  lemma CallsOfAppend(l: Layout, history: seq<Key>, key: Key, args: seq<int>)
    requires ValidLayout(l) && (forall i | 0 <= i < |history| :: WORD + |history[i]| == l.size)
    requires WORD + |key| == l.size && KeyParams(l, key) == args
    ensures forall i | 0 <= i < |history + [key]| :: WORD + |(history + [key])[i]| == l.size
    ensures CallsOf(l, history + [key]) == CallsOf(l, history) + [args]
  {
  }

  lemma {:induction false} KeysCountAsCalls(l: Layout, history: seq<Key>, ms: seq<Spec>, refs: seq<int>, env: Env)
    requires ValidLayout(l) && forall i | 0 <= i < |history| :: WORD + |history[i]| == l.size
    ensures CountWhere(history, Fit(l, ms, refs, env)) == CountAccepted(CallsOf(l, history), ms, refs, env)
  {
    if history != [] {
      var n := |history| - 1;
      KeysCountAsCalls(l, history[..n], ms, refs, env);
      assert CallsOf(l, history)[..n] == CallsOf(l, history[..n]);
      assert CallsOf(l, history)[n] == KeyParams(l, history[n]);
    }
  }

  /** The times of the records that fit a pattern add up to the number of calls that fit it, merged or not. */
  lemma LogCountIsCallCount(l: Layout, history: seq<Key>, ms: seq<Spec>, refs: seq<int>, env: Env)
    requires ValidLayout(l) && forall i | 0 <= i < |history| :: WORD + |history[i]| == l.size
    ensures TimesWhere(LogOf(history), Fit(l, ms, refs, env)) == CountAccepted(CallsOf(l, history), ms, refs, env)
  {
    TimesWhereIsCount(history, Fit(l, ms, refs, env));
    KeysCountAsCalls(l, history, ms, refs, env);
  }

  /** Builds the parameter struct of a call and logs it. */
  method LogCall(heap: Heap, log: CallLog, l: Layout, args: seq<int>, garbage: seq<byte>)
    requires ValidLayout(l) && log.Valid() && log.recordSize == l.size && log.Blocks() <= heap.live
    requires ArgsFit(l, args) && |garbage| == l.size
    requires log.Room(1)
    modifies log, log.callData, heap
    ensures log.Valid() && CallsOf(l, log.history) == old(CallsOf(l, log.history)) + [args]
    ensures heap.live == old(heap.live) - old(log.Blocks()) + log.Blocks()
    ensures fresh(log.Blocks() - old(log.Blocks()))
    ensures |log.history| == old(|log.history|) + 1 && log.callDataTop <= old(log.callDataTop) + l.size + WORD
  {
    var regParams := StructBytes(l, args, garbage);
    StructHoldsArgs(l, args, garbage);
    CallsOfAppend(l, log.history, regParams[WORD..], args);
    log.RegisterCall(heap, regParams, l.size);
  }

  lemma SwapBlocks(live: set<object>, before: set<object>, after: set<object>, a: set<object>, b: set<object>,
                   c: set<object>)
    requires a <= live && b <= live && c <= live && before !! a && before !! b && before !! c
    ensures live - before + after == live - (a + before + b + c) + (a + after + b + c)
  {
  }

  lemma StubBlocksHas(ss: seq<Stub>)
    ensures forall i | 0 <= i < |ss| :: ss[i].Blocks() <= StubBlocks(ss)
  {
    if ss != [] {
      StubBlocksHas(ss[1..]);
    }
  }

  /** The struct mmk_mock_ctx; its fields on contracts and on the log are grouped in an object each. */
  class Mock {
    const contracts: ContractList
    const log: CallLog
    const layout: Layout
    const address: Pointer
    var stubs: Stub?

    ghost var stubList: seq<Stub>
    ghost var stubBlocks: set<object>
    ghost var Repr: set<object>

    ghost predicate Valid()
      reads this, Repr
    {
      StubBlocksHas(stubList);
      && this in Repr && log in Repr && contracts in Repr
      && Repr == {this, log, contracts} + log.Blocks() + contracts.blocks + stubBlocks
      && {this, log, contracts} !! log.Blocks() !! contracts.blocks !! stubBlocks
      && ValidLayout(layout) && log.Valid() && log.recordSize == layout.size
      && contracts.Valid() && contracts.arity == |layout.fields|
      && stubBlocks == StubBlocks(stubList) && StubList(stubs, stubList)
    }

    /** Every heap block of this mock. */
    ghost function Owned(): set<object>
      reads this, log, contracts
    {
      {this} + log.Blocks() + contracts.blocks + stubBlocks
    }

    ghost function Contracts(): seq<Contract>
      requires Valid()
      reads this, Repr
    {
      contracts.Contracts()
    }

    /** The calls made so far, oldest first. */
    ghost function Calls(): seq<seq<int>>
      requires Valid()
      reads this, Repr
    {
      CallsOf(layout, log.history)
    }

    constructor (layout: Layout, address: Pointer)
      requires ValidLayout(layout)
      ensures Valid() && fresh(Repr) && this.layout == layout && this.address == address && Owned() == {this}
      ensures Contracts() == [] && Calls() == [] && stubList == []
    {
      this.layout := layout;
      this.address := address;
      stubs := null;
      var log := new CallLog(layout.size);
      var contracts := new ContractList(|layout.fields|);
      this.log := log;
      this.contracts := contracts;
      stubList, stubBlocks := [], {};
      new;
      Repr := {this, log, contracts};
    }

    method Register(heap: Heap, args: seq<int>, garbage: seq<byte>)
      requires Valid() && heap !in Repr && Owned() <= heap.live
      requires ArgsFit(layout, args) && |garbage| == layout.size
      requires log.Room(1)
      modifies log, log.callData, heap, this`Repr
      ensures Valid() && heap !in Repr && fresh(Repr - old(Repr))
      ensures Calls() == old(Calls()) + [args] && Contracts() == old(Contracts())
      ensures heap.live == old(heap.live) - old(Owned()) + Owned()
      ensures |log.history| == old(|log.history|) + 1 && log.callDataTop <= old(log.callDataTop) + layout.size + WORD
    {
      hide CallLog.Valid, ContractList.Valid, ContractList.Contracts, CallsOf, StubList, StubBlocks;
      ghost var live, before := heap.live, log.Blocks();
      Parts(heap);
      heap.Use(this);
      LogCall(heap, log, layout, args, garbage);
      SwapBlocks(live, before, log.Blocks(), {this}, contracts.blocks, stubBlocks);
      Repr := {this, log, contracts} + log.Blocks() + contracts.blocks + stubBlocks;
    }

    /** What a valid mock is made of; its log shares nothing with its contracts. */
    lemma Parts(heap: Heap)
      requires Valid() && heap !in Repr
      ensures log.Valid() && contracts.Valid() && StubList(stubs, stubList) && ValidLayout(layout)
      ensures log.recordSize == layout.size && contracts.arity == |layout.fields|
      ensures heap !in contracts.blocks && log !in contracts.blocks && log.callData !in contracts.blocks
      ensures log.Blocks() <= Owned()
    {
    }

    /** An ordinary call: it is logged, and then the contracts decide. */
    method Call(heap: Heap, args: seq<int>, garbage: seq<byte>, env: Env) returns (e: Effect)
      requires Valid() && heap !in Repr && Owned() <= heap.live
      requires ArgsFit(layout, args) && |garbage| == layout.size
      requires log.Room(1)
      modifies log, log.callData, heap, this`Repr
      ensures Valid() && heap !in Repr && fresh(Repr - old(Repr))
      ensures Calls() == old(Calls()) + [args] && Contracts() == old(Contracts())
      ensures e == CallEffect(old(Contracts()), args, env)
      ensures forall k | 0 <= k < |old(Contracts())| && IsLatest(old(Contracts()), args, env, k) ::
        var r := old(Contracts())[k].result;
        && (e.errno.Some? <==> r.thenErrno != 0) && (e.errno.Some? ==> e.errno.value == r.thenErrno)
        && e.called == r.thenCall
        && (r.thenReturn.Some? ==> e.returned == Pointee(env.deref(r.thenReturn.value)))
        && (r.thenReturn.None? && r.thenCall.Some? ==> e.returned == OfCall(r.thenCall.value))
        && (r.thenReturn.None? && r.thenCall.None? ==> e.returned == Zero)
      ensures (forall c <- old(Contracts()) :: !Accepts(c.matchers, c.refs, args, env)) ==>
        e == Effect(None, None, Zero)
      ensures heap.live == old(heap.live) - old(Owned()) + Owned()
      ensures |log.history| == old(|log.history|) + 1 && log.callDataTop <= old(log.callDataTop) + layout.size + WORD
    {
      Register(heap, args, garbage);
      e := Decide(heap, args, env);
      ghost var defs := old(Contracts());
      forall k | 0 <= k < |defs| && IsLatest(defs, args, env, k) {
        LatestContractDecides(defs, args, env, k);
      }
      if forall c <- defs :: !Accepts(c.matchers, c.refs, args, env) {
        NoContractNoEffect(defs, args, env);
      }
    }

    method Decide(heap: Heap, args: seq<int>, env: Env) returns (e: Effect)
      requires Valid() && |args| == |layout.fields| && Owned() <= heap.live
      ensures e == CallEffect(old(Contracts()), args, env)
      ensures Valid() && Contracts() == old(Contracts()) && Calls() == old(Calls())
    {
      heap.Use(this);
      e := contracts.Decide(heap, args, env);
    }

    /** Stores the contract of a when session: the session's matchers now belong to it, and it comes first. */
    method AddContract(heap: Heap, head: Matcher, result: Result, args: seq<int>, ghost chain: seq<Matcher>)
      returns (ghost bind: Binding)
      requires Valid() && heap !in Repr && Owned() <= heap.live
      requires MatcherList(head, chain) && |args| == |layout.fields|
      requires ChainSet(chain) !! Repr
      modifies heap, contracts, this`Repr
      ensures Valid() && Calls() == old(Calls())
      ensures Contracts() == old(Contracts()) + [Contract(result, old(Specs(chain)), args)]
      ensures fresh(bind) && Repr == old(Repr) + ChainSet(chain) + {bind}
      ensures Owned() == old(Owned()) + ChainSet(chain) + {bind}
      ensures heap.live == old(heap.live) + {bind}
    {
      var item := Allocate(heap, head, result, args, chain);
      bind := item;
      Link(heap, item, head, chain);
    }

    /** A new binding beside this mock; nothing else changes. */
    method Allocate(heap: Heap, head: Matcher, result: Result, args: seq<int>, ghost chain: seq<Matcher>)
      returns (bind: Binding)
      requires Valid() && heap !in Repr && MatcherList(head, chain)
      modifies heap
      ensures fresh(bind) && bind.result == result && bind.params == args
      ensures heap.live == old(heap.live) + {bind}
      ensures Valid() && Contracts() == old(Contracts()) && Calls() == old(Calls())
      ensures MatcherList(head, chain) && Specs(chain) == old(Specs(chain))
    {
      bind := NewBinding(heap, result, args);
    }

    method Link(heap: Heap, bind: Binding, head: Matcher, ghost chain: seq<Matcher>)
      requires Valid() && MatcherList(head, chain) && |bind.params| == |layout.fields|
      requires bind in heap.live && Owned() <= heap.live
      requires ChainSet(chain) !! Repr && bind !in Repr
      modifies bind, contracts, this`Repr
      ensures Valid() && Calls() == old(Calls())
      ensures Contracts() == old(Contracts()) + [Contract(bind.result, old(Specs(chain)), bind.params)]
      ensures Repr == old(Repr) + ChainSet(chain) + {bind}
      ensures Owned() == old(Owned()) + ChainSet(chain) + {bind}
    {
      hide CallLog.Valid, ContractList.Valid, ContractList.Contracts, BindingList, CallsOf;
      StubBlocksHas(stubList);
      heap.Use(this);
      contracts.WhenImpl(heap, bind, head, chain);
      Repr := Repr + ChainSet(chain) + {bind};
    }

    /** The count of a verify session: the calls made so far that its pattern accepts, merged in the log or not. */
    method Count(heap: Heap, head: Matcher, refs: seq<int>, env: Env, ghost chain: seq<Matcher>) returns (times: nat)
      requires Valid() && MatcherList(head, chain) && |refs| == |layout.fields|
      requires Owned() <= heap.live && ChainSet(chain) <= heap.live
      ensures times == CountAccepted(old(Calls()), old(Specs(chain)), refs, env)
      ensures Valid() && Contracts() == old(Contracts()) && Calls() == old(Calls())
      ensures MatcherList(head, chain)
    {
      ghost var ms := Specs(chain);
      if log.callData != null {
        log.ValidImage();
      }
      LogCountIsCallCount(layout, log.history, ms, refs, env);
      heap.Use(this);
      times := CountRecords(heap, log.callData, log.callDataTop, layout, head, refs, env, chain, ms,
                            LogOf(log.history));
    }

    /** Gives everything back: the table slots in the order of the stub list, and every block, once. */
    method Destroy(heap: Heap, slots: array<Got.Fn>, m: Processor)
      requires Valid() && heap !in Repr && slots !in Repr && m !in Repr
      requires Owned() <= heap.live && AllInTable(slots[..], stubList)
      modifies heap, slots, m`reserved
      ensures heap.live == old(heap.live) - old(Owned())
      ensures m.reserved == old(m.reserved) - StubWords(stubList)
      ensures slots[..] == DestroyedInOrder(old(slots[..]), old(stubList))
    {
      StubBlocksHas(stubList);
      hide ContractList.Valid, CallLog.Valid, StubList, StubBlocks, DestroyedInOrder, AllInTable, Stub.Blocks;
      heap.Use(this);
      DestroyStubs(heap, slots, m, stubs, stubList);
      heap.Use(this);
      if log.callData != null {
        heap.Free(log.callData);
      }
      heap.Use(this);
      contracts.Free(heap);
      heap.Free(this);
    }
  }

  /** The log of a mock nobody has called is empty. */
  lemma NewMockHasRoom(mock: Mock, n: nat)
    requires mock.Valid() && mock.Calls() == []
    requires n < SIZE_LIMIT && Needed(n, mock.layout.size + WORD) + PAGE < SIZE_LIMIT
    ensures mock.log.Room(n)
  {
    assert mock.log.history == [];
    if mock.log.callData != null {
      assert Encode(LogOf([])) == [];
      assert |mock.log.callData[..][..mock.log.callDataTop]| == 0;
    }
  }

  lemma OwnedInRepr(mock: Mock)
    requires mock.Valid()
    ensures mock in mock.Repr && mock.contracts in mock.Repr && mock.log in mock.Repr && mock.Owned() <= mock.Repr
    ensures mock.log.callData != null ==> mock.log.callData in mock.Repr
  {
  }
}

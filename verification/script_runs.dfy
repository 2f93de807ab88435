/** The statements about one mock, run on the mock itself: every answer is the documented one. */
module ScriptRuns {
  import opened Bytes
  import opened CHeap
  import opened Patterns
  import opened ParamStructs
  import opened Contracts
  import opened MockContexts
  import opened Sessions
  import opened Scripts
  import opened Freeing
  import opened HookLists
  import Got
  import Machine
  import Resets
  import Transparency

  /** What the stubs of a mock patch and have saved. */
  ghost predicate Hooked(mock: Mock, hooks: seq<Got.Stub>)
    requires mock.Valid()
    reads mock, mock.Repr
  {
    StubBlocksHas(mock.stubList);
    HooksOf(mock.stubList) == hooks
  }

  method DefineOne(heap: Heap, slots: array<Got.Fn>, m: Machine.Processor, line: Resets.Line, t: Thread,
                   ghost mock: Mock, evaluated: seq<Spec>, args: seq<int>, result: Result)
requires t.Idle() && mock.Valid() && heap !in mock.Repr && t !in mock.Repr && mock.Owned() <= heap.live
    requires m !in mock.Repr && Resets.Connected(line, slots[..], m.mem, mock) && m.tls.asked == 0
    requires ArgsFit(mock.layout, args)
    modifies t, heap, mock.contracts, mock`Repr
    modifies m`gpr, m`xmm, m`high, m`zero, m`mem, m`tls, m`trace, m`pc, m`exit
    ensures Transparency.OnlyStack(line.sys, old(m.mem), m.mem) && m.tls.asked == 0 && m !in mock.Repr
    ensures t.Idle() && mock.Valid() && heap !in mock.Repr && t !in mock.Repr
    ensures heap.live == old(heap.live - mock.Owned()) + mock.Owned() && fresh(mock.Repr - old(mock.Repr))
    ensures mock.Contracts() == old(mock.Contracts()) + [Contract(result, Collect(evaluated), args)]
    ensures mock.Calls() == old(mock.Calls())
  {
    var panicked := t.When(heap, slots, m, line, mock, evaluated, 1, args, result);
  }

  method CheckOne(heap: Heap, slots: array<Got.Fn>, m: Machine.Processor, line: Resets.Line, t: Thread,
                  ghost mock: Mock, evaluated: seq<Spec>, refs: seq<int>, expected: Expected, env: Env)
    returns (ok: bool)
    requires t.Idle() && mock.Valid() && heap !in mock.Repr && t !in mock.Repr && mock.Owned() <= heap.live
    requires m !in mock.Repr && Resets.Connected(line, slots[..], m.mem, mock) && m.tls.asked == 0
    requires ArgsFit(mock.layout, refs)
    modifies t, heap
    modifies m`gpr, m`xmm, m`high, m`zero, m`mem, m`tls, m`trace, m`pc, m`exit
    ensures Transparency.OnlyStack(line.sys, old(m.mem), m.mem) && m.tls.asked == 0 && m !in mock.Repr
    ensures t.Idle() && mock.Valid() && heap.live == old(heap.live)
    ensures ok == Verdict(expected, CountAccepted(old(mock.Calls()), Collect(evaluated), refs, env))
    ensures mock.Contracts() == old(mock.Contracts()) && mock.Calls() == old(mock.Calls())
  {
    var panicked;
    ghost var stale;
    panicked, ok, stale := t.Verify(heap, slots, m, line, mock, evaluated, 1, refs, expected, env);
  }

  /** The body of the stub, entered by an ordinary call. */
  method AnswerOne(heap: Heap, t: Thread, mock: Mock, args: seq<int>, garbage: seq<byte>, env: Env, ghost room: nat)
    returns (e: Effect)
    requires t.Idle() && mock.Valid() && heap !in mock.Repr && t !in mock.Repr && mock.Owned() <= heap.live
    requires ArgsFit(mock.layout, args) && |garbage| == mock.layout.size && mock.log.Room(room + 1)
    modifies t, heap, mock.contracts, mock.log, mock.log.callData, mock`Repr
    ensures t.Idle() && mock.Valid() && heap !in mock.Repr && t !in mock.Repr && mock.log.Room(room)
    ensures heap.live == old(heap.live - mock.Owned()) + mock.Owned() && fresh(mock.Repr - old(mock.Repr))
    ensures e == CallEffect(old(mock.Contracts()), args, env)
    ensures mock.Contracts() == old(mock.Contracts()) && mock.Calls() == old(mock.Calls()) + [args]
  {
    assert mock.log.recordSize == mock.layout.size;
    mock.log.RoomForOne(room);
    e := t.StubBody(heap, mock, args, garbage, env);
  }

  method InvokeOne(heap: Heap, slots: array<Got.Fn>, m: Machine.Processor, line: Resets.Line, t: Thread,
                   ghost mock: Mock, args: seq<int>, garbage: seq<byte>, env: Env, ghost room: nat)
    returns (e: Effect)
    requires t.Idle() && mock.Valid() && heap !in mock.Repr && t !in mock.Repr && mock.Owned() <= heap.live
    requires m !in mock.Repr && Resets.Connected(line, slots[..], m.mem, mock) && m.tls.asked == 0
    requires ArgsFit(mock.layout, args) && |garbage| == mock.layout.size && mock.log.Room(room + 1)
    modifies t, heap, mock.contracts, mock.log, mock.log.callData, mock`Repr
    modifies m`gpr, m`xmm, m`high, m`zero, m`mem, m`tls, m`trace, m`pc, m`exit
    ensures Transparency.OnlyStack(line.sys, old(m.mem), m.mem) && m.tls.asked == 0 && m !in mock.Repr
    ensures t.Idle() && mock.Valid() && heap !in mock.Repr && t !in mock.Repr && mock.log.Room(room)
    ensures heap.live == old(heap.live - mock.Owned()) + mock.Owned() && fresh(mock.Repr - old(mock.Repr))
    ensures e == CallEffect(old(mock.Contracts()), args, env)
    ensures mock.Contracts() == old(mock.Contracts()) && mock.Calls() == old(mock.Calls()) + [args]
  {
    hide Mock.Valid, Mock.Owned, Mock.Contracts, Mock.Calls, ArgsFit, CallEffect, Resets.Connected,
         Transparency.OnlyStack;
    var found := Resets.Ring(heap, slots, m, line, mock);
    e := AnswerOne(heap, t, found, args, garbage, env, room);
  }

  /** One statement on its own mock. */
  method Perform(heap: Heap, slots: array<Got.Fn>, m: Machine.Processor, line: Resets.Line, t: Thread, ghost mock: Mock,
                 op: Op, ghost room: nat)
    returns (out: Output)
    requires t.Idle() && mock.Valid() && heap !in mock.Repr && t !in mock.Repr && mock.Owned() <= heap.live
    requires m !in mock.Repr && Resets.Connected(line, slots[..], m.mem, mock) && m.tls.asked == 0
    requires ArgsFit(mock.layout, op.args)
    requires op.Invoke? ==> |op.garbage| == mock.layout.size
    requires mock.log.Room(room + 1)
    modifies t, heap, mock.contracts, mock.log, mock.log.callData, mock`Repr
    modifies m`gpr, m`xmm, m`high, m`zero, m`mem, m`tls, m`trace, m`pc, m`exit
    ensures Transparency.OnlyStack(line.sys, old(m.mem), m.mem) && m.tls.asked == 0 && m !in mock.Repr
    ensures t.Idle() && mock.Valid() && heap !in mock.Repr && t !in mock.Repr
    ensures heap.live == old(heap.live - mock.Owned()) + mock.Owned()
    ensures fresh(mock.Repr - old(mock.Repr))
    ensures mock.Contracts() == old(mock.Contracts()) + if op.Define? then [ContractOf(op)] else []
    ensures mock.Calls() == old(mock.Calls()) + if op.Invoke? then [op.args] else []
    ensures out == match op
      case Define(_, _, _, _) => Defined
      case Check(_, evaluated, refs, expected, env) =>
        Checked(Verdict(expected, CountAccepted(old(mock.Calls()), Collect(evaluated), refs, env)))
      case Invoke(_, args, _, env) => Returned(CallEffect(old(mock.Contracts()), args, env))
    ensures mock.log.Room(room)
  {
    hide mock.Valid, mock.Contracts, mock.Calls, mock.Owned, ArgsFit, Verdict, CallEffect, CountAccepted;
    match op
    case Define(_, evaluated, args, result) =>
      DefineOne(heap, slots, m, line, t, mock, evaluated, args, result);
      assert mock.Calls() + [] == mock.Calls();
      out := Defined;
    case Check(_, evaluated, refs, expected, env) =>
      var ok := CheckOne(heap, slots, m, line, t, mock, evaluated, refs, expected, env);
      assert mock.Calls() + [] == mock.Calls() && mock.Contracts() + [] == mock.Contracts();
      out := Checked(ok);
    case Invoke(_, args, garbage, env) =>
      var e := InvokeOne(heap, slots, m, line, t, mock, args, garbage, env, room);
      assert mock.Contracts() + [] == mock.Contracts();
      out := Returned(e);
  }

  lemma OneMore(ops: seq<Op>, op: Op, m: nat)
    ensures DefsIn(ops + [op], m) == DefsIn(ops, m) + if op.Define? && op.mock == m then [ContractOf(op)] else []
    ensures CallsIn(ops + [op], m) == CallsIn(ops, m) + if op.Invoke? && op.mock == m then [op.args] else []
    ensures op.mock != m ==> DefsIn(ops + [op], m) == DefsIn(ops, m) && CallsIn(ops + [op], m) == CallsIn(ops, m)
  {
    assert (ops + [op])[..|ops|] == ops;
    assert DefsIn(ops, m) + [] == DefsIn(ops, m) && CallsIn(ops, m) + [] == CallsIn(ops, m);
  }

  /** One statement, in terms of the script up to it. */
  method PerformNext(heap: Heap, slots: array<Got.Fn>, m: Machine.Processor, line: Resets.Line, t: Thread,
                     ghost mock: Mock, op: Op, ghost before: seq<Op>, ghost room: nat)
    returns (out: Output)
    requires t.Idle() && mock.Valid() && heap !in mock.Repr && t !in mock.Repr && mock.Owned() <= heap.live
    requires m !in mock.Repr && Resets.Connected(line, slots[..], m.mem, mock) && m.tls.asked == 0
    requires ArgsFit(mock.layout, op.args)
    requires op.Invoke? ==> |op.garbage| == mock.layout.size
    requires mock.log.Room(room + 1)
    requires mock.Contracts() == DefsIn(before, op.mock) && mock.Calls() == CallsIn(before, op.mock)
    modifies t, heap, mock.contracts, mock.log, mock.log.callData, mock`Repr
    modifies m`gpr, m`xmm, m`high, m`zero, m`mem, m`tls, m`trace, m`pc, m`exit
    ensures Transparency.OnlyStack(line.sys, old(m.mem), m.mem) && m.tls.asked == 0 && m !in mock.Repr
    ensures t.Idle() && mock.Valid() && heap !in mock.Repr && t !in mock.Repr && mock.log.Room(room)
    ensures heap.live == old(heap.live - mock.Owned()) + mock.Owned()
    ensures fresh(mock.Repr - old(mock.Repr))
    ensures mock.Contracts() == DefsIn(before + [op], op.mock) && mock.Calls() == CallsIn(before + [op], op.mock)
    ensures out == Answer(before, op)
  {
    OneMore(before, op, op.mock);
    hide mock.Valid, mock.Contracts, mock.Calls, mock.Owned;
    out := Perform(heap, slots, m, line, t, mock, op, room);
  }

  lemma OffsetsApart(mock: Mock)
    requires mock.Valid()
    ensures forall i | 0 <= i < |mock.stubList| ::
      var o: object := mock.stubList[i].offsets;
      o in mock.Repr && o != mock && o != mock.log && o != mock.contracts && o != mock.log.callData
  {
    StubBlocksHas(mock.stubList);
  }

  /** The same, with the hooks of the mock's stubs untouched. */
  method PerformHooked(heap: Heap, slots: array<Got.Fn>, m: Machine.Processor, line: Resets.Line, t: Thread,
                       ghost mock: Mock, op: Op, ghost before: seq<Op>, ghost room: nat, ghost hooks: seq<Got.Stub>)
    returns (out: Output)
    requires t.Idle() && mock.Valid() && heap !in mock.Repr && t !in mock.Repr && mock.Owned() <= heap.live
    requires m !in mock.Repr && Resets.Connected(line, slots[..], m.mem, mock) && m.tls.asked == 0
    requires ArgsFit(mock.layout, op.args)
    requires op.Invoke? ==> |op.garbage| == mock.layout.size
    requires mock.log.Room(room + 1)
    requires mock.Contracts() == DefsIn(before, op.mock) && mock.Calls() == CallsIn(before, op.mock)
    requires Hooked(mock, hooks)
    modifies t, heap, mock.contracts, mock.log, mock.log.callData, mock`Repr
    modifies m`gpr, m`xmm, m`high, m`zero, m`mem, m`tls, m`trace, m`pc, m`exit
    ensures Transparency.OnlyStack(line.sys, old(m.mem), m.mem) && m.tls.asked == 0 && m !in mock.Repr
    ensures t.Idle() && mock.Valid() && heap !in mock.Repr && t !in mock.Repr && mock.log.Room(room)
    ensures heap.live == old(heap.live - mock.Owned()) + mock.Owned()
    ensures fresh(mock.Repr - old(mock.Repr))
    ensures mock.Contracts() == DefsIn(before + [op], op.mock) && mock.Calls() == CallsIn(before + [op], op.mock)
    ensures out == Answer(before, op)
    ensures Hooked(mock, hooks) && mock.stubList == old(mock.stubList)
  {
    hide mock.Valid, mock.Contracts, mock.Calls, mock.Owned, Answer, DefsIn, CallsIn;
    OffsetsApart(mock);
    out := PerformNext(heap, slots, m, line, t, mock, op, before, room);
  }
}

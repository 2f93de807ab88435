/** Whole traversals of the trampoline: it is transparent to the routine, and answers whoever asked for the stub. */
module Transparency {
  import opened Bytes
  import opened Context
  import opened Machine
  import opened Trampoline

  /** The stack the trampoline needs: what it pushes and the return address of the deepest call. */
  const ROOM: nat := 208

  /**
   The processor at the start of the code: the header in front of it names the stub and the routine, the stub starts
   with its three entry points, and the stack has room. None of these words lies in the free part of the stack.
   */
  predicate Ready(w: World, back: int, s: State, stub: Word, routine: Word) {
    && ValidWorld(w) && Valid(s) && s.pc == 0 && s.exit == Running
    && w.sys.bottom + ROOM <= s.gpr[RSP] && s.gpr[RSP] + 8 < SIZE_LIMIT
    && Holds(w, s, w.next as int + back - 0x10, stub) && Holds(w, s, w.next as int + back - 8, routine)
    && StubAt(w, s, stub)
  }

  /** `create_trampoline`: the two header words of the page; the code starts behind them. */
  method CreateTrampoline(m: Processor, page: Word, ctx: Word, routine: Word) returns (start: int)
    modifies m`mem
    ensures start == page as int + 0x10
    ensures Fetch(m.mem, start - 0x10) == ctx && Fetch(m.mem, start - 8) == routine
    ensures forall a | a != start - 0x10 && a != start - 8 :: Fetch(m.mem, a) == Fetch(old(m.mem), a)
  {
    m.mem := m.mem[page as int := ctx];
    m.mem := m.mem[page as int + 8 := routine];
    start := page as int + 0x10;
  }

  // ---- from the entry to the test ----

  lemma {:induction false} SizeFrom(k: nat)
    requires k <= 15
    ensures TotalSize(ITEMS[k..]) == if k <= 6 then 8 * (6 - k) + 136 else if k <= 14 then 16 * (14 - k) + 8 else 0
    decreases 15 - k
  {
    if k < 15 {
      SizeFrom(k + 1);
      assert ITEMS[k..][1..] == ITEMS[k + 1..];
    }
  }

  lemma ItemsSize()
    ensures TotalSize(ITEMS) == 184 && Savable(ITEMS)
  {
    SizeFrom(0);
    assert ITEMS[0..] == ITEMS;
  }

  /** The address behind the first call is on the stack and the stub's address in r11. */
  ghost predicate Entered(w: World, s: State, t: State, stub: Word)
    requires Valid(s) && Valid(t)
  {
    && t.gpr == s.gpr[RSP := t.gpr[RSP]][R11 := stub] && t.gpr[RSP] as int == s.gpr[RSP] as int - 8 && t.xmm == s.xmm
    && Fetch(t.mem, s.gpr[RSP] - 8) == w.next && SameControl(s, t)
    && forall a | Kept(w, s.gpr[RSP], a) :: Fetch(t.mem, a) == Fetch(s.mem, a)
  }

  lemma Enters(w: World, back: int, s: State, stub: Word, routine: Word)
    requires Ready(w, back, s, stub, routine)
    ensures Entered(w, s, RunAll(w, s, Prologue(back)), stub)
  {
    hide RunAll, CallRoutine;
    RunAllInParts(w, s, [Nop, CallNext, Nop], [Pop(R11), Push(R11), Load(back - 0x10, R11, R11)]);
    RunThree(w, s, Nop, CallNext, Nop);
    var a := RunAll(w, s, [Nop, CallNext, Nop]);
    assert a.gpr == s.gpr[RSP := a.gpr[RSP]] && a.gpr[RSP] as int == s.gpr[RSP] - 8;
    RunThree(w, a, Pop(R11), Push(R11), Load(back - 0x10, R11, R11));
    assert Prologue(back) == [Nop, CallNext, Nop] + [Pop(R11), Push(R11), Load(back - 0x10, R11, R11)];
  }

  // ---- up to the test of what mmk_ctx_asked returned ----

  /** All 64 bits of rax after the call of `mmk_ctx_asked`; the psABI leaves the upper half to the callee. */
  function Reply(w: World, tls: Tls): Word {
    w.afterAsked.upper * 0x1_0000_0000 + tls.asked
  }

  /** The registers the trampoline gives back: all but the two scratch registers r10 and r11. */
  predicate GivenBack(s: State, t: State)
    requires Valid(s) && Valid(t)
  {
    && (forall r: Reg | r != 10 && r != 11 && r != RSP :: t.gpr[r] == s.gpr[r])
    && (forall x: Reg | x < 8 :: t.xmm[x] == s.xmm[x])
  }

  /** Everything but the stack pointer is as at the entry, and r11 has the reply. */
  ghost predicate Decided(w: World, s: State, t: State, stub: Word)
    requires Valid(s) && Valid(t)
  {
    var sp := s.gpr[RSP] as int;
    && t.gpr[RSP] as int == sp - 8 && Fetch(t.mem, sp - 8) == w.next && GivenBack(s, t)
    && (forall a | Kept(w, sp, a) :: Fetch(t.mem, a) == Fetch(s.mem, a))
    && t.exit == Running && t.tls == Tls(0, stub) && t.gpr[R11] == Reply(w, s.tls) && t.high == w.afterAsked.high
    && t.trace == s.trace + [(sp - 200) % 16, (sp - 192) % 16]
  }

  lemma CalledTwice(w: World, s: State, a: State, b: State)
    requires Valid(s) && Valid(a) && Valid(b) && Called(w, s, a) && Called(w, a, b)
    ensures Called(w, s, b)
  {
  }

  /** Both C calls, from a stack on which everything has been saved. */
  lemma Inquires(w: World, s: State, stub: Word)
    requires Valid(s) && ValidWorld(w) && w.sys.bottom + 8 <= s.gpr[RSP] && s.exit == Running
    requires s.gpr[R11] == stub && StubAt(w, s, stub)
    ensures var t := RunAll(w, s, SetCtx() + Ask());
      && Called(w, s, t) && t.gpr[R11] == Reply(w, s.tls) && t.tls == Tls(0, stub) && t.high == w.afterAsked.high
      && t.trace == s.trace + [(s.gpr[RSP] - 8) % 16, s.gpr[RSP] % 16]
  {
    hide RunAll, SetCtx, Ask, CallerSaved;
    RunAllInParts(w, s, SetCtx(), Ask());
    SetsCtx(w, s, stub);
    var a := RunAll(w, s, SetCtx());
    Asks(w, a, stub);
    CalledTwice(w, s, a, RunAll(w, a, Ask()));
  }

  /** Every register is saved by the trampoline, preserved by C routines, or scratch. */
  lemma EveryRegister(r: Reg)
    ensures Gpr(r) in ITEMS || !CallerSaved(r) || r == 10 || r == 11
    ensures r < 8 ==> Xmm(r) in ITEMS
    ensures Gpr(R11) !in ITEMS
  {
    assert ITEMS[..6] == [Gpr(RDI), Gpr(RSI), Gpr(RDX), Gpr(RCX), Gpr(R8), Gpr(R9)];
    assert ITEMS[14] == Gpr(RAX);
    assert r < 8 ==> ITEMS[6 + r] == Xmm(r);
  }

  lemma Unwound(w: World, s: State, p: State, q: State, m: State, t: State, stub: Word)
    requires Valid(s) && Valid(p) && Valid(q) && Valid(m) && Valid(t) && s.exit == Running
    requires Entered(w, s, p, stub) && Lowered(w, p, q, 184) && Called(w, q, m)
    requires m.gpr[R11] == Reply(w, s.tls) && m.tls == Tls(0, stub) && m.high == w.afterAsked.high
    requires m.trace == s.trace + [(q.gpr[RSP] as int - 8) % 16, q.gpr[RSP] % 16]
    requires Neutral(w, p, t) && SameControl(m, t) && Bracketed(p, m, t, ITEMS)
    ensures Decided(w, s, t, stub)
  {
    hide ITEMS, Fetch, Reply;
    EveryRegister(R11);
    forall r: Reg
      ensures r != 10 && r != 11 && r != RSP ==> t.gpr[r] == s.gpr[r]
      ensures r < 8 ==> t.xmm[r] == s.xmm[r]
    {
      EveryRegister(r);
    }
  }

  lemma Decides(w: World, back: int, s: State, stub: Word, routine: Word)
    requires Ready(w, back, s, stub, routine)
    ensures Decided(w, s, RunAll(w, s, Straight(back)), stub)
  {
    Listing();
    hide RunAll, Prologue, Save, Restore, SetCtx, Ask, TotalSize, RestoreListed, RESTORED, ITEMS;
    var middle := SetCtx() + Ask();
    RunAllInParts(w, s, Prologue(back), Save(ITEMS) + (middle + Restore(ITEMS)));
    Enters(w, back, s, stub, routine);
    var p := RunAll(w, s, Prologue(back));
    RunAllInParts(w, p, Save(ITEMS), middle + Restore(ITEMS));
    ItemsSize();
    SavesAll(w, p, ITEMS);
    var q := RunAll(w, p, Save(ITEMS));
    RunAllInParts(w, q, middle, Restore(ITEMS));
    Inquires(w, q, stub);
    var m := RunAll(w, q, middle);
    SaveAndRestore(w, p, ITEMS, m);
    var t := RunAll(w, m, Restore(ITEMS));
    Unwound(w, s, p, q, m, t, stub);
  }

  // ---- whole traversals ----

  lemma {:induction false} SavingIsStraight(items: seq<Item>)
    ensures forall k | 0 <= k < |Save(items)| :: IsStraight(Save(items)[k])
    ensures forall k | 0 <= k < |Restore(items)| :: IsStraight(Restore(items)[k])
  {
    if items != [] {
      SavingIsStraight(items[1..]);
    }
  }

  lemma StraightIsStraight(back: int)
    ensures forall k | 0 <= k < |Straight(back)| :: IsStraight(Straight(back)[k])
  {
    Listing();
    hide Save, Restore, RestoreListed, RESTORED, ITEMS;
    SavingIsStraight(ITEMS);
  }

  lemma OneStep(w: World, code: seq<Instr>, s: State, i: Instr, rest: seq<Instr>)
    requires Valid(s) && ValidWorld(w) && s.exit == Running && s.pc < |code| && code[s.pc..] == [i] + rest
    ensures Run(w, code, s) == Run(w, code, Step(w, s, i))
    ensures s.pc + 1 <= |code| && code[s.pc + 1..] == rest
  {
    hide Step;
    assert code[s.pc] == ([i] + rest)[0];
    assert code[s.pc + 1..] == code[s.pc..][1..] == ([i] + rest)[1..];
  }

  /** The run comes to the test with everything given back. */
  lemma ReachesTest(w: World, back: int, s: State, stub: Word, routine: Word) returns (t: State)
    requires Ready(w, back, s, stub, routine)
    ensures Valid(t) && Decided(w, s, t, stub) && Run(w, Code(back), s) == Run(w, Code(back), t)
    ensures t.pc <= |Code(back)| && Code(back)[t.pc..] == [Test(R11), Jnz(3)] + ToRoutine(back) + ToCaller(back)
  {
    hide Straight, RunAll, ToRoutine, ToCaller;
    var tail := [Test(R11), Jnz(3)] + ToRoutine(back) + ToCaller(back);
    Decides(w, back, s, stub, routine);
    StraightIsStraight(back);
    assert Code(back)[0..] == Code(back) == Straight(back) + tail;
    RunThrough(w, Code(back), s, Straight(back), tail);
    t := RunAll(w, s, Straight(back));
    assert (Straight(back) + tail)[|Straight(back)|..] == tail;
  }

  /** Control goes to the routine as if the caller had called it. */
  ghost predicate PassedThrough(w: World, s: State, f: State, stub: Word, routine: Word)
    requires Valid(s) && Valid(f)
  {
    && f.exit == Jumped(routine) && f.tls == Tls(0, stub) && f.high == w.afterAsked.high
    && f.gpr[RSP] == s.gpr[RSP] && GivenBack(s, f)
    && forall a | Kept(w, s.gpr[RSP], a) :: Fetch(f.mem, a) == Fetch(s.mem, a)
  }

  /** Control goes back to the caller with the stub as the result, as a C routine would. */
  ghost predicate Answered(w: World, s: State, f: State, stub: Word)
    requires Valid(s) && Valid(f)
  {
    && f.exit == Returned(Fetch(s.mem, s.gpr[RSP])) && f.tls == Tls(0, stub) && f.high == w.afterGet.high
    && f.gpr[RAX] == stub && f.gpr[RSP] as int == s.gpr[RSP] as int + 8
    && (forall r: Reg | r != RSP && !CallerSaved(r) :: f.gpr[r] == s.gpr[r])
    && forall a | Kept(w, s.gpr[RSP], a) :: Fetch(f.mem, a) == Fetch(s.mem, a)
  }

  /** Straight code, then one instruction that leaves. */
  lemma RunsOut(w: World, code: seq<Instr>, s: State, block: seq<Instr>, last: Instr, rest: seq<Instr>)
    requires Valid(s) && ValidWorld(w) && s.exit == Running && s.pc <= |code|
    requires code[s.pc..] == block + ([last] + rest) && forall k | 0 <= k < |block| :: IsStraight(block[k])
    requires RunAll(w, s, block).exit == Running && Step(w, RunAll(w, s, block), last).exit != Running
    ensures Run(w, code, s) == Step(w, RunAll(w, s, block), last)
  {
    hide Step, RunAll, IsStraight;
    RunThrough(w, code, s, block, [last] + rest);
    var t := RunAll(w, s, block);
    assert code[t.pc..] == code[s.pc..][|block|..] == [last] + rest;
    OneStep(w, code, t, last, rest);
  }

  lemma JumpState(w: World, back: int, s: State, t: State, stub: Word, routine: Word) returns (a: State)
    requires Ready(w, back, s, stub, routine) && Valid(t) && Decided(w, s, t, stub)
    ensures a == RunAll(w, t, [Pop(R11), Load(back - 8, R11, R11)]) && a.exit == Running
    ensures var f := Step(w, a, Jump(R11)); PassedThrough(w, s, f, stub, routine) && f.trace == t.trace
  {
    hide RunAll, CallRoutine;
    RunTwo(w, t, Pop(R11), Load(back - 8, R11, R11));
    a := RunAll(w, t, [Pop(R11), Load(back - 8, R11, R11)]);
  }

  lemma JumpsToRoutine(w: World, back: int, code: seq<Instr>, s: State, t: State, stub: Word, routine: Word)
    requires Ready(w, back, s, stub, routine) && Valid(t) && Decided(w, s, t, stub)
    requires t.pc <= |code| && ToRoutine(back) <= code[t.pc..]
    ensures PassedThrough(w, s, Run(w, code, t), stub, routine) && Run(w, code, t).trace == t.trace
  {
    var block, rest := [Pop(R11), Load(back - 8, R11, R11)], code[t.pc..][3..];
    assert code[t.pc..] == block + ([Jump(R11)] + rest);
    hide Step, RunAll, Run, Fetch, Kept, GivenBack;
    var a := JumpState(w, back, s, t, stub, routine);
    RunsOut(w, code, t, block, Jump(R11), rest);
  }

  /** Up to the call of `mmk_ctx`. */
  lemma LoadsGetter(w: World, back: int, s: State, t: State, stub: Word, routine: Word) returns (a: State)
    requires Ready(w, back, s, stub, routine) && Valid(t) && Decided(w, s, t, stub)
    ensures a == RunAll(w, t, [Pop(R11), Load(back - 0x10, R11, R11), Load(0x10, R11, R11)]) && Valid(a)
    ensures a.gpr[R11] == w.sys.getCtx && a.gpr[RSP] == s.gpr[RSP] && GivenBack(s, a)
    ensures SameControl(t, a) && forall x | Kept(w, s.gpr[RSP], x) :: Fetch(a.mem, x) == Fetch(s.mem, x)
  {
    hide RunAll, CallRoutine;
    RunThree(w, t, Pop(R11), Load(back - 0x10, R11, R11), Load(0x10, R11, R11));
    a := RunAll(w, t, [Pop(R11), Load(back - 0x10, R11, R11), Load(0x10, R11, R11)]);
  }

  /** From there on: the stub's address is returned. */
  lemma Gets(w: World, s: State, a: State, stub: Word)
    requires Valid(s) && Valid(a) && ValidWorld(w) && a.exit == Running && a.tls == Tls(0, stub)
    requires a.gpr[R11] == w.sys.getCtx && a.gpr[RSP] == s.gpr[RSP] && GivenBack(s, a)
    requires w.sys.bottom <= s.gpr[RSP] && s.gpr[RSP] + 8 < SIZE_LIMIT
    requires forall x | Kept(w, s.gpr[RSP], x) :: Fetch(a.mem, x) == Fetch(s.mem, x)
    ensures var b := RunAll(w, a, [Call(R11)]);
      && b.exit == Running && Answered(w, s, Step(w, b, Ret), stub)
      && Step(w, b, Ret).trace == a.trace + [s.gpr[RSP] % 16]
  {
    hide RunAll, Fetch, LeftMemory;
    RunOne(w, a, Call(R11));
    Returns(w, a, w.afterGet, a.tls.ctx, a.tls);
  }

  lemma ReturnsToCaller(w: World, back: int, code: seq<Instr>, s: State, t: State, stub: Word, routine: Word)
    requires Ready(w, back, s, stub, routine) && Valid(t) && Decided(w, s, t, stub)
    requires t.pc <= |code| && code[t.pc..] == ToCaller(back)
    ensures Answered(w, s, Run(w, code, t), stub)
    ensures Run(w, code, t).trace == t.trace + [s.gpr[RSP] % 16]
  {
    var loads := [Pop(R11), Load(back - 0x10, R11, R11), Load(0x10, R11, R11)];
    assert ToCaller(back) == loads + [Call(R11)] + ([Ret] + []);
    hide Step, RunAll;
    var a := LoadsGetter(w, back, s, t, stub, routine);
    Gets(w, s, a, stub);
    RunAllInParts(w, t, loads, [Call(R11)]);
    RunsOut(w, code, t, loads + [Call(R11)], Ret, []);
  }

  /** The test of r11, and the jump it decides. */
  lemma Branches(w: World, back: int, t: State) returns (u: State)
    requires Valid(t) && ValidWorld(w) && t.exit == Running && t.pc <= |Code(back)|
    requires Code(back)[t.pc..] == [Test(R11), Jnz(3)] + ToRoutine(back) + ToCaller(back)
    ensures u == t.(zero := t.gpr[R11] == 0, pc := u.pc) && Run(w, Code(back), t) == Run(w, Code(back), u)
    ensures u.pc <= |Code(back)|
    ensures Code(back)[u.pc..] == if t.gpr[R11] == 0 then ToRoutine(back) + ToCaller(back) else ToCaller(back)
  {
    hide Straight, ToCaller;
    var code, routineTail := Code(back), ToRoutine(back) + ToCaller(back);
    assert code[t.pc..] == [Test(R11)] + ([Jnz(3)] + routineTail);
    OneStep(w, code, t, Test(R11), [Jnz(3)] + routineTail);
    var a := Step(w, t, Test(R11));
    OneStep(w, code, a, Jnz(3), routineTail);
    u := Step(w, a, Jnz(3));
    assert code[a.pc + 1..][3..] == ToCaller(back);
  }

  /**
   Every traversal of the trampoline: the routine is entered with the caller's registers and stack exactly when all of
   rax was zero after mmk_ctx_asked; otherwise the caller is given the stub. Either way the stub is the context and
   the question has been taken back.
   */
  lemma Traversal(w: World, back: int, s: State, stub: Word, routine: Word)
    requires Ready(w, back, s, stub, routine)
    ensures var f := Run(w, Code(back), s);
      && f.tls == Enter(s.tls, stub).0
      && (Reply(w, s.tls) == 0 ==> PassedThrough(w, s, f, stub, routine))
      && (Reply(w, s.tls) != 0 ==> Answered(w, s, f, stub))
  {
    hide Code, ToRoutine, ToCaller, Run, Reply;
    var t := ReachesTest(w, back, s, stub, routine);
    var u := Branches(w, back, t);
    if t.gpr[R11] == 0 {
      JumpsToRoutine(w, back, Code(back), s, u, stub, routine);
    } else {
      ReturnsToCaller(w, back, Code(back), s, u, stub, routine);
    }
  }

  /**
   What the routine finds, register by register: rdi, rsi, rdx, rcx, r8, r9, rax and xmm0 to xmm7 for the arguments,
   rbx, rsp, rbp and r12 to r15 as every routine must keep them, and the caller's memory from the return address up.
   */
  lemma RoutineFinds(w: World, back: int, s: State, stub: Word, routine: Word)
    requires Ready(w, back, s, stub, routine) && Reply(w, s.tls) == 0
    ensures var f := Run(w, Code(back), s);
      && f.exit == Jumped(routine) && f.tls.asked == 0 && f.tls.ctx == stub
      && (forall r: Reg | r in {7, 6, 2, 1, 8, 9, 0} :: f.gpr[r] == s.gpr[r])
      && (forall r: Reg | r in {3, 4, 5, 12, 13, 14, 15} :: f.gpr[r] == s.gpr[r])
      && (forall x: Reg | x < 8 :: f.xmm[x] == s.xmm[x])
      && (forall a | a >= s.gpr[RSP] :: Fetch(f.mem, a) == Fetch(s.mem, a))
  {
    hide Code, Run, Reply;
    Traversal(w, back, s, stub, routine);
  }

  /** What the caller finds when it is answered: the stub in rax, and what it may expect of any routine. */
  lemma CallerFinds(w: World, back: int, s: State, stub: Word, routine: Word)
    requires Ready(w, back, s, stub, routine) && Reply(w, s.tls) != 0
    ensures var f := Run(w, Code(back), s);
      && f.exit == Returned(Fetch(s.mem, s.gpr[RSP])) && f.tls.asked == 0 && f.tls.ctx == stub
      && f.gpr[0] == stub && f.gpr[4] as int == s.gpr[4] as int + 8
      && (forall r: Reg | r in {3, 5, 12, 13, 14, 15} :: f.gpr[r] == s.gpr[r])
      && (forall a | a >= s.gpr[RSP] :: Fetch(f.mem, a) == Fetch(s.mem, a))
  {
    hide Code, Run, Reply;
    Traversal(w, back, s, stub, routine);
  }

  /** What the run came to, as the library means it. */
  ghost predicate Meets(w: World, s: State, f: State, entry: Entry, routine: Word)
    requires Valid(s) && Valid(f)
  {
    match entry
    case Routine => f.exit == Jumped(routine)
    case Answer(ctx) => f.exit == Returned(Fetch(s.mem, s.gpr[RSP])) && f.gpr[RAX] == ctx
  }

  /**
   The int `mmk_ctx_asked` returns is tested as 64 bits. So the trampoline does what was asked exactly when the callee
   happens to clear the upper half of rax whenever it returns zero.
   */
  lemma OutcomeIsWhatWasAsked(w: World, back: int, s: State, stub: Word, routine: Word)
    requires Ready(w, back, s, stub, routine)
    ensures Meets(w, s, Run(w, Code(back), s), Enter(s.tls, stub).1, routine)
      <==> (s.tls.asked == 0 ==> w.afterAsked.upper == 0)
  {
    hide Code, Run;
    Traversal(w, back, s, stub, routine);
  }

  /** All 256 bits of vector register `x`, as section 3.2.3 of the psABI passes arguments of that size. */
  function Wide(s: State, x: Reg): (Vector, Vector)
    requires Valid(s)
  {
    (s.xmm[x], s.high[x])
  }

  /**
   The trampoline saves the lower halves of the vector registers only. So a 256-bit argument reaches the routine exactly
   when `mmk_ctx_asked`, the last C routine called, has left the upper half of its register as the caller set it.
   */
  lemma WideArguments(w: World, back: int, s: State, stub: Word, routine: Word, x: Reg)
    requires Ready(w, back, s, stub, routine) && Reply(w, s.tls) == 0 && x < 8
    ensures Wide(Run(w, Code(back), s), x) == Wide(s, x) <==> w.afterAsked.high[x] == s.high[x]
  {
    hide Code, Run, Reply;
    Traversal(w, back, s, stub, routine);
  }

  /**
   With the stack aligned as the psABI demands at a function's entry, only the first of the C calls is made on a stack
   aligned to 16 bytes.
   */
  lemma Alignment(w: World, back: int, s: State, stub: Word, routine: Word)
    requires Ready(w, back, s, stub, routine) && s.gpr[RSP] % 16 == 8
    ensures Run(w, Code(back), s).trace
         == s.trace + if Reply(w, s.tls) == 0 then [0, 8] else [0, 8, 8]
  {
    hide Code, ToRoutine, ToCaller, Run, Reply;
    var t := ReachesTest(w, back, s, stub, routine);
    var u := Branches(w, back, t);
    if t.gpr[R11] == 0 {
      JumpsToRoutine(w, back, Code(back), s, u, stub, routine);
    } else {
      ReturnsToCaller(w, back, Code(back), s, u, stub, routine);
    }
  }

  // ---- calls through a trampoline ----

  /** The word at `a`, which lies outside the stack, is `v`. */
  predicate LiesAt(sys: System, mem: Memory, a: int, v: Word) {
    0 <= a < SIZE_LIMIT && (a < sys.bottom || a >= sys.top) && Fetch(mem, a) == v
  }

  /** The words a trampoline at `start` reads: its header, and the entry points at the start of the stub. */
  predicate InPlace(sys: System, mem: Memory, start: int, stub: Word, routine: Word) {
    && LiesAt(sys, mem, start - 0x10, stub) && LiesAt(sys, mem, start - 8, routine)
    && LiesAt(sys, mem, stub, sys.ctxAsked) && LiesAt(sys, mem, stub + 8, sys.setCtx)
    && LiesAt(sys, mem, stub + 0x10, sys.getCtx)
  }

  /** The caller's stack pointer lies in the stack and leaves the trampoline its room. */
  predicate CanCall(w: World, s: State) {
    && ValidWorld(w) && Valid(s)
    && w.sys.bottom + ROOM <= s.gpr[RSP] <= w.sys.top && s.gpr[RSP] + 8 < SIZE_LIMIT
  }

  /** The processor after the call instruction has jumped to the start of the code. */
  function AtStart(s: State): State {
    s.(pc := 0, exit := Running)
  }

  /** What may differ in memory after code that used the stack only. */
  ghost predicate OnlyStack(sys: System, before: Memory, after: Memory) {
    forall a | a < sys.bottom || a >= sys.top :: Fetch(after, a) == Fetch(before, a)
  }

  /** A call of the trampoline at `w.next + back`: its routine is entered, or the caller gets the stub. */
  method CallThrough(m: Processor, w: World, back: int, ghost stub: Word, ghost routine: Word)
    requires CanCall(w, m.Snapshot()) && InPlace(w.sys, m.mem, w.next as int + back, stub, routine)
    modifies m`gpr, m`xmm, m`high, m`zero, m`mem, m`tls, m`trace, m`pc, m`exit
    ensures var s, f := AtStart(old(m.Snapshot())), m.Snapshot();
      && Valid(f) && f.tls == Enter(s.tls, stub).0 && OnlyStack(w.sys, s.mem, f.mem)
      && (Reply(w, s.tls) == 0 ==> PassedThrough(w, s, f, stub, routine))
      && (Reply(w, s.tls) != 0 ==> Answered(w, s, f, stub))
  {
    hide Code, Run, Fetch;
    m.pc, m.exit := 0, Running;
    ghost var s := m.Snapshot();
    assert Ready(w, back, s, stub, routine);
    m.RunCode(w, Code(back));
    Traversal(w, back, s, stub, routine);
  }

  /** `mmk_ask_ctx`: the function is called with the question pending, and its result is the stub. */
  method AskCtx(m: Processor, w: World, back: int, ghost stub: Word, ghost routine: Word) returns (r: Word)
    requires CanCall(w, m.Snapshot()) && InPlace(w.sys, m.mem, w.next as int + back, stub, routine)
    modifies m`gpr, m`xmm, m`high, m`zero, m`mem, m`tls, m`trace, m`pc, m`exit
    ensures r == stub && m.tls == Tls(0, stub) && OnlyStack(w.sys, old(m.mem), m.mem)
    ensures m.exit == Returned(Fetch(old(m.mem), old(m.gpr)[RSP])) && Valid(m.Snapshot())
    ensures m.gpr[RSP] as int == old(m.gpr)[RSP] as int + 8
    ensures forall r: Reg | r != RSP && !CallerSaved(r) :: m.gpr[r] == old(m.gpr)[r]
  {
    m.tls := m.tls.(asked := 1);
    CallThrough(m, w, back, stub, routine);
    r := m.gpr[RAX];
  }
}

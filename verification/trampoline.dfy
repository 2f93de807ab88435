/** The trampoline routine, instruction by instruction, and what it does to its caller and its routine. */
module Trampoline {
  import opened Bytes
  import opened Context
  import opened Machine

  // ---- the code ----

  /** A register whose value the trampoline keeps on the stack while it calls C code. */
  datatype Item = Gpr(r: Reg) | Xmm(x: Reg)

  const ITEMS: seq<Item> := [
    Gpr(RDI), Gpr(RSI), Gpr(RDX), Gpr(RCX), Gpr(R8), Gpr(R9),
    Xmm(0), Xmm(1), Xmm(2), Xmm(3), Xmm(4), Xmm(5), Xmm(6), Xmm(7),
    Gpr(RAX)]

  /** The order in which they are restored. */
  const RESTORED: seq<Item> := [
    Gpr(RAX),
    Xmm(7), Xmm(6), Xmm(5), Xmm(4), Xmm(3), Xmm(2), Xmm(1), Xmm(0),
    Gpr(R9), Gpr(R8), Gpr(RCX), Gpr(RDX), Gpr(RSI), Gpr(RDI)]

  function SaveOne(item: Item): seq<Instr> {
    match item
    case Gpr(r) => [Push(r)]
    case Xmm(x) => [SubSp(16), StoreX(x)]
  }

  function RestoreOne(item: Item): seq<Instr> {
    match item
    case Gpr(r) => [Pop(r)]
    case Xmm(x) => [LoadX(x), AddSp(16)]
  }

  function Save(items: seq<Item>): seq<Instr> {
    if items == [] then [] else SaveOne(items[0]) + Save(items[1..])
  }

  /** In the opposite order. */
  function Restore(items: seq<Item>): seq<Instr> {
    if items == [] then [] else Restore(items[1..]) + RestoreOne(items[0])
  }

  /** The restoring instructions of the items as they are listed. */
  function RestoreListed(items: seq<Item>): seq<Instr> {
    if items == [] then [] else RestoreOne(items[0]) + RestoreListed(items[1..])
  }

  lemma {:induction false} RestoreListedMore(items: seq<Item>, last: Item)
    ensures RestoreListed(items + [last]) == RestoreListed(items) + RestoreOne(last)
  {
    if items == [] {
      assert (items + [last])[1..] == [];
    } else {
      assert (items + [last])[1..] == items[1..] + [last];
      RestoreListedMore(items[1..], last);
    }
  }

  lemma {:induction false} ReversedListing(items: seq<Item>, reversed: seq<Item>)
    requires |items| == |reversed| && forall k | 0 <= k < |items| :: reversed[k] == items[|items| - 1 - k]
    ensures RestoreListed(reversed) == Restore(items)
  {
    if items != [] {
      var n := |items| - 1;
      ReversedListing(items[1..], reversed[..n]);
      RestoreListedMore(reversed[..n], items[0]);
      assert reversed == reversed[..n] + [items[0]];
    }
  }

  /** The routine restores what it saved, in the opposite order. */
  lemma Listing()
    ensures RestoreListed(RESTORED) == Restore(ITEMS)
  {
    ReversedListing(ITEMS, RESTORED);
  }

  /** `back` is `start - next`, counted from the address `call next` pushes; endbr64, where it is used, does nothing. */
  function Prologue(back: int): seq<Instr> {
    [Nop, CallNext, Nop, Pop(R11), Push(R11), Load(back - 0x10, R11, R11)]
  }

  function SetCtx(): seq<Instr> {
    [Move(R11, RDI), Push(R11), Load(8, R11, R11), Call(R11), Pop(R11)]
  }

  function Ask(): seq<Instr> {
    [Load(0, R11, R11), Call(R11), Move(RAX, R11)]
  }

  function ToRoutine(back: int): seq<Instr> {
    [Pop(R11), Load(back - 8, R11, R11), Jump(R11)]
  }

  function ToCaller(back: int): seq<Instr> {
    [Pop(R11), Load(back - 0x10, R11, R11), Load(0x10, R11, R11), Call(R11), Ret]
  }

  function Straight(back: int): seq<Instr> {
    Prologue(back) + (Save(ITEMS) + ((SetCtx() + Ask()) + RestoreListed(RESTORED)))
  }

  function Code(back: int): seq<Instr> {
    Straight(back) + ([Test(R11), Jnz(3)] + ToRoutine(back) + ToCaller(back))
  }

  // ---- straight-line execution ----

  predicate IsStraight(i: Instr) {
    !i.Jnz? && !i.Jump? && !i.Ret?
  }

  function RunAll(w: World, s: State, block: seq<Instr>): (t: State)
    requires Valid(s) && ValidWorld(w)
    ensures Valid(t)
    decreases |block|
  {
    if block == [] then s else RunAll(w, Step(w, s, block[0]), block[1..])
  }

  lemma {:induction false} RunAllInParts(w: World, s: State, a: seq<Instr>, b: seq<Instr>)
    requires Valid(s) && ValidWorld(w)
    ensures RunAll(w, s, a + b) == RunAll(w, RunAll(w, s, a), b)
    decreases |a|
  {
    hide Step;
    if a == [] {
      assert a + b == b;
    } else {
      assert (a + b)[1..] == a[1..] + b;
      RunAllInParts(w, Step(w, s, a[0]), a[1..], b);
    }
  }

  lemma StraightStep(w: World, s: State, i: Instr)
    requires Valid(s) && ValidWorld(w) && IsStraight(i)
    ensures Step(w, s, i).pc == s.pc + 1
    ensures Step(w, s, i).exit == s.exit || Step(w, s, i).exit == Lost
  {
  }

  lemma {:induction false} StraightRun(w: World, s: State, block: seq<Instr>)
    requires Valid(s) && ValidWorld(w)
    requires forall k | 0 <= k < |block| :: IsStraight(block[k])
    ensures RunAll(w, s, block).pc == s.pc + |block|
    ensures RunAll(w, s, block).exit == s.exit || RunAll(w, s, block).exit == Lost
    decreases |block|
  {
    hide Step, IsStraight;
    if block != [] {
      StraightStep(w, s, block[0]);
      StraightRun(w, Step(w, s, block[0]), block[1..]);
    }
  }

  /** A stretch of code without jumps is executed from its first to its last instruction. */
  lemma {:induction false} RunThrough(w: World, code: seq<Instr>, s: State, block: seq<Instr>, rest: seq<Instr>)
    requires Valid(s) && ValidWorld(w) && s.pc + |block| <= |code|
    requires code[s.pc..] == block + rest && forall k | 0 <= k < |block| :: IsStraight(block[k])
    requires s.exit == Running && RunAll(w, s, block).exit == Running
    ensures var t := RunAll(w, s, block); Run(w, code, s) == Run(w, code, t) && t.pc == s.pc + |block|
    decreases |block|
  {
    hide Step, IsStraight;
    if block != [] {
      var t := Step(w, s, block[0]);
      assert code[s.pc] == (block + rest)[0];
      StraightStep(w, s, block[0]);
      StraightRun(w, t, block[1..]);
      assert code[t.pc..] == code[s.pc..][1..] == (block + rest)[1..] == block[1..] + rest;
      RunThrough(w, code, t, block[1..], rest);
    }
  }

  // ---- what saving and restoring does ----

  function Size(item: Item): nat {
    if item.Gpr? then 8 else 16
  }

  function TotalSize(items: seq<Item>): nat {
    if items == [] then 0 else Size(items[0]) + TotalSize(items[1..])
  }

  /** Memory outside the part of the stack below `sp`. */
  predicate Kept(w: World, sp: Word, a: int) {
    a < w.sys.bottom || a >= sp
  }

  /** The stack pointer is where it was, and so is everything but the free part of the stack. */
  ghost predicate Neutral(w: World, s: State, t: State)
    requires Valid(s) && Valid(t)
  {
    && t.gpr[RSP] == s.gpr[RSP]
    && forall a | Kept(w, s.gpr[RSP], a) :: Fetch(t.mem, a) == Fetch(s.mem, a)
  }

  predicate SameControl(s: State, t: State) {
    t.tls == s.tls && t.trace == s.trace && t.exit == s.exit && t.high == s.high
  }

  /** Lower on the stack by `n` bytes, with nothing else changed but the memory below. */
  ghost predicate Lowered(w: World, s: State, t: State, n: nat)
    requires Valid(s) && Valid(t)
  {
    && t.gpr == s.gpr[RSP := t.gpr[RSP]] && t.gpr[RSP] as int == s.gpr[RSP] - n && t.xmm == s.xmm
    && SameControl(s, t)
    && forall a | Kept(w, s.gpr[RSP], a) :: Fetch(t.mem, a) == Fetch(s.mem, a)
  }

  /** The value on top of the stack is the item's. */
  predicate OnTop(t: State, item: Item, s: State)
    requires Valid(s) && Valid(t)
  {
    var sp := t.gpr[RSP] as int;
    match item
    case Gpr(r) => Fetch(t.mem, sp) == s.gpr[r]
    case Xmm(x) => Fetch(t.mem, sp) == s.xmm[x].low && Fetch(t.mem, sp + 8) == s.xmm[x].high
  }

  lemma RunOne(w: World, s: State, i: Instr)
    requires Valid(s) && ValidWorld(w)
    ensures RunAll(w, s, [i]) == Step(w, s, i)
  {
    hide Step;
    assert [i][1..] == [];
  }

  lemma RunTwo(w: World, s: State, i: Instr, j: Instr)
    requires Valid(s) && ValidWorld(w)
    ensures RunAll(w, s, [i, j]) == Step(w, Step(w, s, i), j)
  {
    hide Step;
    RunOne(w, Step(w, s, i), j);
    assert [i, j][1..] == [j];
  }

  lemma SavesGpr(w: World, s: State, r: Reg)
    requires Valid(s) && ValidWorld(w) && w.sys.bottom + 8 <= s.gpr[RSP] && r != RSP
    ensures var t := RunAll(w, s, [Push(r)]); Lowered(w, s, t, 8) && OnTop(t, Gpr(r), s)
  {
    hide RunAll, CallRoutine;
    RunOne(w, s, Push(r));
  }

  lemma MakesRoom(w: World, s: State)
    requires Valid(s) && ValidWorld(w) && 16 <= s.gpr[RSP]
    ensures Lowered(w, s, Step(w, s, SubSp(16)), 16) && Step(w, s, SubSp(16)).mem == s.mem
  {
    hide CallRoutine, Fetch;
  }

  lemma StoresXmm(w: World, a: State, x: Reg)
    requires Valid(a) && ValidWorld(w) && a.gpr[RSP] + 16 <= SIZE_LIMIT
    ensures var t := Step(w, a, StoreX(x));
      && t.gpr == a.gpr && t.xmm == a.xmm && SameControl(a, t) && OnTop(t, Xmm(x), a)
      && forall b | b != a.gpr[RSP] as int && b != a.gpr[RSP] + 8 :: Fetch(t.mem, b) == Fetch(a.mem, b)
  {
    hide CallRoutine;
  }

  lemma SavesXmm(w: World, s: State, x: Reg)
    requires Valid(s) && ValidWorld(w) && w.sys.bottom + 16 <= s.gpr[RSP]
    ensures var t := RunAll(w, s, [SubSp(16), StoreX(x)]); Lowered(w, s, t, 16) && OnTop(t, Xmm(x), s)
  {
    hide RunAll, Step, Fetch;
    RunTwo(w, s, SubSp(16), StoreX(x));
    MakesRoom(w, s);
    StoresXmm(w, Step(w, s, SubSp(16)), x);
  }

  lemma SavesOne(w: World, s: State, item: Item)
    requires Valid(s) && ValidWorld(w) && w.sys.bottom + Size(item) <= s.gpr[RSP] && item != Gpr(RSP)
    ensures var t := RunAll(w, s, SaveOne(item)); Lowered(w, s, t, Size(item)) && OnTop(t, item, s)
  {
    hide RunAll, Lowered, OnTop;
    match item
    case Gpr(r) => SavesGpr(w, s, r);
    case Xmm(x) => SavesXmm(w, s, x);
  }

  /** The item has the value on top of the stack, and the stack pointer has gone up; nothing else has changed. */
  ghost predicate Restored(s: State, t: State, item: Item)
    requires Valid(s) && Valid(t)
  {
    && t.gpr[RSP] as int == s.gpr[RSP] + Size(item) && t.mem == s.mem && SameControl(s, t)
    && OnTop(s, item, t)
    && (forall r | 0 <= r < 16 && r != RSP && Gpr(r) != item :: t.gpr[r] == s.gpr[r])
    && (forall x | 0 <= x < 16 && Xmm(x) != item :: t.xmm[x] == s.xmm[x])
  }

  lemma RestoresOne(w: World, s: State, item: Item)
    requires Valid(s) && ValidWorld(w) && s.gpr[RSP] + Size(item) < SIZE_LIMIT && item != Gpr(RSP)
    ensures Restored(s, RunAll(w, s, RestoreOne(item)), item)
  {
    hide RunAll, CallRoutine;
    match item
    case Gpr(r) => RunOne(w, s, Pop(r));
    case Xmm(x) => RunTwo(w, s, LoadX(x), AddSp(16));
  }

  /** The stack pointer itself is never saved. */
  predicate Savable(items: seq<Item>) {
    forall k | 0 <= k < |items| :: items[k] != Gpr(RSP)
  }

  lemma {:induction false} SavesAll(w: World, s: State, items: seq<Item>)
    requires Valid(s) && ValidWorld(w) && w.sys.bottom + TotalSize(items) <= s.gpr[RSP] && Savable(items)
    ensures Lowered(w, s, RunAll(w, s, Save(items)), TotalSize(items))
    decreases |items|
  {
    if items == [] {
      assert s.gpr[RSP := s.gpr[RSP]] == s.gpr;
    } else {
      hide RunAll, SaveOne, Size;
      RunAllInParts(w, s, SaveOne(items[0]), Save(items[1..]));
      SavesOne(w, s, items[0]);
      SavesAll(w, RunAll(w, s, SaveOne(items[0])), items[1..]);
    }
  }

  /** Every item has its value of `s`; whatever is no item has its value of `m`. */
  ghost predicate Bracketed(s: State, m: State, t: State, items: seq<Item>)
    requires Valid(s) && Valid(m) && Valid(t)
  {
    && (forall r: Reg | r != RSP :: t.gpr[r] == if Gpr(r) in items then s.gpr[r] else m.gpr[r])
    && (forall x: Reg :: t.xmm[x] == if Xmm(x) in items then s.xmm[x] else m.xmm[x])
  }

  /**
   Saving registers, then anything that leaves the stack above it and the stack pointer alone, then restoring them in
   the opposite order, leaves the stack and the saved registers as they were.
   */
  lemma {:induction false} SaveAndRestore(w: World, s: State, items: seq<Item>, m: State)
    requires Valid(s) && ValidWorld(w) && Savable(items) && w.sys.bottom + TotalSize(items) <= s.gpr[RSP]
    requires Valid(m) && Neutral(w, RunAll(w, s, Save(items)), m)
    ensures var t := RunAll(w, m, Restore(items));
      Neutral(w, s, t) && SameControl(m, t) && Bracketed(s, m, t, items)
    decreases |items|
  {
    if items != [] {
      hide RunAll, Size, OnTop;
      var first, rest := items[0], items[1..];
      var a := RunAll(w, s, SaveOne(first));
      RunAllInParts(w, s, SaveOne(first), Save(rest));
      SavesOne(w, s, first);
      SaveAndRestore(w, a, rest, m);
      var b := RunAll(w, m, Restore(rest));
      RunAllInParts(w, m, Restore(rest), RestoreOne(first));
      RestoresOne(w, b, first);
      OuterItem(w, s, a, m, b, RunAll(w, b, RestoreOne(first)), items);
    }
  }

  lemma OuterItem(w: World, s: State, a: State, m: State, b: State, t: State, items: seq<Item>)
    requires Valid(s) && Valid(a) && Valid(m) && Valid(b) && Valid(t)
    requires items != [] && Savable(items) && w.sys.bottom + Size(items[0]) <= s.gpr[RSP]
    requires Lowered(w, s, a, Size(items[0])) && OnTop(a, items[0], s)
    requires Neutral(w, a, b) && SameControl(m, b) && Bracketed(a, m, b, items[1..])
    requires Restored(b, t, items[0])
    ensures Neutral(w, s, t) && SameControl(m, t) && Bracketed(s, m, t, items)
  {
    var first, rest := items[0], items[1..];
    assert items == [first] + rest;
  }

  // ---- the C calls in between ----

  /** What every C routine keeps: the preserved registers, the stack in use, the memory that is no stack. */
  ghost predicate Called(w: World, s: State, t: State)
    requires Valid(s) && Valid(t)
  {
    && Neutral(w, s, t) && t.exit == s.exit
    && forall r: Reg | !CallerSaved(r) :: t.gpr[r] == s.gpr[r]
  }

  lemma Returns(w: World, s: State, c: Clobber, rax: Word, tls: Tls)
    requires Valid(s) && ValidClobber(c)
    ensures Called(w, s, Return(w, s, c, rax, tls))
  {
  }

  /** A word outside the free part of the stack. */
  predicate Holds(w: World, s: State, a: int, v: Word)
    requires Valid(s)
  {
    0 <= a < SIZE_LIMIT && Kept(w, s.gpr[RSP], a) && Fetch(s.mem, a) == v
  }

  /** The three entry points at the start of the stub. */
  predicate StubAt(w: World, s: State, stub: Word)
    requires Valid(s)
  {
    Holds(w, s, stub, w.sys.ctxAsked) && Holds(w, s, stub + 8, w.sys.setCtx) && Holds(w, s, stub + 0x10, w.sys.getCtx)
  }

  lemma RunThree(w: World, s: State, i: Instr, j: Instr, k: Instr)
    requires Valid(s) && ValidWorld(w)
    ensures RunAll(w, s, [i, j, k]) == Step(w, Step(w, Step(w, s, i), j), k)
  {
    hide Step;
    RunTwo(w, Step(w, s, i), j, k);
    assert [i, j, k][1..] == [j, k];
  }

  /** Up to the call of `mmk_set_ctx`: its argument is in rdi, and the stub's address is on the stack. */
  lemma ArgumentReady(w: World, s: State, stub: Word)
    requires Valid(s) && ValidWorld(w) && w.sys.bottom + 8 <= s.gpr[RSP]
    requires s.gpr[R11] == stub && StubAt(w, s, stub)
    ensures var t := RunAll(w, s, [Move(R11, RDI), Push(R11), Load(8, R11, R11)]);
      && t.gpr == s.gpr[RDI := stub][RSP := t.gpr[RSP]][R11 := w.sys.setCtx] && t.gpr[RSP] as int == s.gpr[RSP] - 8
      && Fetch(t.mem, s.gpr[RSP] - 8) == stub && SameControl(s, t)
      && forall a | Kept(w, s.gpr[RSP], a) :: Fetch(t.mem, a) == Fetch(s.mem, a)
  {
    hide RunAll, CallRoutine;
    RunThree(w, s, Move(R11, RDI), Push(R11), Load(8, R11, R11));
  }

  lemma SetsCtx(w: World, s: State, stub: Word)
    requires Valid(s) && ValidWorld(w) && w.sys.bottom + 8 <= s.gpr[RSP]
    requires s.gpr[R11] == stub && StubAt(w, s, stub)
    ensures var t := RunAll(w, s, SetCtx());
      && Called(w, s, t) && t.gpr[R11] == stub && t.tls == s.tls.(ctx := stub)
      && t.trace == s.trace + [(s.gpr[RSP] - 8) % 16]
  {
    hide RunAll;
    var block := [Move(R11, RDI), Push(R11), Load(8, R11, R11)];
    assert SetCtx() == block + [Call(R11), Pop(R11)];
    RunAllInParts(w, s, block, [Call(R11), Pop(R11)]);
    ArgumentReady(w, s, stub);
    var a := RunAll(w, s, block);
    RunTwo(w, a, Call(R11), Pop(R11));
    Returns(w, a, w.afterSet, w.afterSet.gpr[RAX], a.tls.(ctx := stub));
    hide Return;
  }

  lemma Asks(w: World, s: State, stub: Word)
    requires Valid(s) && ValidWorld(w)
    requires s.gpr[R11] == stub && StubAt(w, s, stub)
    ensures var t := RunAll(w, s, Ask());
      && Called(w, s, t) && t.gpr[R11] == w.afterAsked.upper * 0x1_0000_0000 + s.tls.asked
      && t.tls == s.tls.(asked := 0) && t.trace == s.trace + [s.gpr[RSP] % 16] && t.high == w.afterAsked.high
  {
    hide RunAll;
    RunThree(w, s, Load(0, R11, R11), Call(R11), Move(RAX, R11));
    var a := Step(w, s, Load(0, R11, R11));
    Returns(w, a, w.afterAsked, w.afterAsked.upper * 0x1_0000_0000 + a.tls.asked, a.tls.(asked := 0));
    hide Return;
  }
}

/**
 The part of an x86-64 processor the trampoline uses: 16 integer registers, 16 vector registers, the zero flag, and
 memory in 8-byte words. Registers are numbered as the instruction encoding numbers them.
 */
module Machine {
  import opened Bytes
  import opened Context

  type Word = Pointer
  type Reg = n: int | 0 <= n < 16
  type Memory = map<int, Word>

  const RAX: Reg := 0
  const RCX: Reg := 1
  const RDX: Reg := 2
  const RSP: Reg := 4
  const RSI: Reg := 6
  const RDI: Reg := 7
  const R8: Reg := 8
  const R9: Reg := 9
  const R11: Reg := 11

  /** 128 bits of a vector register: their low and their high word. */
  datatype Vector = Vector(low: Word, high: Word)

  datatype Instr =
    | Nop
    | CallNext
    | Push(r: Reg)
    | Pop(r: Reg)
    | Move(src: Reg, dst: Reg)
    | Load(offset: int, base: Reg, dst: Reg)
    | SubSp(n: int)
    | AddSp(n: int)
    | StoreX(x: Reg)
    | LoadX(x: Reg)
    | Call(r: Reg)
    | Test(r: Reg)
    | Jnz(skip: nat)
    | Jump(r: Reg)
    | Ret

  /** How control left the code. Lost: a call to an address that is none of the known routines. */
  datatype Exit = Running | Jumped(to: Word) | Returned(to: Word) | Lost

  /**
   The vector registers have 256 bits: `xmm` is their lower halves, `high` their upper ones. `trace` notes, per call of
   a C routine, the stack pointer modulo 16 at the call instruction.
   */
  datatype State = State(gpr: seq<Word>, xmm: seq<Vector>, high: seq<Vector>, zero: bool, mem: Memory, tls: Tls,
                         trace: seq<nat>, pc: nat, exit: Exit)

  /** A C routine's leftovers: values for the registers it need not preserve, and its own stack frame. */
  datatype Clobber = Clobber(gpr: seq<Word>, xmm: seq<Vector>, high: seq<Vector>, zero: bool, mem: Memory,
                             upper: Flag)

  /** What stays fixed in a process: the addresses of the three C routines, and where the stack lies. */
  datatype System = System(ctxAsked: Word, setCtx: Word, getCtx: Word, bottom: Word, top: Word)

  /** What one traversal meets. `next` is the address behind the first call of the code. */
  datatype World = World(sys: System, next: Word, afterSet: Clobber, afterAsked: Clobber, afterGet: Clobber)

  predicate ValidClobber(c: Clobber) {
    |c.gpr| == 16 && |c.xmm| == 16 && |c.high| == 16
  }

  predicate ValidWorld(w: World) {
    && ValidClobber(w.afterSet) && ValidClobber(w.afterAsked) && ValidClobber(w.afterGet)
    && w.sys.setCtx != w.sys.ctxAsked && w.sys.setCtx != w.sys.getCtx && w.sys.ctxAsked != w.sys.getCtx
  }

  predicate Valid(s: State) {
    |s.gpr| == 16 && |s.xmm| == 16 && |s.high| == 16
  }

  /** `n` bytes above an address; addresses wrap around. */
  function Above(a: Word, n: int): Word {
    (a as int + n) % SIZE_LIMIT
  }

  /** A word nobody wrote reads as 0. */
  function Fetch(mem: Memory, a: int): Word {
    if a in mem then mem[a] else 0
  }

  /** Section 3.2.3 of the System V AMD64 psABI: the registers a routine may change. */
  predicate CallerSaved(r: Reg) {
    r == RAX || r == RCX || r == RDX || r == RSI || r == RDI || (8 <= r < 12)
  }

  /** What is left: rbx, rsp, rbp and r12 to r15. */
  lemma PreservedRegisters(r: Reg)
    ensures !CallerSaved(r) <==> r in {3, 4, 5, 12, 13, 14, 15}
  {
  }

  function LeftRegisters(gpr: seq<Word>, c: Clobber): (left: seq<Word>)
    requires |gpr| == 16 && ValidClobber(c)
    ensures |left| == 16
  {
    seq(16, r requires 0 <= r < 16 => if CallerSaved(r) then c.gpr[r] else gpr[r])
  }

  function LeftMemory(mem: Memory, c: Clobber, bottom: Word, sp: Word): Memory {
    map a | a in mem.Keys + c.mem.Keys :: if bottom <= a < sp && a in c.mem then c.mem[a] else Fetch(mem, a)
  }

  /**
   Back from a C routine: the stack pointer, the preserved registers and all memory but its frame are as before. The
   return address of the call lies in that frame.
   */
  function Return(w: World, s: State, c: Clobber, rax: Word, tls: Tls): (t: State)
    requires Valid(s) && ValidClobber(c)
    ensures Valid(t)
  {
    var sp := s.gpr[RSP];
    s.(gpr := LeftRegisters(s.gpr, c)[RAX := rax], xmm := c.xmm, high := c.high, zero := c.zero,
       mem := LeftMemory(s.mem, c, w.sys.bottom, sp), tls := tls, trace := s.trace + [sp % 16], pc := s.pc + 1)
  }

  /** `mmk_set_ctx`, `mmk_ctx_asked` and `mmk_ctx`. An int is returned in the lower half of rax. */
  function CallRoutine(w: World, s: State, to: Word): (t: State)
    requires Valid(s) && ValidWorld(w)
    ensures Valid(t)
  {
    if to == w.sys.setCtx then
      Return(w, s, w.afterSet, w.afterSet.gpr[RAX], s.tls.(ctx := s.gpr[RDI]))
    else if to == w.sys.ctxAsked then
      Return(w, s, w.afterAsked, w.afterAsked.upper * 0x1_0000_0000 + s.tls.asked, s.tls.(asked := 0))
    else if to == w.sys.getCtx then
      Return(w, s, w.afterGet, s.tls.ctx, s.tls)
    else s.(pc := s.pc + 1, exit := Lost)
  }

  function PushWord(s: State, v: Word): (t: State)
    requires Valid(s)
    ensures Valid(t)
  {
    var sp := Above(s.gpr[RSP], -8);
    s.(gpr := s.gpr[RSP := sp], mem := s.mem[sp := v], pc := s.pc + 1)
  }

  function MoveSp(s: State, n: int): (t: State)
    requires Valid(s)
    ensures Valid(t)
  {
    var sp := Above(s.gpr[RSP], n);
    s.(gpr := s.gpr[RSP := sp], zero := sp == 0, pc := s.pc + 1)
  }

  /** One instruction. */
  function Step(w: World, s: State, i: Instr): (t: State)
    requires Valid(s) && ValidWorld(w)
    ensures Valid(t)
  {
    match i
    case Nop => s.(pc := s.pc + 1)
    case CallNext => PushWord(s, w.next)
    case Push(r) => PushWord(s, s.gpr[r])
    case Pop(r) =>
      var sp := s.gpr[RSP];
      s.(gpr := s.gpr[RSP := Above(sp, 8)][r := Fetch(s.mem, sp)], pc := s.pc + 1)
    case Move(src, dst) => s.(gpr := s.gpr[dst := s.gpr[src]], pc := s.pc + 1)
    case Load(offset, base, dst) =>
      s.(gpr := s.gpr[dst := Fetch(s.mem, Above(s.gpr[base], offset))], pc := s.pc + 1)
    case SubSp(n) => MoveSp(s, -n)
    case AddSp(n) => MoveSp(s, n)
    case StoreX(x) =>
      var sp := s.gpr[RSP];
      s.(mem := s.mem[sp := s.xmm[x].low][Above(sp, 8) := s.xmm[x].high], pc := s.pc + 1)
    case LoadX(x) =>
      var sp := s.gpr[RSP];
      s.(xmm := s.xmm[x := Vector(Fetch(s.mem, sp), Fetch(s.mem, Above(sp, 8)))], pc := s.pc + 1)
    case Call(r) => CallRoutine(w, s, s.gpr[r])
    case Test(r) => s.(zero := s.gpr[r] == 0, pc := s.pc + 1)
    case Jnz(skip) => s.(pc := s.pc + 1 + if s.zero then 0 else skip)
    case Jump(r) => s.(pc := s.pc + 1, exit := Jumped(s.gpr[r]))
    case Ret =>
      var sp := s.gpr[RSP];
      s.(gpr := s.gpr[RSP := Above(sp, 8)], pc := s.pc + 1, exit := Returned(Fetch(s.mem, sp)))
  }

  /** Runs the code from the program counter until control leaves it. */
  function Run(w: World, code: seq<Instr>, s: State): (t: State)
    requires Valid(s) && ValidWorld(w)
    ensures Valid(t)
    decreases |code| - s.pc
  {
    if s.exit != Running || s.pc >= |code| then s else Run(w, code, Step(w, s, code[s.pc]))
  }

  /** The processor itself. */
  class Processor {
    var gpr: seq<Word>
    var xmm: seq<Vector>
    var high: seq<Vector>
    var zero: bool
    var mem: Memory
    var tls: Tls
    ghost var trace: seq<nat>
    var pc: nat
    var exit: Exit

    /** The words of memory that malloc and mmap have handed out to stubs. */
    ghost var reserved: set<int>

    ghost function Snapshot(): State
      reads this
    {
      State(gpr, xmm, high, zero, mem, tls, trace, pc, exit)
    }

    method PushValue(v: Word)
      requires Valid(Snapshot())
      modifies `gpr, `xmm, `high, `zero, `mem, `tls, `trace, `pc, `exit
      ensures Snapshot() == PushWord(old(Snapshot()), v)
    {
      gpr := gpr[RSP := Above(gpr[RSP], -8)];
      mem := mem[gpr[RSP] := v];
      pc := pc + 1;
    }

    method CallOut(w: World, to: Word)
      requires Valid(Snapshot()) && ValidWorld(w)
      modifies `gpr, `xmm, `high, `zero, `mem, `tls, `trace, `pc, `exit
      ensures Snapshot() == CallRoutine(w, old(Snapshot()), to)
    {
      var c, rax;
      if to == w.sys.setCtx {
        c, rax, tls := w.afterSet, w.afterSet.gpr[RAX], tls.(ctx := gpr[RDI]);
      } else if to == w.sys.ctxAsked {
        c, rax, tls := w.afterAsked, w.afterAsked.upper * 0x1_0000_0000 + tls.asked, tls.(asked := 0);
      } else if to == w.sys.getCtx {
        c, rax := w.afterGet, tls.ctx;
      } else {
        pc, exit := pc + 1, Lost;
        return;
      }
      var sp := gpr[RSP];
      mem := LeftMemory(mem, c, w.sys.bottom, sp);
      gpr := LeftRegisters(gpr, c)[RAX := rax];
      xmm, high, zero, trace, pc := c.xmm, c.high, c.zero, trace + [sp % 16], pc + 1;
    }

    method MoveStack(n: int)
      requires Valid(Snapshot())
      modifies `gpr, `xmm, `high, `zero, `mem, `tls, `trace, `pc, `exit
      ensures Snapshot() == MoveSp(old(Snapshot()), n)
    {
      gpr := gpr[RSP := Above(gpr[RSP], n)];
      zero, pc := gpr[RSP] == 0, pc + 1;
    }

    method PopValue() returns (v: Word)
      requires Valid(Snapshot())
      modifies this`gpr, this`pc
      ensures v == Fetch(mem, old(gpr[RSP])) && pc == old(pc) + 1
      ensures gpr == old(gpr)[RSP := Above(old(gpr[RSP]), 8)]
    {
      v := Fetch(mem, gpr[RSP]);
      gpr, pc := gpr[RSP := Above(gpr[RSP], 8)], pc + 1;
    }

    method StoreVector(x: Reg)
      requires Valid(Snapshot())
      modifies this`mem, this`pc
      ensures mem == old(mem)[gpr[RSP] := xmm[x].low][Above(gpr[RSP], 8) := xmm[x].high] && pc == old(pc) + 1
    {
      var sp := gpr[RSP];
      mem, pc := mem[sp := xmm[x].low][Above(sp, 8) := xmm[x].high], pc + 1;
    }

    method LoadVector(x: Reg)
      requires Valid(Snapshot())
      modifies this`xmm, this`pc
      ensures xmm == old(xmm)[x := Vector(Fetch(mem, gpr[RSP]), Fetch(mem, Above(gpr[RSP], 8)))] && pc == old(pc) + 1
    {
      var sp := gpr[RSP];
      xmm, pc := xmm[x := Vector(Fetch(mem, sp), Fetch(mem, Above(sp, 8)))], pc + 1;
    }

    method Execute(w: World, i: Instr)
      requires Valid(Snapshot()) && ValidWorld(w)
      modifies `gpr, `xmm, `high, `zero, `mem, `tls, `trace, `pc, `exit
      ensures Snapshot() == Step(w, old(Snapshot()), i)
    {
      hide Above, Fetch, CallRoutine, PushWord, MoveSp, ValidWorld;
      match i
      case Nop => pc := pc + 1;
      case CallNext => PushValue(w.next);
      case Push(r) => PushValue(gpr[r]);
      case Pop(r) =>
        var v := PopValue();
        gpr := gpr[r := v];
      case Move(src, dst) => gpr, pc := gpr[dst := gpr[src]], pc + 1;
      case Load(offset, base, dst) => gpr, pc := gpr[dst := Fetch(mem, Above(gpr[base], offset))], pc + 1;
      case SubSp(n) => MoveStack(-n);
      case AddSp(n) => MoveStack(n);
      case StoreX(x) => StoreVector(x);
      case LoadX(x) => LoadVector(x);
      case Call(r) => CallOut(w, gpr[r]);
      case Test(r) => zero, pc := gpr[r] == 0, pc + 1;
      case Jnz(skip) => pc := if zero then pc + 1 else pc + 1 + skip;
      case Jump(r) => exit, pc := Jumped(gpr[r]), pc + 1;
      case Ret =>
        var v := PopValue();
        exit := Returned(v);
    }

    method RunCode(w: World, code: seq<Instr>)
      requires Valid(Snapshot()) && ValidWorld(w)
      modifies `gpr, `xmm, `high, `zero, `mem, `tls, `trace, `pc, `exit
      ensures Snapshot() == Run(w, code, old(Snapshot()))
    {
      while exit == Running && pc < |code|
        invariant Valid(Snapshot())
        invariant Run(w, code, Snapshot()) == Run(w, code, old(Snapshot()))
        decreases |code| - pc
      {
        hide Step;
        ghost var s := Snapshot();
        Execute(w, code[pc]);
        PcAdvances(w, s, code[s.pc]);
      }
    }
  }

  lemma PcAdvances(w: World, s: State, i: Instr)
    requires Valid(s) && ValidWorld(w)
    ensures Step(w, s, i).pc > s.pc
  {
  }
}

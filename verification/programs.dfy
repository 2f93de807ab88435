/**
 What a test program means, whatever the order of its statements: mocks are created, used and reset, and after every
 statement it is known which mocks live, what the table holds, which words of memory are taken and what has been lost.
 */
module Programs {
  import opened Bytes
  import opened CallLogs
  import opened CallRecords
  import opened Context
  import opened Machine
  import opened ParamStructs
  import opened HookLists
  import opened Lifetimes
  import opened Resets
  import opened Scripts
  import opened Stubs
  import Got
  import GotRuns
  import Targets

  /** How a statement gets at its mock: through which function, and from which caller's registers. */
  datatype Reach = Reach(way: Way, caller: Caller)

  /** Mocks are numbered in the order of their creation. */
  datatype Statement =
    | Create(setup: Setup)
    | Do(op: Op, reach: Reach)
    | Reset(mock: nat, reach: Reach)

  datatype Outcome = Created(valid: bool) | Done(output: Output) | Gone

  /**
   Between two statements: the contract, check and call statements so far, every mock ever created, the hooks of those
   that live, the table, the words of memory in use, and the number of blocks that nobody will free.
   */
  datatype Progress = Progress(ops: seq<Op>, setups: seq<Setup>, live: map<nat, seq<Got.Stub>>, table: seq<Got.Fn>,
                               words: set<int>, lost: nat)

  function Start(table: seq<Got.Fn>, words: set<int>): Progress {
    Progress([], [], map[], table, words, 0)
  }

  function Next(s: Progress, p: Statement): Progress {
    match p
    case Create(c) =>
      var lost := s.lost + if Leaks(c) then 1 else 0;
      if c.scope.places == [] then s.(setups := s.setups + [c], lost := lost)
      else if GotRuns.HooksIn(s.table, Plan(c)) then
        var (table, hooks) := HookAll(s.table, Plan(c));
        s.(setups := s.setups + [c], live := s.live[|s.setups| := hooks], table := table,
           words := s.words + PlannedWords(c), lost := lost)
      else s
    case Do(op, _) => s.(ops := s.ops + [op])
    case Reset(k, _) =>
      if k in s.live && k < |s.setups| && StubsIn(s.table, s.live[k]) then
        s.(live := s.live - {k}, table := UnhookAll(s.table, s.live[k]), words := s.words - PlannedWords(s.setups[k]))
      else s
  }

  function After(start: Progress, ps: seq<Statement>): Progress {
    if ps == [] then start else Next(After(start, ps[..|ps| - 1]), ps[|ps| - 1])
  }

  lemma AfterMore(start: Progress, ps: seq<Statement>, p: Statement)
    ensures After(start, ps + [p]) == Next(After(start, ps), p)
  {
    assert (ps + [p])[..|ps|] == ps;
  }

  /** What the documentation says the statement comes to. */
  function OutcomeOf(s: Progress, p: Statement): Outcome {
    match p
    case Create(c) => Created(c.scope.places != [])
    case Do(op, _) => Done(Scripts.Answer(s.ops, op))
    case Reset(_, _) => Gone
  }

  /** What the statements of a program come to. */
  function Outcomes(start: Progress, ps: seq<Statement>): (outs: seq<Outcome>)
    ensures |outs| == |ps|
  {
    if ps == [] then []
    else
      var n := |ps| - 1;
      Outcomes(start, ps[..n]) + [OutcomeOf(After(start, ps[..n]), ps[n])]
  }

  lemma NothingRun(start: Progress, ps: seq<Statement>)
    ensures After(start, ps[..0]) == start && Outcomes(start, ps[..0]) == []
  {
  }

  lemma OneMoreRun(sys: System, start: Progress, ps: seq<Statement>, i: nat)
    requires Legal(sys, start, ps) && i < |ps|
    ensures Allowed(sys, After(start, ps[..i]), ps[i], |ps| - i)
    ensures After(start, ps[..i + 1]) == Next(After(start, ps[..i]), ps[i])
    ensures Outcomes(start, ps[..i + 1]) == Outcomes(start, ps[..i]) + [OutcomeOf(After(start, ps[..i]), ps[i])]
  {
    hide Allowed, Next, OutcomeOf;
    assert ps[..i + 1][..i] == ps[..i];
  }

  /** The function reached leads to some trampoline of mock `k`: its handle always does, a slot while it is hooked. */
  predicate LeadsThere(s: Progress, k: nat, way: Way) {
    && k in s.live && k < |s.setups|
    && (way.Name? ==> way.slot < |s.table| && exists i | 0 <= i < |s.live[k]| ::
          s.live[k][i].trampoline == s.table[way.slot])
  }

  predicate RoomFor(l: Layout, n: nat) {
    n < SIZE_LIMIT && Needed(n, l.size + WORD) + PAGE < SIZE_LIMIT
  }

  /**
   The statement neither ends the program in a panic nor uses a mock that does not live, its arguments have the mock's
   types, the system hands out memory that is not in use, and no counter overflows in `n` more statements.
   */
  predicate Allowed(sys: System, s: Progress, p: Statement, n: nat) {
    match p
    case Create(c) =>
      && !Targets.Unreadable(c.target) && (c.scope.places == [] ==> c.noabort)
      && Creatable(s.table, sys, s.words, c) && RoomFor(c.layout, n)
      && forall k <- s.live :: k < |s.setups| ==> s.setups[k].address != c.address
    case Do(op, r) =>
      && LeadsThere(s, op.mock, r.way) && ValidCaller(sys, r.caller) && r.caller.afterAsked.upper == 0
      && ArgsFit(s.setups[op.mock].layout, op.args)
      && (op.Invoke? ==> |op.garbage| == s.setups[op.mock].layout.size)
    case Reset(k, r) => LeadsThere(s, k, r.way) && ValidCaller(sys, r.caller)
  }

  /** Every statement of the program is allowed where it stands. */
  ghost predicate Legal(sys: System, start: Progress, ps: seq<Statement>) {
    forall i | 0 <= i < |ps| :: Allowed(sys, After(start, ps[..i]), ps[i], |ps| - i)
  }

  lemma {:induction false} NeededGrows(n: nat, m: nat, size: nat)
    requires m <= n
    ensures Needed(m, size) <= Needed(n, size)
  {
    if m < n {
      NeededGrows(n - 1, m, size);
    }
  }

  /** What is allowed with more statements to come is allowed with fewer. */
  lemma AllowedLater(sys: System, s: Progress, p: Statement, n: nat, m: nat)
    requires Allowed(sys, s, p, n) && m <= n
    ensures Allowed(sys, s, p, m)
  {
    if p.Create? {
      NeededGrows(n, m, p.setup.layout.size + WORD);
    }
  }

  lemma LegalPrefix(sys: System, start: Progress, ps: seq<Statement>, n: nat)
    requires Legal(sys, start, ps) && n <= |ps|
    ensures Legal(sys, start, ps[..n])
  {
    hide Allowed, After;
    forall i | 0 <= i < n
      ensures Allowed(sys, After(start, ps[..n][..i]), ps[..n][i], n - i)
    {
      assert ps[..n][..i] == ps[..i];
      AllowedLater(sys, After(start, ps[..i]), ps[i], |ps| - i, n - i);
    }
  }

  // ---- what holds between any two statements ----

  /** The hooks of mock `k` are what its plan made of them. */
  ghost predicate HooksMatch(s: Progress, k: nat)
    requires k in s.live
  {
    && k < |s.setups| && |s.live[k]| == |Plan(s.setups[k])| > 0 && StubsIn(s.table, s.live[k])
    && forall i | 0 <= i < |s.live[k]| :: s.live[k][i].trampoline == Plan(s.setups[k])[i].trampoline
  }

  /** Two mocks that live at the same time have no words in common. */
  ghost predicate MemoryApart(a: Setup, b: Setup) {
    PlannedWords(a) !! PlannedWords(b) && a.address != b.address
  }

  ghost predicate Sound(s: Progress) {
    && (forall k <- s.live :: HooksMatch(s, k) && PlannedWords(s.setups[k]) <= s.words)
    && (forall k, l | k in s.live && l in s.live && k != l :: MemoryApart(s.setups[k], s.setups[l]))
  }

  /** Statements are about mocks that were created before. */
  ghost predicate Numbered(s: Progress) {
    forall i | 0 <= i < |s.ops| :: s.ops[i].mock < |s.setups|
  }

  /** Nothing has been defined for a mock that is only now created, and nothing has called it. */
  lemma {:induction false} NothingYet(ops: seq<Op>, k: nat)
    requires forall i | 0 <= i < |ops| :: ops[i].mock < k
    ensures DefsIn(ops, k) == [] && CallsIn(ops, k) == []
  {
    if ops != [] {
      NothingYet(ops[..|ops| - 1], k);
    }
  }

  lemma PlanTrampolines(table: seq<Got.Fn>, c: Setup)
    requires GotRuns.HooksIn(table, Plan(c))
    ensures var (after, hooks) := HookAll(table, Plan(c));
      forall i | 0 <= i < |hooks| :: hooks[i].trampoline == Plan(c)[i].trampoline
  {
    HookedTrampolines(table, Plan(c));
  }

  lemma {:induction false} HookedTrampolines(table: seq<Got.Fn>, hooks: seq<GotRuns.Hook>)
    requires GotRuns.HooksIn(table, hooks)
    ensures forall i | 0 <= i < |hooks| :: HookAll(table, hooks).1[i].trampoline == hooks[i].trampoline
  {
    if hooks != [] {
      HookedTrampolines(table, hooks[..|hooks| - 1]);
    }
  }

  /** A new mock's words are apart from all words in use. */
  lemma PlannedWordsAreFresh(sys: System, s: Progress, c: Setup)
    requires Creatable(s.table, sys, s.words, c)
    ensures PlannedWords(c) !! s.words
  {
  }

  /** What a creation comes to. */
  lemma NextCreation(sys: System, s: Progress, c: Setup, n: nat)
    requires Allowed(sys, s, Create(c), n)
    ensures GotRuns.HooksIn(s.table, Plan(c)) && (c.scope.places == [] ==> HookAll(s.table, Plan(c)) == (s.table, []))
    ensures var t, k := Next(s, Create(c)), |s.setups|;
      && t.setups == s.setups + [c] && t.table == HookAll(s.table, Plan(c)).0
      && t.live == (if c.scope.places == [] then s.live else s.live[k := HookAll(s.table, Plan(c)).1])
      && t.words == s.words + PlannedWords(c) && (c.scope.places == [] ==> PlannedWords(c) == {})
  {
    PlanFits(s.table, sys, s.words, c);
    hide Creatable, Leaks;
  }

  /** What a reset comes to. */
  lemma NextReset(s: Progress, k: nat, r: Reach)
    requires k in s.live && k < |s.setups| && StubsIn(s.table, s.live[k])
    ensures var t := Next(s, Reset(k, r));
      && t.live == s.live - {k} && t.setups == s.setups && t.words == s.words - PlannedWords(s.setups[k])
      && t.table == UnhookAll(s.table, s.live[k]) && |t.table| == |s.table|
  {
    hide PlannedWords;
  }

  lemma HooksAfterCreate(sys: System, s: Progress, c: Setup)
    requires Sound(s) && Creatable(s.table, sys, s.words, c)
    ensures forall k <- Next(s, Create(c)).live :: HooksMatch(Next(s, Create(c)), k)
  {
    var t := Next(s, Create(c));
    PlanFits(s.table, sys, s.words, c);
    PlanTrampolines(s.table, c);
    hide HookAll, PlannedWords, Creatable, Plan;
    forall k <- t.live
      ensures HooksMatch(t, k)
    {
      assert k in s.live ==> HooksMatch(s, k);
    }
  }

  lemma NewIsApart(sys: System, s: Progress, c: Setup, n: nat)
    requires Sound(s) && Allowed(sys, s, Create(c), n)
    ensures forall k <- s.live :: k < |s.setups| && MemoryApart(s.setups[k], c) && MemoryApart(c, s.setups[k])
  {
    PlannedWordsAreFresh(sys, s, c);
    hide PlannedWords, Creatable;
    forall k <- s.live
      ensures k < |s.setups| && MemoryApart(s.setups[k], c) && MemoryApart(c, s.setups[k])
    {
      assert HooksMatch(s, k) && PlannedWords(s.setups[k]) <= s.words;
    }
  }

  lemma SoundAfterCreate(sys: System, s: Progress, c: Setup, n: nat)
    requires Sound(s) && Allowed(sys, s, Create(c), n)
    ensures Sound(Next(s, Create(c)))
  {
    HooksAfterCreate(sys, s, c);
    NewIsApart(sys, s, c, n);
    hide Allowed, HookAll, PlannedWords, Creatable, Plan, HooksMatch, MemoryApart;
    var t := Next(s, Create(c));
    forall k <- t.live
      ensures PlannedWords(t.setups[k]) <= t.words
    {
      assert HooksMatch(t, k);
      assert k in s.live ==> t.setups[k] == s.setups[k];
    }
    forall k, l | k in t.live && l in t.live && k != l
      ensures MemoryApart(t.setups[k], t.setups[l])
    {
      assert k in s.live ==> t.setups[k] == s.setups[k];
      assert l in s.live ==> t.setups[l] == s.setups[l];
    }
  }

  lemma HooksStay(s: Progress, t: Progress, k: nat)
    requires k in s.live && k in t.live && t.live[k] == s.live[k] && HooksMatch(s, k)
    requires t.setups == s.setups && |t.table| == |s.table|
    ensures HooksMatch(t, k)
  {
    hide Plan;
  }

  lemma SoundAfterReset(s: Progress, k: nat, r: Reach)
    requires Sound(s) && k in s.live
    ensures HooksMatch(s, k) && Sound(Next(s, Reset(k, r)))
  {
    hide Next, PlannedWords, Plan, UnhookAll, StubsIn;
    var t := Next(s, Reset(k, r));
    assert HooksMatch(s, k);
    NextReset(s, k, r);
    hide HooksMatch;
    forall l <- t.live
      ensures HooksMatch(t, l) && PlannedWords(t.setups[l]) <= t.words
    {
      assert HooksMatch(s, l) && MemoryApart(s.setups[l], s.setups[k]);
      HooksStay(s, t, l);
    }
  }

  /** Every allowed statement keeps the hooks, the words and the addresses of the live mocks in order. */
  lemma SoundNext(sys: System, s: Progress, p: Statement, n: nat)
    requires Sound(s) && Allowed(sys, s, p, n)
    ensures Sound(Next(s, p))
  {
    assert forall k <- s.live :: HooksMatch(s, k);
    match p
    case Create(c) => SoundAfterCreate(sys, s, c, n);
    case Do(op, _) =>
      assert forall k <- s.live :: HooksMatch(Next(s, p), k);
    case Reset(k, r) => SoundAfterReset(s, k, r);
  }

  /** They are in order after every program. */
  lemma {:induction false} SoundAfter(sys: System, start: Progress, ps: seq<Statement>)
    requires Sound(start) && Legal(sys, start, ps)
    ensures Sound(After(start, ps))
  {
    hide Sound, Next, Allowed;
    if ps != [] {
      var n := |ps| - 1;
      LegalPrefix(sys, start, ps, n);
      SoundAfter(sys, start, ps[..n]);
      SoundNext(sys, After(start, ps[..n]), ps[n], 1);
    }
  }

  // ---- what is in use, and what is lost ----

  /** The words of the live mocks. */
  ghost function LiveWords(s: Progress): set<int> {
    set k, w | k in s.live && k < |s.setups| && w in PlannedWords(s.setups[k]) :: w
  }

  lemma LiveSetups(s: Progress)
    requires Sound(s)
    ensures forall k <- s.live :: k < |s.setups|
  {
    forall k <- s.live
      ensures k < |s.setups|
    {
      assert HooksMatch(s, k);
    }
  }

  lemma WordsAfterCreate(sys: System, s: Progress, c: Setup, n: nat)
    requires Sound(s) && Allowed(sys, s, Create(c), n)
    ensures LiveWords(Next(s, Create(c))) == LiveWords(s) + PlannedWords(c)
    ensures Next(s, Create(c)).words == s.words + PlannedWords(c) && PlannedWords(c) !! s.words
  {
    hide Sound, PlannedWords, HookAll, Plan, Creatable, HooksMatch, Leaks, StubsIn, Next;
    NextCreation(sys, s, c, n);
    PlannedWordsAreFresh(sys, s, c);
    LiveSetups(s);
    var t, created := Next(s, Create(c)), |s.setups|;
    forall w
      ensures w in LiveWords(t) <==> w in LiveWords(s) + PlannedWords(c)
    {
      if w in LiveWords(s) {
        var k :| k in s.live && k < |s.setups| && w in PlannedWords(s.setups[k]);
        assert k in t.live && t.setups[k] == s.setups[k];
      }
      if w in PlannedWords(c) {
        assert created in t.live && t.setups[created] == c;
      }
    }
  }

  lemma WordsAfterReset(s: Progress, k: nat, r: Reach)
    requires Sound(s) && k in s.live && k < |s.setups| && StubsIn(s.table, s.live[k])
    ensures LiveWords(Next(s, Reset(k, r))) == LiveWords(s) - PlannedWords(s.setups[k])
    ensures PlannedWords(s.setups[k]) <= LiveWords(s)
  {
    hide PlannedWords, UnhookAll, StubsIn, HooksMatch;
    var t := Next(s, Reset(k, r));
    assert forall w | w in PlannedWords(s.setups[k]) :: w in LiveWords(s);
    forall w
      ensures w in LiveWords(t) <==> w in LiveWords(s) && w !in PlannedWords(s.setups[k])
    {
      if w in LiveWords(t) {
        var l :| l in t.live && l < |t.setups| && w in PlannedWords(t.setups[l]);
        assert MemoryApart(s.setups[l], s.setups[k]);
      }
      if w in LiveWords(s) && w !in PlannedWords(s.setups[k]) {
        var l :| l in s.live && l < |s.setups| && w in PlannedWords(s.setups[l]);
        assert l in t.live;
      }
    }
  }

  lemma WordsNext(sys: System, base: set<int>, s: Progress, p: Statement, n: nat)
    requires Sound(s) && Allowed(sys, s, p, n) && s.words == base + LiveWords(s) && base !! LiveWords(s)
    ensures Next(s, p).words == base + LiveWords(Next(s, p)) && base !! LiveWords(Next(s, p))
  {
    assert forall k <- s.live :: HooksMatch(s, k);
    hide PlannedWords, HookAll, UnhookAll, Plan, Creatable, LiveWords, StubsIn, Sound, Next;
    match p
    case Create(c) => WordsAfterCreate(sys, s, c, n);
    case Do(op, _) => SameWords(s, op, p.reach);
    case Reset(k, r) =>
      WordsAfterReset(s, k, r);
      NextReset(s, k, r);
  }

  lemma SameWords(s: Progress, op: Op, r: Reach)
    ensures LiveWords(Next(s, Do(op, r))) == LiveWords(s) && Next(s, Do(op, r)).words == s.words
  {
    hide PlannedWords;
  }

  /** When no mock lives, the words in use are those that were in use before the program. */
  lemma {:induction false} WordsAreKept(sys: System, table: seq<Got.Fn>, base: set<int>, ps: seq<Statement>)
    requires Legal(sys, Start(table, base), ps)
    ensures var s := After(Start(table, base), ps);
      && Sound(s) && s.words == base + LiveWords(s) && base !! LiveWords(s)
      && (s.live == map[] ==> s.words == base)
  {
    var start := Start(table, base);
    if ps == [] {
    } else {
      var n := |ps| - 1;
      hide Sound, Next, Allowed, LiveWords;
      LegalPrefix(sys, start, ps, n);
      WordsAreKept(sys, table, base, ps[..n]);
      SoundNext(sys, After(start, ps[..n]), ps[n], 1);
      WordsNext(sys, base, After(start, ps[..n]), ps[n], 1);
    }
    NoWords(After(start, ps));
  }

  lemma NoWords(s: Progress)
    ensures s.live == map[] ==> LiveWords(s) == {}
  {
  }

  predicate Loses(p: Statement) {
    p.Create? && Leaks(p.setup)
  }

  /** One block is lost with each creation of which a stub fails, and none otherwise. */
  lemma {:induction false} LossesAreFailedStubs(sys: System, start: Progress, ps: seq<Statement>)
    requires Legal(sys, start, ps)
    ensures After(start, ps).lost == start.lost + CountWhere(ps, Loses)
  {
    hide Allowed, Next, Loses;
    if ps != [] {
      var n := |ps| - 1;
      LegalPrefix(sys, start, ps, n);
      LossesAreFailedStubs(sys, start, ps[..n]);
      LossesCounted(sys, After(start, ps[..n]), ps[n], 1);
    }
  }

  lemma LossesCounted(sys: System, s: Progress, p: Statement, n: nat)
    requires Allowed(sys, s, p, n)
    ensures Next(s, p).lost == s.lost + if Loses(p) then 1 else 0
  {
    if p.Create? {
      PlanFits(s.table, sys, s.words, p.setup);
    }
  }

  // ---- where a patched function leads ----

  /** A patched slot holds the trampoline of a hook. */
  lemma {:induction false} PatchedHoldsTrampoline(table: seq<Got.Fn>, hooks: seq<GotRuns.Hook>, x: nat) returns (i: nat)
    requires GotRuns.HooksIn(table, hooks) && x < |table| && Listed(hooks, x)
    ensures i < |hooks| && HookAll(table, hooks).0[x] == hooks[i].trampoline
  {
    var n := |hooks| - 1;
    var before := HookAll(table, hooks[..n]).0;
    ListedLast(hooks, x);
    Got.PatchedSlot(before, Got.Fresh(hooks[n].places), hooks[n].trampoline, |hooks[n].places|, x);
    HitsPlaces(hooks[n].places, x);
    if x in hooks[n].places {
      i := n;
    } else {
      i := PatchedHoldsTrampoline(table, hooks[..n], x);
    }
  }

  /** Right after the creation of a mock every slot it patched leads to it, and so does its handle. */
  lemma PatchedLeadsThere(sys: System, s: Progress, c: Setup, way: Way)
    requires Sound(s) && Creatable(s.table, sys, s.words, c) && c.scope.places != []
    requires way.Name? ==> way.slot < |s.table| && Listed(Plan(c), way.slot)
    ensures LeadsThere(Next(s, Create(c)), |s.setups|, way)
  {
    PlanFits(s.table, sys, s.words, c);
    PlanTrampolines(s.table, c);
    if way.Name? {
      var i := PatchedHoldsTrampoline(s.table, Plan(c), way.slot);
    }
  }

  lemma SharedWord(a: Setup, b: Setup, w: int)
    requires w in PlannedWords(a) && w in PlannedWords(b)
    ensures !MemoryApart(a, b)
  {
  }

  /** A slot leads to one mock at most. */
  lemma LeadsToOneMock(s: Progress, k: nat, l: nat, x: nat)
    requires Sound(s) && LeadsThere(s, k, Name(x)) && k != l
    ensures !LeadsThere(s, l, Name(x))
  {
    hide PlannedWords, MemoryApart, HooksMatch;
    TrampolineWords(s, k, x);
    if LeadsThere(s, l, Name(x)) {
      TrampolineWords(s, l, x);
      SharedWord(s.setups[k], s.setups[l], s.table[x] as int - 8);
    }
  }

  /** The word in front of a trampoline is one of its mock's. */
  lemma TrampolineWords(s: Progress, k: nat, x: nat)
    requires Sound(s) && LeadsThere(s, k, Name(x))
    ensures s.table[x] as int - 8 in PlannedWords(s.setups[k])
  {
    assert HooksMatch(s, k);
  }
}

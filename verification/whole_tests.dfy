/** Whole tests: all mocks are created, they are used, and they are reset in the order of their creation. */
module WholeTests {
  import opened Bytes
  import opened CHeap
  import opened Context
  import opened HookLists
  import opened ParamStructs
  import opened Sessions
  import opened Stubs
  import opened Machine
  import opened Lifetimes
  import opened Scripts
  import opened Resets
  import opened Programs
  import opened Runs
  import CallLogs
  import CallRecords
  import Got
  import GotRuns
  import Targets

  function Creations(cs: seq<Setup>): (ps: seq<Statement>)
    ensures |ps| == |cs|
  {
    seq(|cs|, i requires 0 <= i < |cs| => Create(cs[i]))
  }

  function Uses(us: seq<(Op, Reach)>): (ps: seq<Statement>)
    ensures |ps| == |us|
  {
    seq(|us|, i requires 0 <= i < |us| => Do(us[i].0, us[i].1))
  }

  /** The valid ones among the first `n` mocks are reset, each through a function of its own. */
  function ResetsOf(cs: seq<Setup>, rs: seq<Reach>, n: nat): seq<Statement>
    requires n <= |cs| == |rs|
  {
    if n == 0 then []
    else ResetsOf(cs, rs, n - 1) + if cs[n - 1].scope.places == [] then [] else [Reset(n - 1, rs[n - 1])]
  }

  function Test(cs: seq<Setup>, us: seq<(Op, Reach)>, rs: seq<Reach>): seq<Statement>
    requires |cs| == |rs|
  {
    Creations(cs) + Uses(us) + ResetsOf(cs, rs, |cs|)
  }

  function Plans(cs: seq<Setup>): seq<seq<GotRuns.Hook>> {
    seq(|cs|, i requires 0 <= i < |cs| => Plan(cs[i]))
  }

  /** The hooks of the first `n` mocks, in the order in which they were made. */
  function LiveHooks(live: map<nat, seq<Got.Stub>>, n: nat): seq<seq<Got.Stub>> {
    seq(n, k requires 0 <= k < n => if k in live then live[k] else [])
  }

  lemma AfterParts(start: Progress, a: seq<Statement>, b: seq<Statement>)
    ensures After(start, a + b) == After(After(start, a), b)
  {
    hide Next;
    if b == [] {
      assert a + b == a;
    } else {
      var n := |b| - 1;
      assert (a + b)[..|a| + n] == a + b[..n];
      AfterParts(start, a, b[..n]);
    }
  }

  lemma AllowedBehind(sys: System, start: Progress, a: seq<Statement>, b: seq<Statement>, i: nat)
    requires Legal(sys, start, a + b) && i < |b|
    ensures Allowed(sys, After(After(start, a), b[..i]), b[i], |b| - i)
  {
    hide Next, Allowed, After;
    var ps, j := a + b, |a| + i;
    assert Allowed(sys, After(start, ps[..j]), ps[j], |ps| - j);
    assert ps[j] == b[i] && |ps| - j == |b| - i;
    assert ps[..j] == a + b[..i];
    AfterParts(start, a, b[..i]);
  }

  lemma LegalParts(sys: System, start: Progress, a: seq<Statement>, b: seq<Statement>)
    requires Legal(sys, start, a + b)
    ensures Legal(sys, start, a) && Legal(sys, After(start, a), b)
  {
    hide Next, Allowed, After;
    assert (a + b)[..|a|] == a;
    LegalPrefix(sys, start, a + b, |a|);
    assert Legal(sys, After(start, a), b) by {
      forall i | 0 <= i < |b|
        ensures Allowed(sys, After(After(start, a), b[..i]), b[i], |b| - i)
      {
        AllowedBehind(sys, start, a, b, i);
      }
    }
  }

  /** After the creations the table is as all plans, one after the other, make it. */
  lemma {:induction false} AfterCreations(sys: System, original: seq<Got.Fn>, words: set<int>, cs: seq<Setup>)
    requires Legal(sys, Start(original, words), Creations(cs))
    ensures GotRuns.HooksIn(original, Flat(Plans(cs)))
    ensures var s := After(Start(original, words), Creations(cs));
      && s.setups == cs && (s.table, Flat(LiveHooks(s.live, |cs|))) == HookAll(original, Flat(Plans(cs)))
      && forall k: nat :: k in s.live <==> k < |cs| && cs[k].scope.places != []
  {
    hide Plan, Next, Allowed, HookAll, Flat;
    var start := Start(original, words);
    if cs != [] {
      var n := |cs| - 1;
      var before, c := After(start, Creations(cs[..n])), cs[n];
      assert Creations(cs) == Creations(cs[..n]) + [Create(c)];
      assert Creations(cs)[..n] == Creations(cs[..n]);
      LegalPrefix(sys, start, Creations(cs), n);
      assert Allowed(sys, before, Create(c), 1);
      AfterCreations(sys, original, words, cs[..n]);
      AfterMore(start, Creations(cs[..n]), Create(c));
      OneMoreCreation(sys, original, before, cs[..n], c);
      assert cs == cs[..n] + [c];
    } else {
      NothingCreated(original, words);
      assert cs == [];
    }
  }

  lemma NothingCreated(original: seq<Got.Fn>, words: set<int>)
    ensures Plans([]) == [] && LiveHooks(map[], 0) == [] && Creations([]) == []
    ensures Flat(Plans([])) == [] && HookAll(original, []) == (original, []) && Flat(LiveHooks(map[], 0)) == []
  {
  }

  lemma OneMoreCreation(sys: System, original: seq<Got.Fn>, s: Progress, cs: seq<Setup>, c: Setup)
    requires GotRuns.HooksIn(original, Flat(Plans(cs))) && s.setups == cs && Allowed(sys, s, Create(c), 1)
    requires (s.table, Flat(LiveHooks(s.live, |cs|))) == HookAll(original, Flat(Plans(cs)))
    requires forall k: nat :: k in s.live <==> k < |cs| && cs[k].scope.places != []
    ensures GotRuns.HooksIn(original, Flat(Plans(cs + [c])))
    ensures var t := Next(s, Create(c));
      && t.setups == cs + [c]
      && (t.table, Flat(LiveHooks(t.live, |cs| + 1))) == HookAll(original, Flat(Plans(cs + [c])))
      && forall k: nat :: k in t.live <==> k < |cs| + 1 && (cs + [c])[k].scope.places != []
  {
    hide HookAll, Plan, Next, Allowed, Flat;
    NextCreation(sys, s, c, 1);
    var t, hooks := Next(s, Create(c)), HookAll(s.table, Plan(c)).1;
    assert Plans(cs + [c]) == Plans(cs) + [Plan(c)];
    FlatMore(Plans(cs), Plan(c));
    assert LiveHooks(t.live, |cs| + 1) == LiveHooks(s.live, |cs|) + [hooks];
    FlatMore(LiveHooks(s.live, |cs|), hooks);
    HookMore(original, Flat(Plans(cs)), Plan(c));
  }

  lemma {:induction false} AfterUses(s: Progress, us: seq<(Op, Reach)>)
    ensures var t := After(s, Uses(us)); t.table == s.table && t.live == s.live && t.setups == s.setups
  {
    if us != [] {
      assert Uses(us)[..|us| - 1] == Uses(us[..|us| - 1]);
      AfterUses(s, us[..|us| - 1]);
    }
  }

  lemma HooksSoFar(live: map<nat, seq<Got.Stub>>, n: nat)
    ensures Flat(LiveHooks(live, n + 1)) == Flat(LiveHooks(live, n)) + if n in live then live[n] else []
  {
    assert LiveHooks(live, n + 1) == LiveHooks(live, n) + [if n in live then live[n] else []];
    FlatMore(LiveHooks(live, n), if n in live then live[n] else []);
  }

  lemma ResetBehind(s: Progress, live: map<nat, seq<Got.Stub>>, n: nat, r: Reach, t: Progress)
    requires n in live && t.live == (map k | k in live && n <= k :: live[k]) && n < |t.setups|
    requires StubsIn(t.table, live[n])
    ensures Next(t, Reset(n, r)).live == map k | k in live && n < k :: live[k]
    ensures Next(t, Reset(n, r)).table == UnhookAll(t.table, live[n]) && Next(t, Reset(n, r)).setups == t.setups
  {
    hide UnhookAll, StubsIn, PlannedWords;
    assert n in t.live && t.live[n] == live[n];
    assert t.live - {n} == map k | k in live && n < k :: live[k];
  }

  /** After the first resets the table is as undoing those mocks' hooks leaves it. */
  lemma {:induction false} AfterResets(sys: System, s: Progress, rs: seq<Reach>, n: nat)
    requires Sound(s) && |rs| == |s.setups| && n <= |rs| && Legal(sys, s, ResetsOf(s.setups, rs, n))
    requires forall k: nat :: k in s.live <==> k < |s.setups| && s.setups[k].scope.places != []
    ensures StubsIn(s.table, Flat(LiveHooks(s.live, n)))
    ensures var t := After(s, ResetsOf(s.setups, rs, n));
      && t.table == UnhookAll(s.table, Flat(LiveHooks(s.live, n))) && t.setups == s.setups
      && t.live == map k | k in s.live && n <= k :: s.live[k]
  {
    hide Sound, Legal, Next, UnhookAll, StubsIn, HooksMatch, Flat, LiveHooks;
    if n != 0 {
      var before, k := ResetsOf(s.setups, rs, n - 1), n - 1;
      var last := if k in s.live then [Reset(k, rs[k])] else [];
      assert ResetsOf(s.setups, rs, n) == before + last;
      LegalParts(sys, s, before, last);
      AfterResets(sys, s, rs, k);
      HooksSoFar(s.live, k);
      if k in s.live {
        AfterMore(s, before, Reset(k, rs[k]));
        SoundHooks(s, k);
        StillIn(s.table, After(s, before).table, s.live[k]);
        ResetBehind(s, s.live, k, rs[k], After(s, before));
        UnhookMore(s.table, Flat(LiveHooks(s.live, k)), s.live[k]);
      } else {
        assert before + last == before;
        assert Flat(LiveHooks(s.live, k)) + [] == Flat(LiveHooks(s.live, k));
      }
    } else {
      NoHooks(s.table, s.live);
    }
  }

  lemma SoundHooks(s: Progress, k: nat)
    requires Sound(s) && k in s.live
    ensures StubsIn(s.table, s.live[k])
  {
    assert HooksMatch(s, k);
  }

  lemma StillIn(one: seq<Got.Fn>, other: seq<Got.Fn>, hooks: seq<Got.Stub>)
    requires StubsIn(one, hooks) && |one| == |other|
    ensures StubsIn(other, hooks)
  {
  }

  lemma NoHooks(table: seq<Got.Fn>, live: map<nat, seq<Got.Stub>>)
    ensures StubsIn(table, []) && UnhookAll(table, []) == table && Flat(LiveHooks(live, 0)) == []
  {
    assert LiveHooks(live, 0) == [];
  }

  /** Table, stubs and mocks after each of the three parts. */
  lemma TestParts(sys: System, original: seq<Got.Fn>, words: set<int>, cs: seq<Setup>, us: seq<(Op, Reach)>,
                  rs: seq<Reach>)
    requires |cs| == |rs| && Legal(sys, Start(original, words), Test(cs, us, rs))
    ensures var s := After(Start(original, words), Test(cs, us, rs));
      && s.live == map[] && GotRuns.HooksIn(original, Flat(Plans(cs)))
      && var (table, hooks) := HookAll(original, Flat(Plans(cs))); s.table == UnhookAll(table, hooks)
  {
    var start := Start(original, words);
    var used, resets := Creations(cs) + Uses(us), ResetsOf(cs, rs, |cs|);
    LegalParts(sys, start, used, resets);
    LegalParts(sys, start, Creations(cs), Uses(us));
    AfterCreations(sys, original, words, cs);
    AfterParts(start, Creations(cs), Uses(us));
    AfterParts(start, used, resets);
    AfterUses(After(start, Creations(cs)), us);
    SoundAfter(sys, start, used);
    AfterResets(sys, After(start, used), rs, |cs|);
  }

  lemma NoMockIsLeft(sys: System, original: seq<Got.Fn>, words: set<int>, cs: seq<Setup>, us: seq<(Op, Reach)>,
                     rs: seq<Reach>)
    requires |cs| == |rs| && Legal(sys, Start(original, words), Test(cs, us, rs))
    ensures After(Start(original, words), Test(cs, us, rs)).live == map[]
  {
    hide *;
    TestParts(sys, original, words, cs, us, rs);
  }

  /**
   A whole test leaves the table as it was exactly when no slot was patched twice; the trampolines' addresses are new
   to the table.
   */
  lemma TestRestores(sys: System, original: seq<Got.Fn>, words: set<int>, cs: seq<Setup>, us: seq<(Op, Reach)>,
                     rs: seq<Reach>)
    requires |cs| == |rs| && Legal(sys, Start(original, words), Test(cs, us, rs))
    requires NewTrampolines(original, Flat(Plans(cs)))
    ensures After(Start(original, words), Test(cs, us, rs)).table == original <==> AllApart(Flat(Plans(cs)))
  {
    hide *;
    TestParts(sys, original, words, cs, us, rs);
    SameOrderRestores(original, Flat(Plans(cs)));
  }

  /** A whole test, run. */
  method RunTest(heap: Heap, slots: array<Got.Fn>, thread: Thread, m: Processor, sys: System, gap: Gap,
                 cs: seq<Setup>, us: seq<(Op, Reach)>, rs: seq<Reach>)
    returns (outs: seq<Outcome>, ghost lost: seq<object>)
    requires thread.Idle() && m.tls.asked == 0 && |cs| == |rs|
    requires Legal(sys, Start(slots[..], m.reserved), Test(cs, us, rs))
    modifies heap, slots, thread, m
    ensures outs == Outcomes(Start(old(slots[..]), old(m.reserved)), Test(cs, us, rs)) && thread.Idle()
    ensures heap.live == old(heap.live) + Blocks(lost) && Distinct(lost) && fresh(Blocks(lost))
    ensures |lost| == CallRecords.CountWhere(Test(cs, us, rs), Loses)
    ensures m.tls.asked == 0 && m.reserved == old(m.reserved)
    ensures NewTrampolines(old(slots[..]), Flat(Plans(cs))) ==>
      (slots[..] == old(slots[..]) <==> AllApart(Flat(Plans(cs))))
  {
    hide *;
    ghost var table, words := slots[..], m.reserved;
    outs, lost := TestProgram(heap, slots, thread, m, sys, gap, Test(cs, us, rs));
    NoMockIsLeft(sys, table, words, cs, us, rs);
    if NewTrampolines(table, Flat(Plans(cs))) {
      TestRestores(sys, table, words, cs, us, rs);
    }
  }

  // ---- one mock ----

  lemma OneMockTest(c: Setup, r: Reach)
    requires c.scope.places != []
    ensures Test([c], [], [r]) == [Create(c), Reset(0, r)] && Flat(Plans([c])) == Plan(c)
  {
    assert Creations([c]) == [Create(c)] && Uses([]) == [];
    assert ResetsOf([c], [r], 1) == ResetsOf([c], [r], 0) + [Reset(0, r)];
    assert Plans([c]) == [Plan(c)] && [Plan(c)][1..] == [];
  }

  /** A mock can be reset at once, through its handle or through any slot it patched. */
  lemma OneMockIsLegal(sys: System, table: seq<Got.Fn>, words: set<int>, c: Setup, way: Way, caller: Caller)
    requires Allowed(sys, Start(table, words), Create(c), 2) && c.scope.places != [] && ValidCaller(sys, caller)
    requires way.Name? ==> way.slot < |table| && Listed(Plan(c), way.slot)
    ensures Legal(sys, Start(table, words), [Create(c), Reset(0, Reach(way, caller))])
  {
    var start, ps := Start(table, words), [Create(c), Reset(0, Reach(way, caller))];
    PatchedLeadsThere(sys, start, c, way);
    hide Next, LeadsThere, Creatable, RoomFor, ValidCaller;
    assert ps[..0] == [] && ps[..1] == [Create(c)] && [Create(c)][..0] == [];
    assert After(start, ps[..1]) == Next(start, Create(c));
    assert start.setups == [];
  }

  /**
   A mock is created and reset through its handle or through any slot it patched. The table is as before exactly when
   no slot was patched twice, the heap exactly when no stub failed.
   */
  lemma CreateThenReset(sys: System, table: seq<Got.Fn>, words: set<int>, c: Setup, way: Way, caller: Caller)
    requires Allowed(sys, Start(table, words), Create(c), 2) && c.scope.places != [] && ValidCaller(sys, caller)
    requires way.Name? ==> way.slot < |table| && Listed(Plan(c), way.slot)
    ensures var start, ps := Start(table, words), [Create(c), Reset(0, Reach(way, caller))];
      && Legal(sys, start, ps)
      && var s := After(start, ps);
         && s.live == map[] && s.words == words && (s.lost == 0 <==> !Leaks(c))
         && (NewTrampolines(table, Plan(c)) ==> (s.table == table <==> AllApart(Plan(c))))
  {
    hide LeadsThere, Creatable, Plan, ValidCaller, Allowed, Next, Legal, Leaks, AllApart, After, Sound;
    var start, r := Start(table, words), Reach(way, caller);
    OneMockTest(c, r);
    OneMockIsLegal(sys, table, words, c, way, caller);
    NoMockIsLeft(sys, table, words, [c], [], [r]);
    WordsAreKept(sys, table, words, [Create(c), Reset(0, r)]);
    LossesAreFailedStubs(sys, start, [Create(c), Reset(0, r)]);
    OneLoss(c, r);
    if NewTrampolines(table, Plan(c)) {
      TestRestores(sys, table, words, [c], [], [r]);
    }
  }

  lemma OneLoss(c: Setup, r: Reach)
    ensures CallRecords.CountWhere([Create(c), Reset(0, r)], Loses) == if Leaks(c) then 1 else 0
  {
    var ps: seq<Statement> := [Create(c), Reset(0, r)];
    hide Leaks;
    assert ps[..1] == [Create(c)] && ps[..1][..0] == [];
    assert CallRecords.CountWhere(ps[..1], Loses) == if Loses(Create(c)) then 1 else 0;
    assert CallRecords.CountWhere(ps, Loses) == CallRecords.CountWhere(ps[..1], Loses) + if Loses(ps[1]) then 1 else 0;
  }

  // ---- an input that loses a block ----

  const ZEROS: seq<Word> := seq(16, _ => 0)
  const ZERO_VECTORS: seq<Vector> := seq(16, _ => Vector(0, 0))
  const NOTHING_LEFT: Clobber := Clobber(ZEROS, ZERO_VECTORS, ZERO_VECTORS, false, map[], 0)
  const SYSTEM: System := System(1, 2, 3, 0x1000, 0x2000)
  const CALLER: Caller :=
    Caller(ZEROS[RSP := 0x1800], ZERO_VECTORS, ZERO_VECTORS, NOTHING_LEFT, NOTHING_LEFT, NOTHING_LEFT)

  /** "f@lib:l", found in one slot of the library and nowhere in the main executable. */
  const SCOPED: Setup :=
    Setup("f@lib:l", Layout([], HEADER), Site([0], 0x10000, 0x20000), Site([], 0, 0), 5, 0x30000, false)

  lemma ScopedIsAllowed()
    ensures Allowed(SYSTEM, Start([7], {}), Create(SCOPED), 2)
  {
    assert FreshSite(SYSTEM, {}, SCOPED.scope);
    ScopedIsReadable();
    assert CallLogs.Needed(2, 32) == CallLogs.Needed(1, 32) + 32 == CallLogs.Needed(0, 32) + 64;
    hide FreshSite, Targets.Unreadable;
  }

  lemma ScopedIsReadable()
    ensures !Targets.Unreadable(SCOPED.target) && !Targets.SelfOnly(SCOPED.target)
  {
    assert SCOPED.target == Targets.Print("f", Targets.Select(Targets.SelLib, "l"));
    Targets.PrintedTargetIsReadBack("f", Targets.Select(Targets.SelLib, "l"));
  }

  /** A mock with a scope loses a block when the main executable itself does not call the function. */
  lemma ScopedTargetLosesItsName()
    ensures Legal(SYSTEM, Start([7], {}), [Create(SCOPED), Reset(0, Reach(Name(0), CALLER))])
    ensures After(Start([7], {}), [Create(SCOPED), Reset(0, Reach(Name(0), CALLER))]).lost == 1
  {
    var start, r := Start([7], {}), Reach(Name(0), CALLER);
    ScopedIsReadable();
    assert Plan(SCOPED) == [HookAt(SCOPED.scope)] && Plan(SCOPED)[0].places[0] == 0;
    hide Targets.SelfOnly, Targets.Unreadable, Allowed, Legal, After;
    ScopedIsAllowed();
    CreateThenReset(SYSTEM, [7], {}, SCOPED, Name(0), CALLER);
    LossesAreFailedStubs(SYSTEM, start, [Create(SCOPED), Reset(0, r)]);
    OneLoss(SCOPED, r);
  }
}

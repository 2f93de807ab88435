/** The offset table over whole programs: what its slots hold at any time, and when it is the original one again. */
module ProgramTables {
  import opened Lifetimes
  import opened HookLists
  import opened Programs
  import opened Machine
  import opened Resets
  import Got
  import GotRuns

  /** Stub `i` of mock `k`, among all live stubs. */
  function StubId(k: nat, i: nat): nat {
    2 * k + i
  }

  function LiveStubs(live: map<nat, seq<Got.Stub>>): map<nat, Got.Stub> {
    map id | id in (set k, i | k in live && 0 <= i < |live[k]| && i < 2 :: StubId(k, i)) :: HookOf(live, id)
  }

  function HookOf(live: map<nat, seq<Got.Stub>>, id: nat): Got.Stub {
    if id / 2 in live && id % 2 < |live[id / 2]| then live[id / 2][id % 2] else Got.Stub([], 0)
  }

  lemma StubIds(live: map<nat, seq<Got.Stub>>, id: nat)
    ensures id in LiveStubs(live) <==> id / 2 in live && id % 2 < |live[id / 2]|
    ensures id in LiveStubs(live) ==> LiveStubs(live)[id] == live[id / 2][id % 2]
  {
    if id / 2 in live && id % 2 < |live[id / 2]| {
      assert id == StubId(id / 2, id % 2);
    }
  }

  function TableState(s: Progress): GotRuns.State {
    GotRuns.State(s.table, LiveStubs(s.live))
  }

  /** No slot is planned twice, nor one that a live stub has patched. */
  ghost predicate OwnPlaces(s: Progress, c: Setup) {
    && AllApart(Plan(c))
    && forall k, i, h, x | k in s.live && 0 <= i < |s.live[k]| && 0 <= h < |Plan(c)| && x in Plan(c)[h].places ::
         !Got.Owns(s.live[k][i], x)
  }

  ghost predicate AlwaysApart(start: Progress, ps: seq<Statement>) {
    forall i | 0 <= i < |ps| && ps[i].Create? :: OwnPlaces(After(start, ps[..i]), ps[i].setup)
  }

  /** One or two stubs joining: what hooking a plan does, event by event. */
  lemma LiveAfterCreate(live: map<nat, seq<Got.Stub>>, n: nat, hooks: seq<Got.Stub>)
    requires n !in live && 1 <= |hooks| <= 2
    ensures LiveStubs(live[n := hooks])
         == if |hooks| == 1 then LiveStubs(live)[2 * n := hooks[0]]
            else LiveStubs(live)[2 * n := hooks[0]][2 * n + 1 := hooks[1]]
  {
    var after, one := LiveStubs(live[n := hooks]), LiveStubs(live)[2 * n := hooks[0]];
    var expected := if |hooks| == 1 then one else one[2 * n + 1 := hooks[1]];
    hide LiveStubs;
    forall id: nat
      ensures id in after <==> id in expected
      ensures id in after ==> after[id] == expected[id]
    {
      assert id / 2 == n <==> id == 2 * n || id == 2 * n + 1;
      StubIds(live, id);
      StubIds(live[n := hooks], id);
    }
  }

  lemma LiveAfterReset(live: map<nat, seq<Got.Stub>>, k: nat)
    requires k in live && 1 <= |live[k]| <= 2
    ensures LiveStubs(live - {k})
         == if |live[k]| == 1 then LiveStubs(live) - {2 * k} else LiveStubs(live) - {2 * k} - {2 * k + 1}
  {
    var after, expected := LiveStubs(live - {k}),
      if |live[k]| == 1 then LiveStubs(live) - {2 * k} else LiveStubs(live) - {2 * k} - {2 * k + 1};
    hide LiveStubs;
    forall id: nat
      ensures id in after <==> id in expected
      ensures id in after ==> after[id] == expected[id]
    {
      StubIds(live, id);
      StubIds(live - {k}, id);
    }
  }

  ghost predicate NoneOwns(live: map<nat, Got.Stub>, places: seq<nat>) {
    forall a, i | a in live && 0 <= i < |places| :: !Got.Owns(live[a], places[i])
  }

  /** A hook whose places no live stub owns keeps the invariant of the table. */
  lemma HookKeeps(original: seq<Got.Fn>, s: GotRuns.State, id: nat, hook: GotRuns.Hook)
    requires GotRuns.Invariant(original, s) && id !in s.live && Got.PlacesIn(s.slots, hook.places)
    requires Got.NoDuplicates(hook.places) && NoneOwns(s.live, hook.places)
    ensures var (after, stub) := Got.Create(s.slots, hook.places, hook.trampoline);
      GotRuns.Invariant(original, GotRuns.State(after, s.live[id := stub]))
  {
    assert GotRuns.OwnPlaces(s, GotRuns.Created(id, hook.places, hook.trampoline));
    hide GotRuns.Invariant;
    GotRuns.CreatePreserves(original, s, id, hook.places, hook.trampoline);
  }

  /** A further hook on other places is still free. */
  lemma StillFree(table: seq<Got.Fn>, live: map<nat, Got.Stub>, id: nat, a: GotRuns.Hook, places: seq<nat>)
    requires Got.PlacesIn(table, a.places) && NoneOwns(live, places) && PlacesApart(a.places, places)
    ensures NoneOwns(live[id := Got.Create(table, a.places, a.trampoline).1], places)
  {
    var stub := Got.Create(table, a.places, a.trampoline).1;
    forall i | 0 <= i < |places|
      ensures !Got.Owns(stub, places[i])
    {
      assert forall j | 0 <= j < |stub.offsets| :: stub.offsets[j].slot == a.places[j];
    }
  }

  lemma OneHookKeeps(original: seq<Got.Fn>, table: seq<Got.Fn>, live: map<nat, seq<Got.Stub>>, n: nat, a: GotRuns.Hook)
    requires GotRuns.Invariant(original, GotRuns.State(table, LiveStubs(live))) && n !in live
    requires Got.PlacesIn(table, a.places) && Got.NoDuplicates(a.places) && NoneOwns(LiveStubs(live), a.places)
    ensures var (after, hooks) := HookAll(table, [a]);
      GotRuns.Invariant(original, GotRuns.State(after, LiveStubs(live[n := hooks])))
  {
    StubIds(live, 2 * n);
    hide LiveStubs, GotRuns.Invariant, HookAll, Got.Create;
    HookOneOrTwo(table, a, a);
    HookKeeps(original, GotRuns.State(table, LiveStubs(live)), 2 * n, a);
    LiveAfterCreate(live, n, HookAll(table, [a]).1);
  }

  lemma TwoHooksKeep(original: seq<Got.Fn>, table: seq<Got.Fn>, live: map<nat, seq<Got.Stub>>, n: nat, a: GotRuns.Hook,
                     b: GotRuns.Hook)
    requires GotRuns.Invariant(original, GotRuns.State(table, LiveStubs(live))) && n !in live
    requires Got.PlacesIn(table, a.places) && Got.NoDuplicates(a.places) && NoneOwns(LiveStubs(live), a.places)
    requires Got.PlacesIn(table, b.places) && Got.NoDuplicates(b.places) && NoneOwns(LiveStubs(live), b.places)
    requires PlacesApart(a.places, b.places)
    ensures var (after, hooks) := HookAll(table, [a, b]);
      GotRuns.Invariant(original, GotRuns.State(after, LiveStubs(live[n := hooks])))
  {
    StubIds(live, 2 * n);
    StubIds(live, 2 * n + 1);
    LiveAfterCreate(live, n, HookAll(table, [a, b]).1);
    hide LiveStubs, GotRuns.Invariant, HookAll, Got.Create, NoneOwns, Got.PlacesIn, Got.NoDuplicates, PlacesApart;
    var stubs := LiveStubs(live);
    var (one, first) := Got.Create(table, a.places, a.trampoline);
    HookOneOrTwo(table, a, b);
    HookKeeps(original, GotRuns.State(table, stubs), 2 * n, a);
    StillFree(table, stubs, 2 * n, a, b.places);
    HookKeeps(original, GotRuns.State(one, stubs[2 * n := first]), 2 * n + 1, b);
  }

  lemma NotOwned(s: Progress, c: Setup, h: nat)
    requires OwnPlaces(s, c) && h < |Plan(c)|
    ensures NoneOwns(LiveStubs(s.live), Plan(c)[h].places)
  {
    hide LiveStubs, Plan;
    forall a, i | a in LiveStubs(s.live) && 0 <= i < |Plan(c)[h].places|
      ensures !Got.Owns(LiveStubs(s.live)[a], Plan(c)[h].places[i])
    {
      StubIds(s.live, a);
    }
  }

  lemma CreateKeeps(original: seq<Got.Fn>, sys: System, s: Progress, c: Setup)
    requires GotRuns.Invariant(original, TableState(s)) && Sound(s) && Creatable(s.table, sys, s.words, c)
    requires OwnPlaces(s, c)
    ensures GotRuns.Invariant(original, TableState(Next(s, Create(c))))
  {
    PlanFits(s.table, sys, s.words, c);
    NewNumber(s);
    if c.scope.places != [] {
      var plan := Plan(c);
      NotOwned(s, c, 0);
      NotOwned(s, c, |plan| - 1);
      hide LiveStubs, GotRuns.Invariant, HookAll, NoneOwns, Creatable;
      if |plan| == 1 {
        assert plan == [plan[0]];
        OneHookKeeps(original, s.table, s.live, |s.setups|, plan[0]);
      } else {
        assert plan == [plan[0], plan[1]] && PlacesApart(plan[0].places, plan[1].places);
        TwoHooksKeep(original, s.table, s.live, |s.setups|, plan[0], plan[1]);
      }
    }
  }

  lemma NewNumber(s: Progress)
    requires Sound(s)
    ensures |s.setups| !in s.live
  {
    assert forall l <- s.live :: HooksMatch(s, l);
  }

  /** Undoing one or two hooks, as the invariant of the table sees it. */
  lemma UnhookKeeps(original: seq<Got.Fn>, table: seq<Got.Fn>, stubs: map<nat, Got.Stub>, id: nat, hooks: seq<Got.Stub>)
    requires GotRuns.Invariant(original, GotRuns.State(table, stubs)) && StubsIn(table, hooks) && 1 <= |hooks| <= 2
    requires id in stubs && stubs[id] == hooks[0]
    requires |hooks| == 2 ==> id + 1 in stubs && stubs[id + 1] == hooks[1]
    ensures GotRuns.Invariant(original, GotRuns.State(UnhookAll(table, hooks),
                                                      if |hooks| == 1 then stubs - {id} else stubs - {id} - {id + 1}))
  {
    hide GotRuns.Invariant, Got.Destroy;
    GotRuns.DestroyPreserves(original, GotRuns.State(table, stubs), id);
    var one := Got.Destroy(table, hooks[0]);
    if |hooks| == 2 {
      assert hooks[1..] == [hooks[1]];
      UnhookSingle(one, hooks[1]);
      GotRuns.DestroyPreserves(original, GotRuns.State(one, stubs - {id}), id + 1);
    } else {
      assert hooks == [hooks[0]];
      UnhookSingle(table, hooks[0]);
    }
  }

  lemma MockUnhooked(original: seq<Got.Fn>, table: seq<Got.Fn>, live: map<nat, seq<Got.Stub>>, k: nat)
    requires GotRuns.Invariant(original, GotRuns.State(table, LiveStubs(live)))
    requires k in live && 1 <= |live[k]| <= 2 && StubsIn(table, live[k])
    ensures GotRuns.Invariant(original, GotRuns.State(UnhookAll(table, live[k]), LiveStubs(live - {k})))
  {
    StubIds(live, 2 * k);
    StubIds(live, 2 * k + 1);
    LiveAfterReset(live, k);
    hide LiveStubs, GotRuns.Invariant, UnhookAll, StubsIn;
    UnhookKeeps(original, table, LiveStubs(live), 2 * k, live[k]);
  }

  lemma ResetKeeps(original: seq<Got.Fn>, s: Progress, k: nat, r: Reach)
    requires GotRuns.Invariant(original, TableState(s)) && Sound(s) && k in s.live
    ensures GotRuns.Invariant(original, TableState(Next(s, Reset(k, r))))
  {
    assert HooksMatch(s, k);
    hide LiveStubs, GotRuns.Invariant, UnhookAll, StubsIn, Sound, PlannedWords;
    MockUnhooked(original, s.table, s.live, k);
  }

  /**
   Over every program in which no live stub's slot is patched again: each slot holds its owner's trampoline or its
   original contents, and whenever no mock lives the table is the original one.
   */
  lemma {:induction false} TableIsKept(sys: System, original: seq<Got.Fn>, words: set<int>, ps: seq<Statement>)
    requires Legal(sys, Start(original, words), ps) && AlwaysApart(Start(original, words), ps)
    ensures var s := After(Start(original, words), ps);
      && Sound(s) && GotRuns.Invariant(original, TableState(s))
      && (s.live == map[] ==> s.table == original)
  {
    var start := Start(original, words);
    var s := After(start, ps);
    if ps == [] {
      assert forall x | 0 <= x < |original| :: GotRuns.Unowned(TableState(start), x);
    } else {
      var n := |ps| - 1;
      var before, p := After(start, ps[..n]), ps[n];
      assert Allowed(sys, before, p, 1);
      LegalPrefix(sys, start, ps, n);
      assert AlwaysApart(start, ps[..n]) by {
        assert forall i | 0 <= i < n :: ps[..n][..i] == ps[..i];
      }
      hide GotRuns.Invariant, Sound, Creatable, Legal, LeadsThere, HookAll, UnhookAll;
      TableIsKept(sys, original, words, ps[..n]);
      SoundNext(sys, before, p, 1);
      match p
      case Create(c) => CreateKeeps(original, sys, before, c);
      case Do(op, _) =>
      case Reset(k, r) => ResetKeeps(original, before, k, r);
    }
    NoneLeft(original, s);
  }

  lemma NoneLeft(original: seq<Got.Fn>, s: Progress)
    requires GotRuns.Invariant(original, TableState(s))
    ensures s.live == map[] ==> s.table == original
  {
    if s.live == map[] {
      assert forall x | 0 <= x < |s.table| :: GotRuns.Unowned(TableState(s), x);
    }
  }

  lemma OwnedHoldsTrampoline(original: seq<Got.Fn>, s: GotRuns.State, id: nat, x: nat)
    requires GotRuns.Invariant(original, s) && id in s.live && Got.Owns(s.live[id], x)
    ensures x < |s.slots| && s.slots[x] == s.live[id].trampoline
  {
    assert GotRuns.StubIntact(original, s.slots, s.live[id]);
  }

  /** While it is in place, every slot of a live stub leads to its mock. */
  lemma OwnedSlotLeadsThere(original: seq<Got.Fn>, s: Progress, k: nat, i: nat, x: nat)
    requires GotRuns.Invariant(original, TableState(s)) && Sound(s)
    requires k in s.live && i < |s.live[k]| && Got.Owns(s.live[k][i], x)
    ensures LeadsThere(s, k, Name(x))
  {
    hide LiveStubs, GotRuns.Invariant, Got.Owns, PlannedWords, MemoryApart, StubsIn;
    assert HooksMatch(s, k);
    StubIds(s.live, StubId(k, i));
    OwnedHoldsTrampoline(original, TableState(s), StubId(k, i), x);
  }
}
